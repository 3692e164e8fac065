/**
  The InToHyLo wrapper: one InToHyLo formula is rewritten for three solver front ends.
  S52SAT names every agent index `[n]` as the relation `[rn]` and frames the formula with
  `begin` and `end`; LCKS5 counts agents from zero, so every `[n]` and `<n>` loses one; CEGAR
  drops the indices altogether.

  Each `re.sub` with the pattern `\[(\d+)\]` or `<(\d+)>` is `Rewrite`, a scanner that finds
  the matches left to right without overlap; `IndexAt` is one match at the start of the text
  and `HasIndex` is `re.search`. Digits are the ASCII digits.
 */
module Wrapper {
  import opened Wrappers
  import opened Text

  // ---------------------------------------------------------------------------
  // The scanner

  /**
    A match of `open (\d+) close` at the start of s: its digits and what follows it. The digit
    run is taken whole, since a shorter run would be followed by a digit rather than `close`.
   */
  function IndexAt(s: string, open: char, close: char): (r: Option<(string, string)>)
    ensures r.Some? ==> s == [open] + r.value.0 + [close] + r.value.1 && |r.value.0| > 0 && AllDigits(r.value.0)
  {
    if s == [] || s[0] != open then None
    else
      var n := DigitRun(s[1..]);
      if n == 0 || 1 + n >= |s| || s[1 + n] != close then None
      else
        var ds, rest := s[1..1 + n], s[2 + n..];
        assert ds == s[1..][..n];
        assert s == [open] + ds + [close] + rest;
        Some((ds, rest))
  }

  /** Conversely, every text of that shape is a match, with exactly those parts. */
  lemma {:induction false} IndexAtComplete(ds: string, rest: string, open: char, close: char)
    requires |ds| > 0 && AllDigits(ds) && !IsDigit(close)
    ensures IndexAt([open] + ds + [close] + rest, open, close) == Some((ds, rest))
  {
    var s := [open] + ds + [close] + rest;
    assert s[1..] == ds + ([close] + rest);
    DigitRunOf(ds, [close] + rest);
    assert s[1 + |ds|] == close;
    assert s[1..1 + |ds|] == ds && s[2 + |ds|..] == rest;
  }

  /** One `re.sub` pass: each match, found left to right, is replaced by `f` of its digits. */
  function Rewrite(s: string, open: char, close: char, f: string -> string): string
    decreases |s|
  {
    if s == [] then []
    else match IndexAt(s, open, close)
      case Some((ds, rest)) => f(ds) + Rewrite(rest, open, close, f)
      case None => [s[0]] + Rewrite(s[1..], open, close, f)
  }

  /** `re.search`: a match starts somewhere in s. */
  predicate HasIndex(s: string, open: char, close: char)
    decreases |s|
  {
    s != [] && (IndexAt(s, open, close).Some? || HasIndex(s[1..], open, close))
  }

  /** Every replacement begins with the opening character. */
  ghost predicate OpensWith(f: string -> string, open: char) {
    forall ds :: |f(ds)| > 0 && f(ds)[0] == open
  }

  /** Text without the opening character is copied unchanged. */
  lemma {:induction false} RewriteSkip(a: string, b: string, open: char, close: char, f: string -> string)
    requires open !in a
    ensures Rewrite(a + b, open, close, f) == a + Rewrite(b, open, close, f)
    decreases |a|
  {
    if a == [] {
      assert a + b == b;
    } else {
      assert (a + b)[0] == a[0] && (a + b)[1..] == a[1..] + b;
      RewriteSkip(a[1..], b, open, close, f);
    }
  }

  /** No match starts in text without the opening character. */
  lemma {:induction false} HasIndexSkip(a: string, b: string, open: char, close: char)
    requires open !in a
    ensures HasIndex(a + b, open, close) == HasIndex(b, open, close)
    decreases |a|
  {
    if a == [] {
      assert a + b == b;
    } else {
      assert (a + b)[0] == a[0] && (a + b)[1..] == a[1..] + b;
      HasIndexSkip(a[1..], b, open, close);
    }
  }

  /** A match in a suffix is a match in the whole text. */
  lemma {:induction false} HasIndexSuffix(a: string, b: string, open: char, close: char)
    requires HasIndex(b, open, close)
    ensures HasIndex(a + b, open, close)
    decreases |a|
  {
    if a == [] {
      assert a + b == b;
    } else {
      assert (a + b)[1..] == a[1..] + b;
      HasIndexSuffix(a[1..], b, open, close);
    }
  }

  /** Where a match starts, the output starts with a replacement. */
  lemma {:induction false} RewriteOpens(t: string, open: char, close: char, f: string -> string)
    requires OpensWith(f, open) && IndexAt(t, open, close).Some?
    ensures |Rewrite(t, open, close, f)| > 0 && Rewrite(t, open, close, f)[0] == open
  {
    var (ds, rest) := IndexAt(t, open, close).value;
    assert Rewrite(t, open, close, f) == f(ds) + Rewrite(rest, open, close, f);
  }

  /**
    When every replacement begins with the opening character, a prefix of the output that does
    not contain that character was copied from the input.
   */
  lemma {:induction false} PrefixBack(t: string, p: string, open: char, close: char, f: string -> string)
    requires OpensWith(f, open) && open !in p && p <= Rewrite(t, open, close, f)
    ensures p <= t
    decreases |t|
  {
    if p != [] {
      var out := Rewrite(t, open, close, f);
      assert t != [];
      if IndexAt(t, open, close).Some? {
        // a replacement would put `open` in front of p
        RewriteOpens(t, open, close, f);
        assert false;
      } else {
        var r := Rewrite(t[1..], open, close, f);
        assert out == [t[0]] + r;
        assert p[1..] <= r;
        PrefixBack(t[1..], p[1..], open, close, f);
      }
    }
  }

  /** A text without a match is left as it is. */
  lemma {:induction false} RewriteNoIndex(s: string, open: char, close: char, f: string -> string)
    requires !HasIndex(s, open, close)
    ensures Rewrite(s, open, close, f) == s
    decreases |s|
  {
    if s != [] {
      RewriteNoIndex(s[1..], open, close, f);
    }
  }

  /**
    A character copied by a pass of (o2, c2) does not start a new match of (o1, c1): the text
    after it was copied too, up to the match's closing character.
   */
  lemma {:induction false} CopiedNoMatch(x: string, o1: char, c1: char, o2: char, c2: char, g: string -> string)
    requires x != [] && IndexAt(x, o1, c1).None?
    requires OpensWith(g, o2) && !IsDigit(o2) && o2 != c1 && !IsDigit(c1)
    ensures IndexAt([x[0]] + Rewrite(x[1..], o2, c2, g), o1, c1).None?
  {
    CopiedMatchLifts(x, o1, c1, o2, c2, g);
  }

  /** A match at a copied character was a match in the input already. */
  lemma {:induction false} CopiedMatchLifts(x: string, o1: char, c1: char, o2: char, c2: char, g: string -> string)
    requires x != []
    requires OpensWith(g, o2) && !IsDigit(o2) && o2 != c1 && !IsDigit(c1)
    ensures IndexAt([x[0]] + Rewrite(x[1..], o2, c2, g), o1, c1).Some? ==> IndexAt(x, o1, c1).Some?
  {
    var r := Rewrite(x[1..], o2, c2, g);
    var s := [x[0]] + r;
    if IndexAt(s, o1, c1).Some? {
      var m := IndexAt(s, o1, c1).value;
      assert s[0] == o1 && s[1..] == m.0 + [c1] + m.1;
      LiftMatch(x, m.0, m.1, o1, c1, o2, c2, g);
    }
  }

  /** The step of CopiedMatchLifts once the match's parts are named. */
  lemma {:induction false} LiftMatch(x: string, ds: string, rest: string, o1: char, c1: char, o2: char, c2: char, g: string -> string)
    requires x != [] && x[0] == o1 && |ds| > 0 && AllDigits(ds)
    requires OpensWith(g, o2) && !IsDigit(o2) && o2 != c1 && !IsDigit(c1)
    requires Rewrite(x[1..], o2, c2, g) == ds + [c1] + rest
    ensures IndexAt(x, o1, c1).Some?
  {
    assert o2 !in ds + [c1];
    PrefixBack(x[1..], ds + [c1], o2, c2, g);
    ConsPrefix(x, ds + [c1]);
    var after := x[|ds| + 2..];
    assert [x[0]] + (ds + [c1]) + after == [o1] + ds + [c1] + after;
    IndexAtComplete(ds, after, o1, c1);
  }

  lemma {:induction false} ConsPrefix(x: string, p: string)
    requires x != [] && p <= x[1..]
    ensures x == [x[0]] + p + x[|p| + 1..]
  {
    assert x[1..] == p + x[1..][|p|..];
  }

  /**
    Replacements of the form `open` + u, where u begins with a non-digit and never contains
    `open`, leave no match behind: one pass removes every match.
   */
  lemma {:induction false} NoIndexLeft(t: string, open: char, close: char, f: string -> string)
    requires !IsDigit(open) && !IsDigit(close) && open != close
    requires OpensWith(f, open)
    requires forall ds :: AllDigits(ds) ==> |f(ds)| >= 2 && !IsDigit(f(ds)[1]) && open !in f(ds)[1..]
    ensures !HasIndex(Rewrite(t, open, close, f), open, close)
    decreases |t|
  {
    if t != [] {
      var m := IndexAt(t, open, close);
      if m.Some? {
        var (ds, rest) := m.value;
        var r := Rewrite(rest, open, close, f);
        assert Rewrite(t, open, close, f) == f(ds) + r;
        assert !HasIndex(r, open, close) by { NoIndexLeft(rest, open, close, f); }
        ReplacementNoIndex(f(ds), r, open, close);
      } else {
        var r := Rewrite(t[1..], open, close, f);
        assert !HasIndex(r, open, close) by { NoIndexLeft(t[1..], open, close, f); }
        CopiedNoMatch(t, open, close, open, close, f);
        assert ([t[0]] + r)[1..] == r;
      }
    }
  }

  /** A replacement that opens with `open` followed by a non-digit and no further `open` starts no match. */
  lemma {:induction false} ReplacementNoIndex(v: string, r: string, open: char, close: char)
    requires |v| >= 2 && v[0] == open && !IsDigit(v[1]) && open !in v[1..]
    requires !HasIndex(r, open, close)
    ensures !HasIndex(v + r, open, close)
  {
    var u := v[1..];
    assert v + r == [open] + (u + r);
    HasIndexSkip(u, r, open, close);
    assert ([open] + (u + r))[1..] == u + r;
    assert (u + r)[0] == u[0];
  }

  /**
    A pass for one pattern creates no match of another pattern, when its replacements begin
    with its own opening character and never contain the other's.
   */
  lemma {:induction false} PassKeepsNoIndex(x: string, o1: char, c1: char, o2: char, c2: char, g: string -> string)
    requires !HasIndex(x, o1, c1)
    requires !IsDigit(o2) && o2 != c1 && !IsDigit(c1) && !IsDigit(c2)
    requires OpensWith(g, o2) && forall ds :: o1 !in g(ds)
    ensures !HasIndex(Rewrite(x, o2, c2, g), o1, c1)
    decreases |x|
  {
    if x != [] {
      var m := IndexAt(x, o2, c2);
      if m.Some? {
        var (ds, rest) := m.value;
        var r := Rewrite(rest, o2, c2, g);
        assert Rewrite(x, o2, c2, g) == g(ds) + r;
        if HasIndex(rest, o1, c1) {
          HasIndexSuffix([o2] + ds + [c2], rest, o1, c1);
        }
        PassKeepsNoIndex(rest, o1, c1, o2, c2, g);
        HasIndexSkip(g(ds), r, o1, c1);
      } else {
        PassKeepsNoIndex(x[1..], o1, c1, o2, c2, g);
        CopiedNoMatch(x, o1, c1, o2, c2, g);
        assert ([x[0]] + Rewrite(x[1..], o2, c2, g))[1..] == Rewrite(x[1..], o2, c2, g);
      }
    }
  }

  // ---------------------------------------------------------------------------
  // The three formats

  /** Python's `int(ds)` on the digits of a match. */
  function IntOf(ds: string): int {
    if AllDigits(ds) then DigitsValue(ds) else 0
  }

  /** The S52SAT replacement: the agent index becomes the relation r<index>. */
  function RelationIndex(ds: string): string {
    "[r" + ds + "]"
  }

  /** The LCKS5 replacements: the index read as a number, less one. */
  function BracketDecrement(ds: string): string {
    "[" + IntToString(IntOf(ds) - 1) + "]"
  }

  function AngleDecrement(ds: string): string {
    "<" + IntToString(IntOf(ds) - 1) + ">"
  }

  /** The CEGAR replacements: the index dropped. */
  function BareBracket(ds: string): string {
    "[]"
  }

  function BareAngle(ds: string): string {
    "<>"
  }

  /** `convert_to_s52sat`. */
  function S52Sat(formula: string): (r: string)
    ensures "begin\n" <= r && EndsWith(r, "\nend")
  {
    var result := Rewrite(formula, '[', ']', RelationIndex);
    var r := "begin\n" + Strip(result) + "\nend";
    assert r[|r| - 4..] == "\nend";
    r
  }

  /** `convert_to_lcks5`: the bracket pass, then the angle pass. */
  function Lcks5(formula: string): string {
    Rewrite(Rewrite(formula, '[', ']', BracketDecrement), '<', '>', AngleDecrement)
  }

  /** `convert_to_cegar`: the bracket pass, then the angle pass. */
  function Cegar(formula: string): string {
    Rewrite(Rewrite(formula, '[', ']', BareBracket), '<', '>', BareAngle)
  }

  /** After the S52SAT rewriting no `[n]` is left: every index became a relation name. */
  lemma {:induction false} S52SatNoIndexLeft(formula: string)
    ensures !HasIndex(Rewrite(formula, '[', ']', RelationIndex), '[', ']')
  {
    forall ds | AllDigits(ds)
      ensures |RelationIndex(ds)| >= 2 && !IsDigit(RelationIndex(ds)[1]) && '[' !in RelationIndex(ds)[1..]
    {
      var u := RelationIndex(ds)[1..];
      assert u == "r" + ds + "]";
      assert forall i | 1 <= i < |u| - 1 :: u[i] == ds[i - 1];
    }
    NoIndexLeft(formula, '[', ']', RelationIndex);
  }

  /** An index followed by text without '[' is renamed, and the text is kept. */
  lemma {:induction false} S52SatRenames(ds: string, rest: string)
    requires |ds| > 0 && AllDigits(ds) && '[' !in rest
    ensures Rewrite(['['] + ds + [']'] + rest, '[', ']', RelationIndex) == "[r" + ds + "]" + rest
  {
    IndexAtComplete(ds, rest, '[', ']');
    RewriteSkip(rest, [], '[', ']', RelationIndex);
    assert rest + [] == rest;
  }

  // ---------------------------------------------------------------------------
  // LCKS5: two passes make one scan

  /**
    Both patterns in one left-to-right scan: at each position a bracket index is tried first,
    then an angle index, and any other character is kept.
   */
  function BothIndices(s: string, f: string -> string, g: string -> string): string
    decreases |s|
  {
    if s == [] then []
    else match IndexAt(s, '[', ']')
      case Some((ds, rest)) => f(ds) + BothIndices(rest, f, g)
      case None =>
        match IndexAt(s, '<', '>')
        case Some((ds, rest)) => g(ds) + BothIndices(rest, f, g)
        case None => [s[0]] + BothIndices(s[1..], f, g)
  }

  /**
    The bracket pass followed by the angle pass is the single scan, when the bracket
    replacements begin with '[' and contain no '<'.
   */
  lemma {:induction false} TwoPasses(s: string, f: string -> string, g: string -> string)
    requires OpensWith(f, '[') && forall ds :: '<' !in f(ds)
    ensures Rewrite(Rewrite(s, '[', ']', f), '<', '>', g) == BothIndices(s, f, g)
    decreases |s|
  {
    if s != [] {
      var m := IndexAt(s, '[', ']');
      if m.Some? {
        var (ds, rest) := m.value;
        var r := Rewrite(rest, '[', ']', f);
        assert Rewrite(s, '[', ']', f) == f(ds) + r;
        TwoPasses(rest, f, g);
        RewriteSkip(f(ds), r, '<', '>', g);
        assert BothIndices(s, f, g) == f(ds) + BothIndices(rest, f, g);
      } else {
        var n := IndexAt(s, '<', '>');
        if n.Some? {
          var (ds, rest) := n.value;
          var r := Rewrite(rest, '[', ']', f);
          TwoPasses(rest, f, g);
          AngleCopied(ds, rest, f);
          IndexAtComplete(ds, r, '<', '>');
          assert Rewrite(['<'] + ds + ['>'] + r, '<', '>', g) == g(ds) + Rewrite(r, '<', '>', g);
          assert BothIndices(s, f, g) == g(ds) + BothIndices(rest, f, g);
        } else {
          TwoPasses(s[1..], f, g);
          CopiedNoMatch(s, '<', '>', '[', ']', f);
          var r := Rewrite(s[1..], '[', ']', f);
          assert Rewrite(s, '[', ']', f) == [s[0]] + r;
          assert ([s[0]] + r)[1..] == r;
          assert BothIndices(s, f, g) == [s[0]] + BothIndices(s[1..], f, g);
        }
      }
    }
  }

  /** An angle index passes through the bracket pass unchanged. */
  lemma {:induction false} AngleCopied(ds: string, rest: string, f: string -> string)
    requires AllDigits(ds)
    ensures Rewrite(['<'] + ds + ['>'] + rest, '[', ']', f) == ['<'] + ds + ['>'] + Rewrite(rest, '[', ']', f)
  {
    var a := ['<'] + ds + ['>'];
    assert forall i | 0 < i < |a| - 1 :: a[i] == ds[i - 1];
    RewriteSkip(a, rest, '[', ']', f);
  }

  lemma {:induction false} NoAngleInInt(i: int)
    ensures '<' !in IntToString(i) && '[' !in IntToString(i)
  {
    var s := if i < 0 then NatToString(-i) else NatToString(i);
    assert AllDigits(s);
    assert IntToString(i) == (if i < 0 then "-" + s else s);
  }

  /** LCKS5 decrements every `[n]` and every `<n>` in one scan and keeps all other text. */
  lemma {:induction false} Lcks5Scan(formula: string)
    ensures Lcks5(formula) == BothIndices(formula, BracketDecrement, AngleDecrement)
  {
    forall ds ensures |BracketDecrement(ds)| > 0 && BracketDecrement(ds)[0] == '[' && '<' !in BracketDecrement(ds) {
      NoAngleInInt(IntOf(ds) - 1);
    }
    TwoPasses(formula, BracketDecrement, AngleDecrement);
  }

  /** Text with no '[' and no '<' is unchanged by LCKS5. */
  lemma {:induction false} Lcks5KeepsOtherText(formula: string)
    requires '[' !in formula && '<' !in formula
    ensures Lcks5(formula) == formula
  {
    HasIndexSkip(formula, [], '[', ']');
    assert formula + [] == formula;
    RewriteNoIndex(formula, '[', ']', BracketDecrement);
    HasIndexSkip(formula, [], '<', '>');
    RewriteNoIndex(formula, '<', '>', AngleDecrement);
  }

  /** A text that is one index is replaced as a whole. */
  lemma {:induction false} RewriteOne(ds: string, open: char, close: char, f: string -> string)
    requires |ds| > 0 && AllDigits(ds) && !IsDigit(close)
    ensures Rewrite([open] + ds + [close], open, close, f) == f(ds)
  {
    IndexAtComplete(ds, [], open, close);
    assert [open] + ds + [close] == [open] + ds + [close] + [];
    assert f(ds) + Rewrite([], open, close, f) == f(ds);
  }

  lemma {:induction false} DecrementZero()
    ensures BracketDecrement("0") == "[-1]"
  {
    assert IntOf("0") == 0;
    assert IntToString(-1) == "-" + [DigitChar(1)];
  }

  lemma {:induction false} DecrementSeven()
    ensures AngleDecrement("007") == "<6>"
  {
    assert DigitsValue("0") == 0 by { assert "0"[..0] == []; }
    assert DigitsValue("00") == 0 by { assert "00"[..1] == "0"; }
    assert DigitsValue("007") == 7 by { assert "007"[..2] == "00"; }
    assert IntToString(6) == [DigitChar(6)];
  }

  /** The index is read as a number: `[0]` becomes `[-1]`. */
  lemma {:induction false} Lcks5Zero()
    ensures Lcks5("[" + "0" + "]") == "[-1]"
  {
    assert Rewrite("[" + "0" + "]", '[', ']', BracketDecrement) == "[-1]" by {
      RewriteOne("0", '[', ']', BracketDecrement);
      DecrementZero();
    }
    assert Rewrite("[-1]", '<', '>', AngleDecrement) == "[-1]" by {
      RewriteSkip("[-1]", [], '<', '>', AngleDecrement);
      assert "[-1]" + [] == "[-1]";
    }
  }

  /** Leading zeros vanish: `<007>` becomes `<6>`. */
  lemma {:induction false} Lcks5LeadingZeros()
    ensures Lcks5("<" + "007" + ">") == "<6>"
  {
    var s := "<" + "007" + ">";
    assert Rewrite(s, '[', ']', BracketDecrement) == s by {
      RewriteSkip(s, [], '[', ']', BracketDecrement);
      assert s + [] == s;
    }
    assert Rewrite(s, '<', '>', AngleDecrement) == "<6>" by {
      RewriteOne("007", '<', '>', AngleDecrement);
      DecrementSeven();
    }
  }

  // ---------------------------------------------------------------------------
  // CEGAR: idempotent

  /** After CEGAR no `[n]` and no `<n>` is left. */
  lemma {:induction false} CegarClean(formula: string)
    ensures !HasIndex(Cegar(formula), '[', ']') && !HasIndex(Cegar(formula), '<', '>')
  {
    forall ds | AllDigits(ds) ensures |BareBracket(ds)| >= 2 && !IsDigit(BareBracket(ds)[1]) && '[' !in BareBracket(ds)[1..] {
      assert BareBracket(ds)[1..] == "]";
    }
    forall ds | AllDigits(ds) ensures |BareAngle(ds)| >= 2 && !IsDigit(BareAngle(ds)[1]) && '<' !in BareAngle(ds)[1..] {
      assert BareAngle(ds)[1..] == ">";
    }
    var x := Rewrite(formula, '[', ']', BareBracket);
    NoIndexLeft(formula, '[', ']', BareBracket);
    PassKeepsNoIndex(x, '[', ']', '<', '>', BareAngle);
    NoIndexLeft(x, '<', '>', BareAngle);
  }

  /** Converting to CEGAR twice is converting once. */
  lemma {:induction false} CegarIdempotent(formula: string)
    ensures Cegar(Cegar(formula)) == Cegar(formula)
  {
    var c := Cegar(formula);
    CegarClean(formula);
    RewriteNoIndex(c, '[', ']', BareBracket);
    RewriteNoIndex(c, '<', '>', BareAngle);
  }

  // ---------------------------------------------------------------------------
  // Several formulas

  /** A stripped line that is kept: not blank and not a '#' comment. */
  predicate IsFormulaLine(line: string) {
    line != [] && line[0] != '#'
  }

  /** The stripped lines that are kept, in order. */
  function FormulaLines(lines: seq<string>): seq<string> {
    if lines == [] then []
    else (if IsFormulaLine(Strip(lines[0])) then [Strip(lines[0])] else []) + FormulaLines(lines[1..])
  }

  lemma {:induction false} FormulaLinesSnoc(lines: seq<string>, line: string)
    ensures FormulaLines(lines + [line]) == FormulaLines(lines) + (if IsFormulaLine(Strip(line)) then [Strip(line)] else [])
  {
    var kept := if IsFormulaLine(Strip(line)) then [Strip(line)] else [];
    if lines == [] {
      assert [] + [line] == [line];
      assert FormulaLines([line]) == kept + [];
    } else {
      var first := if IsFormulaLine(Strip(lines[0])) then [Strip(lines[0])] else [];
      SnocTail(lines, line);
      FormulaLinesSnoc(lines[1..], line);
      AppendAssoc(first, FormulaLines(lines[1..]), kept);
    }
  }

  /** A kept entry: a stripped, nonblank line that is not a comment. */
  predicate IsKept(f: string) {
    IsFormulaLine(f) && Strip(f) == f
  }

  /** Every kept entry is a stripped, nonblank line that is not a comment. */
  lemma {:induction false} FormulaLinesShape(lines: seq<string>)
    ensures forall i :: 0 <= i < |FormulaLines(lines)| ==> IsKept(FormulaLines(lines)[i])
    decreases |lines|
  {
    if lines != [] {
      var rest := FormulaLines(lines[1..]);
      FormulaLinesShape(lines[1..]);
      var line := Strip(lines[0]);
      if IsFormulaLine(line) {
        assert IsKept(line) by { StripIdempotent(lines[0]); }
        KeptCons(line, rest);
        assert FormulaLines(lines) == [line] + rest;
      } else {
        assert FormulaLines(lines) == [] + rest;
      }
    }
  }

  lemma {:induction false} KeptCons(line: string, rest: seq<string>)
    requires IsKept(line) && forall i :: 0 <= i < |rest| ==> IsKept(rest[i])
    ensures forall i :: 0 <= i < |rest| + 1 ==> IsKept(([line] + rest)[i])
  {
    assert forall i :: 1 <= i < |rest| + 1 ==> ([line] + rest)[i] == rest[i - 1];
  }

  /** Nothing is dropped when every line holds a formula. */
  lemma {:induction false} FormulaLinesAll(lines: seq<string>)
    requires forall i :: 0 <= i < |lines| ==> IsFormulaLine(Strip(lines[i]))
    ensures |FormulaLines(lines)| == |lines|
    ensures forall i :: 0 <= i < |lines| ==> FormulaLines(lines)[i] == Strip(lines[i])
    decreases |lines|
  {
    if lines != [] {
      var rest := FormulaLines(lines[1..]);
      assert |rest| == |lines| - 1 && forall i :: 0 <= i < |rest| ==> rest[i] == Strip(lines[1..][i]) by {
        assert forall i :: 0 <= i < |lines[1..]| ==> IsFormulaLine(Strip(lines[1..][i]));
        FormulaLinesAll(lines[1..]);
      }
      assert FormulaLines(lines) == [Strip(lines[0])] + rest;
      StrippedCons(lines, rest);
    }
  }

  lemma {:induction false} StrippedCons(lines: seq<string>, rest: seq<string>)
    requires lines != [] && |rest| == |lines| - 1
    requires forall i :: 0 <= i < |rest| ==> rest[i] == Strip(lines[1..][i])
    ensures forall i :: 0 <= i < |lines| ==> ([Strip(lines[0])] + rest)[i] == Strip(lines[i])
  {
    assert forall i :: 1 <= i < |lines| ==> ([Strip(lines[0])] + rest)[i] == rest[i - 1] && lines[i] == lines[1..][i - 1];
  }

  /** `parse_formulas`: the stripped lines of the text that are neither blank nor comments. */
  method ParseFormulas(text: string) returns (formulas: seq<string>)
    ensures formulas == FormulaLines(Split(Strip(text), "\n"))
    ensures forall i :: 0 <= i < |formulas| ==> IsKept(formulas[i])
  {
    var lines := Split(Strip(text), "\n");
    formulas := [];
    for i := 0 to |lines|
      invariant formulas == FormulaLines(lines[..i])
    {
      TakeSnoc(lines, i);
      FormulaLinesSnoc(lines[..i], lines[i]);
      var line := Strip(lines[i]);
      if line != [] && line[0] != '#' {
        formulas := formulas + [line];
      }
    }
    assert lines[..|lines|] == lines;
    FormulaLinesShape(lines);
  }

  /** Python's KeyError for a missing dictionary key. */
  datatype KeyError = KeyError(key: string)

  /** The keys of the converter table. */
  predicate IsFormat(formatType: string) {
    formatType == "S52SAT" || formatType == "LCKS5" || formatType == "CEGAR"
  }

  function ConvertAs(formatType: string, formula: string): string
    requires IsFormat(formatType)
  {
    if formatType == "S52SAT" then S52Sat(formula)
    else if formatType == "LCKS5" then Lcks5(formula)
    else Cegar(formula)
  }

  /** `process_formulas`: every formula converted to the format, or a KeyError for an unknown format. */
  function ProcessFormulas(formulas: seq<string>, formatType: string): (r: Result<seq<string>, KeyError>)
    ensures r.Err? <==> !IsFormat(formatType)
    ensures r.Err? ==> r.error == KeyError(formatType)
    ensures r.Ok? ==> |r.value| == |formulas| && forall i :: 0 <= i < |formulas| ==> r.value[i] == ConvertAs(formatType, formulas[i])
  {
    if !IsFormat(formatType) then Err(KeyError(formatType))
    else Ok(seq(|formulas|, i requires 0 <= i < |formulas| => ConvertAs(formatType, formulas[i])))
  }

  /** Processing a list for CEGAR a second time changes nothing. */
  lemma {:induction false} ProcessCegarIdempotent(formulas: seq<string>)
    ensures ProcessFormulas(ProcessFormulas(formulas, "CEGAR").value, "CEGAR") == ProcessFormulas(formulas, "CEGAR")
  {
    var once := ProcessFormulas(formulas, "CEGAR").value;
    var twice := ProcessFormulas(once, "CEGAR").value;
    forall i | 0 <= i < |formulas|
      ensures twice[i] == once[i]
    {
      CegarIdempotent(formulas[i]);
    }
    assert twice == once;
  }

  // ---------------------------------------------------------------------------
  // Output files

  /** The name of the output file for one format. */
  function OutputName(base: string, formatType: string): (name: string)
    ensures EndsWith(name, "_" + formatType + ".txt")
    ensures !EndsWith(base, ".txt") ==> name == base + "_" + formatType + ".txt"
    ensures EndsWith(base, ".txt") && Count(base[..|base| - 4], ".txt") == 0 ==>
      name == base[..|base| - 4] + "_" + formatType + ".txt"
  {
    var suffix := "_" + formatType + ".txt";
    if EndsWith(base, ".txt") then
      assert Unbordered(".txt") by {
        forall k | 0 < k < 4 ensures ".txt"[k..] != ".txt"[..4 - k] {
          assert ".txt"[k..][0] != ".txt"[..4 - k][0];
        }
      }
      ReplaceAllEndsWith(base, ".txt", suffix);
      var stem := base[..|base| - 4];
      assert base == stem + ".txt";
      assert Count(stem, ".txt") == 0 ==> ReplaceAll(base, ".txt", suffix) == stem + suffix by {
        if Count(stem, ".txt") == 0 {
          ReplaceAllFirst(stem, ".txt", suffix, []);
          assert stem + ".txt" + [] == base;
          assert ReplaceAll([], ".txt", suffix) == [];
          assert suffix + [] == suffix;
        }
      }
      ReplaceAll(base, ".txt", suffix)
    else
      var name := base + suffix;
      assert name[|name| - |suffix|..] == suffix;
      name
  }

  /** Every `.txt` in the base is replaced, not only the ending one: `a.txt.txt` gives `a_FMT.txt_FMT.txt`. */
  lemma {:induction false} OutputNameEveryTxt(stem: string, formatType: string)
    requires Count(stem, ".txt") == 0
    ensures var suffix := "_" + formatType + ".txt";
      OutputName(stem + ".txt.txt", formatType) == stem + suffix + suffix
  {
    var suffix := "_" + formatType + ".txt";
    var base := stem + ".txt.txt";
    assert Unbordered(".txt") by {
      forall k | 0 < k < 4 ensures ".txt"[k..] != ".txt"[..4 - k] {
        assert ".txt"[k..][0] != ".txt"[..4 - k][0];
      }
    }
    assert ReplaceAll(".txt", ".txt", suffix) == suffix by {
      assert Count([], ".txt") == 0 && ReplaceAll([], ".txt", suffix) == [];
      ReplaceAllFirst([], ".txt", suffix, []);
      assert [] + ".txt" + [] == ".txt" && suffix + [] == suffix;
    }
    assert base == stem + ".txt" + ".txt";
    ReplaceAllFirst(stem, ".txt", suffix, ".txt");
    assert base[|base| - 4..] == ".txt";
  }

  /** Each converted formula followed by a terminator, as the output file holds them. */
  function Terminated(xs: seq<string>, terminator: string): string {
    if xs == [] then [] else xs[0] + terminator + Terminated(xs[1..], terminator)
  }

  /** The text of the output file for one format: S52SAT leaves a blank line after each formula. */
  function OutputText(formatType: string, converted: seq<string>): string {
    Terminated(converted, if formatType == "S52SAT" then "\n\n" else "\n")
  }

  /** Terminating every line is joining with a trailing empty line. */
  lemma {:induction false} TerminatedJoin(xs: seq<string>, c: char)
    ensures Terminated(xs, [c]) == Join([c], xs + [[]])
    decreases |xs|
  {
    if xs != [] {
      TerminatedJoin(xs[1..], c);
      assert xs + [[]] == [xs[0]] + (xs[1..] + [[]]);
    }
  }

  /** An LCKS5 or CEGAR file read back line by line gives the formulas and a final empty line. */
  lemma {:induction false} OutputTextLines(formatType: string, converted: seq<string>)
    requires formatType != "S52SAT"
    requires forall i :: 0 <= i < |converted| ==> '\n' !in converted[i]
    ensures Split(OutputText(formatType, converted), "\n") == converted + [[]]
  {
    TerminatedJoin(converted, '\n');
    SplitJoin(converted + [[]], '\n');
  }
}
