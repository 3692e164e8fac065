/**
  The converter from the generator's notation to InToHyLo: `□1(A4 ∨ ¬A3) ∧ ¬□2(A1)` becomes
  `[1] (p4 | ~p3) & ~[2] (p1)`.

  Each regular expression of the converter is a scanner over the characters: `A(\d+)` is
  `RenameVars`, one match of `□(\d+)\(([^)]+)\)` is `BoxAt`, a `re.sub` pass with it is
  `SubBoxes` and `re.search` is `HasBox`. Digits are the ASCII digits.
 */
module Converter {
  import opened Wrappers
  import opened Text

  const NegGlyph: char := '\U{AC}'
  const AndGlyph: char := '\U{2227}'
  const OrGlyph: char := '\U{2228}'
  const BoxGlyph: char := '\U{25A1}'

  // ---------------------------------------------------------------------------
  // Connectives and variables

  /** The four `str.replace` calls: ¬ to ~, ∧ to &, ∨ to |, and v to |. */
  function Glyphs(s: string): string {
    ReplaceAll(ReplaceAll(ReplaceAll(ReplaceAll(s, [NegGlyph], "~"), [AndGlyph], "&"), [OrGlyph], "|"), "v", "|")
  }

  /** No connective glyph and no 'v' survives the replacements. */
  lemma {:induction false} GlyphsGone(s: string)
    ensures NegGlyph !in Glyphs(s) && AndGlyph !in Glyphs(s) && OrGlyph !in Glyphs(s) && 'v' !in Glyphs(s)
  {
    var s1 := ReplaceAll(s, [NegGlyph], "~");
    var s2 := ReplaceAll(s1, [AndGlyph], "&");
    var s3 := ReplaceAll(s2, [OrGlyph], "|");
    ReplaceCharAbsent(s, NegGlyph, "~", NegGlyph);
    ReplaceCharAbsent(s1, AndGlyph, "&", NegGlyph);
    ReplaceCharAbsent(s1, AndGlyph, "&", AndGlyph);
    ReplaceCharAbsent(s2, OrGlyph, "|", NegGlyph);
    ReplaceCharAbsent(s2, OrGlyph, "|", AndGlyph);
    ReplaceCharAbsent(s2, OrGlyph, "|", OrGlyph);
    ReplaceCharAbsent(s3, 'v', "|", NegGlyph);
    ReplaceCharAbsent(s3, 'v', "|", AndGlyph);
    ReplaceCharAbsent(s3, 'v', "|", OrGlyph);
    ReplaceCharAbsent(s3, 'v', "|", 'v');
  }

  /**
    `re.sub(r'A(\d+)', r'p\1', s)`: scanning left to right, an 'A' followed by a run of digits
    becomes 'p' and the digits are copied.
   */
  function RenameVars(s: string): (r: string)
    ensures |r| == |s|
    decreases |s|
  {
    if s == [] then []
    else if s[0] == 'A' && DigitRun(s[1..]) > 0 then
      var n := DigitRun(s[1..]);
      "p" + s[1..1 + n] + RenameVars(s[1 + n..])
    else [s[0]] + RenameVars(s[1..])
  }

  /** What position i of s becomes: 'p' for an 'A' followed by a digit, itself otherwise. */
  function RenamedAt(s: string, i: nat): char
    requires i < |s|
  {
    if s[i] == 'A' && i + 1 < |s| && IsDigit(s[i + 1]) then 'p' else s[i]
  }

  /** Every 'A' followed by a digit becomes 'p', and no other character changes. */
  lemma {:induction false} RenameVarsAt(s: string)
    ensures forall i :: 0 <= i < |s| ==> RenameVars(s)[i] == RenamedAt(s, i)
    decreases |s|
  {
    var r := RenameVars(s);
    if s == [] {
    } else if s[0] == 'A' && DigitRun(s[1..]) > 0 {
      var n := DigitRun(s[1..]);
      var t := s[1 + n..];
      RenameVarsAt(t);
      assert r == "p" + s[1..1 + n] + RenameVars(t);
      forall i | 0 <= i < |s|
        ensures r[i] == RenamedAt(s, i)
      {
        if i == 0 {
          assert s[1] == s[1..][..n][0];
        } else if i <= n {
          assert r[i] == s[i] && s[i] == s[1..][..n][i - 1];
        } else {
          assert r[i] == RenameVars(t)[i - 1 - n] && t[i - 1 - n] == s[i];
          if i + 1 < |s| {
            assert t[i - n] == s[i + 1];
          }
        }
      }
    } else {
      var t := s[1..];
      RenameVarsAt(t);
      forall i | 0 <= i < |s|
        ensures r[i] == RenamedAt(s, i)
      {
        if i == 0 {
          if |s| > 1 {
            assert t[0] == s[1];
          }
        } else {
          assert r[i] == RenameVars(t)[i - 1] && t[i - 1] == s[i];
          if i + 1 < |s| {
            assert t[i] == s[i + 1];
          }
        }
      }
    }
  }

  /** After renaming, no 'A' is followed by a digit. */
  lemma {:induction false} NoVariableLeft(s: string)
    ensures forall i :: 0 <= i < |s| - 1 ==> !(RenameVars(s)[i] == 'A' && IsDigit(RenameVars(s)[i + 1]))
  {
    RenameVarsAt(s);
  }

  /** Renaming changes no character other than an 'A'. */
  lemma {:induction false} RenameKeepsAbsent(s: string, x: char)
    requires x !in s && x != 'p'
    ensures x !in RenameVars(s)
  {
    RenameVarsAt(s);
  }

  // ---------------------------------------------------------------------------
  // Box operators

  /** The index of the first ')' in s, or |s| when there is none. */
  function CloseAt(s: string): (k: nat)
    ensures k <= |s| && ')' !in s[..k] && (k < |s| ==> s[k] == ')')
  {
    if s == [] || s[0] == ')' then 0
    else
      var k := 1 + CloseAt(s[1..]);
      assert s[..k] == [s[0]] + s[1..][..k - 1];
      k
  }

  /**
    A match of `□(\d+)\(([^)]+)\)` at the start of s: the agent's digits, the text inside the
    parentheses and what follows the match. The digits are the whole run (a shorter run would be
    followed by a digit, not '('), and the inside ends at the first ')'.
   */
  function BoxAt(s: string): (r: Option<(string, string, string)>)
    ensures r.Some? ==> var (agent, inner, rest) := r.value;
      && s == [BoxGlyph] + agent + "(" + inner + ")" + rest
      && |agent| > 0 && AllDigits(agent) && |inner| > 0 && ')' !in inner
  {
    if s == [] || s[0] != BoxGlyph then None
    else
      var n := DigitRun(s[1..]);
      if n == 0 || 1 + n >= |s| || s[1 + n] != '(' then None
      else
        var k := CloseAt(s[2 + n..]);
        if k == 0 || k == |s| - (2 + n) then None
        else
          var agent, inner, rest := s[1..1 + n], s[2 + n..2 + n + k], s[3 + n + k..];
          assert agent == s[1..][..n] && inner == s[2 + n..][..k];
          assert s == [BoxGlyph] + agent + "(" + inner + ")" + rest;
          Some((agent, inner, rest))
  }

  /** Conversely, every text of that shape matches, with exactly those parts. */
  lemma {:induction false} BoxAtComplete(agent: string, inner: string, rest: string)
    requires |agent| > 0 && AllDigits(agent) && |inner| > 0 && ')' !in inner
    ensures BoxAt([BoxGlyph] + agent + "(" + inner + ")" + rest) == Some((agent, inner, rest))
  {
    var s := [BoxGlyph] + agent + "(" + inner + ")" + rest;
    var n := |agent|;
    assert s[1..] == agent + ("(" + inner + ")" + rest);
    DigitRunOf(agent, "(" + inner + ")" + rest);
    assert s[1 + n] == '(';
    assert s[2 + n..] == inner + (")" + rest);
    CloseAtOf(inner, ")" + rest);
    assert s[1..1 + n] == agent && s[2 + n..2 + n + |inner|] == inner && s[3 + n + |inner|..] == rest;
  }

  lemma {:induction false} CloseAtOf(inner: string, t: string)
    requires ')' !in inner && |t| > 0 && t[0] == ')'
    ensures CloseAt(inner + t) == |inner|
    decreases |inner|
  {
    if inner == [] {
      assert inner + t == t;
    } else {
      assert (inner + t)[0] == inner[0] && (inner + t)[1..] == inner[1..] + t;
      CloseAtOf(inner[1..], t);
    }
  }

  /** `replace_box`: the agent in brackets, a space, and the inside in parentheses. */
  function BoxText(agent: string, inner: string): string {
    "[" + agent + "] (" + inner + ")"
  }

  /** One `re.sub` pass of the box pattern: matches found left to right, without overlap. */
  function SubBoxes(s: string): string
    decreases |s|
  {
    if s == [] then []
    else match BoxAt(s)
      case Some((agent, inner, rest)) => BoxText(agent, inner) + SubBoxes(rest)
      case None => [s[0]] + SubBoxes(s[1..])
  }

  /** `re.search` of the box pattern: a match starts somewhere in s. */
  predicate HasBox(s: string)
    decreases |s|
  {
    s != [] && (BoxAt(s).Some? || HasBox(s[1..]))
  }

  function BoxCount(s: string): nat {
    Count(s, [BoxGlyph])
  }

  /** The box glyphs of a match: its own, plus those inside the parentheses. */
  lemma {:induction false} MatchCount(agent: string, inner: string, rest: string)
    requires AllDigits(agent)
    ensures BoxCount([BoxGlyph] + agent + "(" + inner + ")" + rest) == 1 + BoxCount(inner) + BoxCount(rest)
  {
    CountCharAbsent(agent, BoxGlyph);
    CountCharAbsent("(", BoxGlyph);
    CountCharAbsent(")", BoxGlyph);
    assert Count([BoxGlyph], [BoxGlyph]) == 1 + Count([], [BoxGlyph]);
    CountCharConcat([BoxGlyph] + agent + "(" + inner + ")", rest, BoxGlyph);
    CountCharConcat([BoxGlyph] + agent + "(" + inner, ")", BoxGlyph);
    CountCharConcat([BoxGlyph] + agent + "(", inner, BoxGlyph);
    CountCharConcat([BoxGlyph] + agent, "(", BoxGlyph);
    CountCharConcat([BoxGlyph], agent, BoxGlyph);
  }

  /** The box glyphs of a rewritten match: only those inside the parentheses. */
  lemma {:induction false} RewriteCount(agent: string, inner: string, rest: string)
    requires AllDigits(agent)
    ensures BoxCount(BoxText(agent, inner) + rest) == BoxCount(inner) + BoxCount(rest)
  {
    CountCharAbsent(agent, BoxGlyph);
    CountCharAbsent("[", BoxGlyph);
    CountCharAbsent("] (", BoxGlyph);
    CountCharAbsent(")", BoxGlyph);
    CountCharConcat(BoxText(agent, inner), rest, BoxGlyph);
    CountCharConcat("[" + agent + "] (" + inner, ")", BoxGlyph);
    CountCharConcat("[" + agent + "] (", inner, BoxGlyph);
    CountCharConcat("[" + agent, "] (", BoxGlyph);
    CountCharConcat("[", agent, BoxGlyph);
  }

  lemma {:induction false} CopyCount(c: char, s: string, t: string)
    requires BoxCount(t) <= BoxCount(s)
    ensures BoxCount([c] + t) <= BoxCount([c] + s)
    ensures BoxCount(t) < BoxCount(s) ==> BoxCount([c] + t) < BoxCount([c] + s)
  {
    CountCharConcat([c], s, BoxGlyph);
    CountCharConcat([c], t, BoxGlyph);
  }

  /** A pass never adds a box glyph, and removes one for every match (so at least one if there was a match). */
  lemma {:induction false} SubBoxesCount(s: string)
    ensures BoxCount(SubBoxes(s)) <= BoxCount(s)
    ensures HasBox(s) ==> BoxCount(SubBoxes(s)) < BoxCount(s)
    decreases |s|
  {
    if s != [] {
      match BoxAt(s)
      case Some((agent, inner, rest)) =>
        SubBoxesCount(rest);
        MatchCount(agent, inner, rest);
        RewriteCount(agent, inner, SubBoxes(rest));
      case None =>
        SubBoxesCount(s[1..]);
        assert s == [s[0]] + s[1..];
        CopyCount(s[0], s[1..], SubBoxes(s[1..]));
    }
  }

  /** The while loop as a function: passes until no match is left. */
  function Boxes(s: string): (r: string)
    ensures !HasBox(r)
    decreases BoxCount(s)
  {
    if HasBox(s) then
      SubBoxesCount(s);
      Boxes(SubBoxes(s))
    else s
  }

  /** A character outside the box rewriting's own brackets, space and parentheses is never introduced. */
  lemma {:induction false} SubBoxesKeepsAbsent(s: string, x: char)
    requires x !in s && x !in "[] ()"
    ensures x !in SubBoxes(s)
    decreases |s|
  {
    if s != [] {
      match BoxAt(s)
      case Some((agent, inner, rest)) =>
        assert x !in agent && x !in inner && x !in rest by {
          assert s == [BoxGlyph] + agent + "(" + inner + ")" + rest;
        }
        SubBoxesKeepsAbsent(rest, x);
      case None =>
        SubBoxesKeepsAbsent(s[1..], x);
    }
  }

  lemma {:induction false} BoxesKeepsAbsent(s: string, x: char)
    requires x !in s && x !in "[] ()"
    ensures x !in Boxes(s)
    decreases BoxCount(s)
  {
    if HasBox(s) {
      SubBoxesCount(s);
      SubBoxesKeepsAbsent(s, x);
      BoxesKeepsAbsent(SubBoxes(s), x);
    }
  }

  /** One box whose inside has no ')' is rewritten in a single pass. */
  lemma {:induction false} OneBox(agent: string, inner: string)
    requires |agent| > 0 && AllDigits(agent) && |inner| > 0 && ')' !in inner
    ensures SubBoxes([BoxGlyph] + agent + "(" + inner + ")") == BoxText(agent, inner)
  {
    var s := [BoxGlyph] + agent + "(" + inner + ")";
    BoxAtComplete(agent, inner, []);
    assert s + [] == s;
    assert BoxText(agent, inner) + [] == BoxText(agent, inner);
  }

  // ---------------------------------------------------------------------------
  // convert_to_intohylo

  /** The converted text: strip, replace the glyphs, rename variables, rewrite boxes until none is left. */
  function IntoHylo(formula: string): string {
    Boxes(RenameVars(Glyphs(Strip(formula))))
  }

  /** No connective glyph, no 'v' and no box match survives the conversion. */
  lemma {:induction false} IntoHyloClean(formula: string)
    ensures var r := IntoHylo(formula);
      NegGlyph !in r && AndGlyph !in r && OrGlyph !in r && 'v' !in r && !HasBox(r)
  {
    var g := Glyphs(Strip(formula));
    GlyphsGone(Strip(formula));
    RenameKeepsAbsent(g, NegGlyph);
    RenameKeepsAbsent(g, AndGlyph);
    RenameKeepsAbsent(g, OrGlyph);
    RenameKeepsAbsent(g, 'v');
    BoxesKeepsAbsent(RenameVars(g), NegGlyph);
    BoxesKeepsAbsent(RenameVars(g), AndGlyph);
    BoxesKeepsAbsent(RenameVars(g), OrGlyph);
    BoxesKeepsAbsent(RenameVars(g), 'v');
  }

  /** `convert_to_intohylo`: the formula rebound step by step, then the box loop. */
  method ConvertToIntoHylo(formula: string) returns (r: string)
    ensures r == IntoHylo(formula)
    ensures !HasBox(r)
  {
    r := Strip(formula);
    r := ReplaceAll(r, [NegGlyph], "~");
    r := ReplaceAll(r, [AndGlyph], "&");
    r := ReplaceAll(r, [OrGlyph], "|");
    r := ReplaceAll(r, "v", "|");
    r := RenameVars(r);
    ghost var renamed := r;
    while HasBox(r)
      invariant Boxes(r) == Boxes(renamed)
      decreases BoxCount(r)
    {
      SubBoxesCount(r);
      r := SubBoxes(r);
    }
  }

  // ---------------------------------------------------------------------------
  // convert_multiline_formula

  /** Spaces only between words, one at a time, none at either end. */
  predicate SingleSpaced(s: string) {
    && (forall i :: 0 <= i < |s| && IsSpace(s[i]) ==> s[i] == ' ' && 0 < i < |s| - 1 && !IsSpace(s[i + 1]))
    && (s == [] || !IsSpace(s[0]))
  }

  lemma {:induction false} JoinSingleSpaced(ws: seq<string>)
    requires forall i :: 0 <= i < |ws| ==> ws[i] != [] && NoSpace(ws[i])
    ensures SingleSpaced(Join(" ", ws))
    decreases |ws|
  {
    if |ws| > 1 {
      JoinSingleSpaced(ws[1..]);
      var tail := Join(" ", ws[1..]);
      var s := ws[0] + " " + tail;
      assert Join(" ", ws) == s;
      assert |tail| > 0 by {
        assert ws[1..][0] == ws[1];
        if |ws[1..]| > 1 {
          assert tail == ws[1] + " " + Join(" ", ws[1..][1..]);
        }
      }
      forall i | 0 <= i < |s| && IsSpace(s[i])
        ensures s[i] == ' ' && 0 < i < |s| - 1 && !IsSpace(s[i + 1])
      {
        if i > |ws[0]| {
          assert s[i] == tail[i - |ws[0]| - 1];
        }
      }
    }
  }

  /** `' '.join(text.split())`: whitespace runs collapsed to single spaces. */
  function Collapse(text: string): (r: string)
    ensures SingleSpaced(r)
  {
    JoinSingleSpaced(Words(text));
    Join(" ", Words(text))
  }

  /** The text handed to the conversion: collapsed, then trailing ∧ removed, then trailing &, then stripped. */
  function CleanMultiline(text: string): string {
    Strip(RStrip(RStrip(Collapse(text), c => c == AndGlyph), c => c == '&'))
  }

  /** A prefix of single-spaced text that does not end in a space is single spaced. */
  lemma {:induction false} PrefixSingleSpaced(c: string, r: string)
    requires SingleSpaced(c) && r <= c && (r == [] || !IsSpace(r[|r| - 1]))
    ensures SingleSpaced(r)
  {
    forall i | 0 <= i < |r| && IsSpace(r[i])
      ensures r[i] == ' ' && 0 < i < |r| - 1 && !IsSpace(r[i + 1])
    {
      assert r[i] == c[i] && r[i + 1] == c[i + 1];
    }
  }

  lemma {:induction false} LStripNoop(b: string)
    requires b == [] || !IsSpace(b[0])
    ensures LStrip(b, IsSpace) == b
  {
  }

  /** Stripping a prefix of single-spaced text drops only trailing spaces, and what is left is single spaced. */
  lemma {:induction false} StripPrefix(c: string, b: string)
    requires SingleSpaced(c) && b <= c
    ensures Strip(b) <= b && (forall i :: |Strip(b)| <= i < |b| ==> b[i] == ' ')
    ensures SingleSpaced(Strip(b))
  {
    if b != [] {
      assert b[0] == c[0];
    }
    LStripNoop(b);
    var r := RStrip(b, IsSpace);
    RStripFacts(b, IsSpace);
    assert Strip(b) == r;
    forall i | |r| <= i < |b|
      ensures b[i] == ' '
    {
      assert IsSpace(b[i]) && b[i] == c[i];
    }
    PrefixSingleSpaced(c, r);
  }

  /**
    The cleaned text is the collapsed text with only ∧, & and spaces dropped from its end, and it
    is still single spaced.
   */
  lemma {:induction false} CleanMultilineShape(text: string)
    ensures var c, r := Collapse(text), CleanMultiline(text);
      && r <= c
      && (forall i :: |r| <= i < |c| ==> c[i] == AndGlyph || c[i] == '&' || c[i] == ' ')
      && SingleSpaced(r)
  {
    var c := Collapse(text);
    var a := RStrip(c, c => c == AndGlyph);
    var b := RStrip(a, c => c == '&');
    RStripFacts(c, c => c == AndGlyph);
    RStripFacts(a, c => c == '&');
    StripPrefix(c, b);
    var r := Strip(b);
    forall i | |r| <= i < |c|
      ensures c[i] == AndGlyph || c[i] == '&' || c[i] == ' '
    {
      if i < |b| {
        assert b[i] == ' ' && b[i] == c[i];
      } else if i < |a| {
        assert a[i] == c[i];
      }
    }
  }

  /** `convert_multiline_formula`. */
  method ConvertMultilineFormula(text: string) returns (r: string)
    ensures r == IntoHylo(CleanMultiline(text))
  {
    var formula := Join(" ", Words(text));
    formula := Strip(RStrip(RStrip(formula, c => c == AndGlyph), c => c == '&'));
    r := ConvertToIntoHylo(formula);
  }

  // ---------------------------------------------------------------------------
  // convert_multiple_formulas

  /** A line ending in a connective continues onto the next line. */
  predicate Continues(line: string) {
    EndsWith(line, [AndGlyph]) || EndsWith(line, "&") || EndsWith(line, [OrGlyph]) || EndsWith(line, "|")
  }

  /** A line starting with '(', ¬ or ~ continues a formula already begun. */
  predicate Resumes(line: string) {
    |line| > 0 && (line[0] == '(' || line[0] == NegGlyph || line[0] == '~')
  }

  /** The formula being collected, if one has begun. */
  function Flushed(current: seq<string>): seq<string> {
    if current == [] then [] else [Join(" ", current)]
  }

  /** Each line stripped, as the loop does first. */
  function StripAll(lines: seq<string>): (r: seq<string>)
    ensures |r| == |lines|
    ensures forall k :: 0 <= k < |lines| ==> r[k] == Strip(lines[k])
  {
    seq(|lines|, k requires 0 <= k < |lines| => Strip(lines[k]))
  }

  /**
    The grouping loop as a function over the stripped lines: the formulas of `lines`, given the
    lines of a formula already begun.
   */
  function Group(lines: seq<string>, current: seq<string>): seq<string>
    decreases |lines|
  {
    if lines == [] then Flushed(current)
    else
      var line := lines[0];
      if line == [] then Flushed(current) + Group(lines[1..], [])
      else if Continues(line) || (current != [] && Resumes(line)) then Group(lines[1..], current + [line])
      else Flushed(current) + Group(lines[1..], [line])
  }

  /** The lines that are not blank. */
  function Kept(lines: seq<string>): seq<string> {
    if lines == [] then []
    else if lines[0] == [] then Kept(lines[1..])
    else [lines[0]] + Kept(lines[1..])
  }

  lemma {:induction false} GroupsEmpty(lines: seq<string>, current: seq<string>)
    ensures Group(lines, current) == [] <==> current == [] && Kept(lines) == []
    decreases |lines|
  {
    if lines != [] {
      var line := lines[0];
      if line == [] {
        GroupsEmpty(lines[1..], []);
      } else if Continues(line) || (current != [] && Resumes(line)) {
        GroupsEmpty(lines[1..], current + [line]);
      } else {
        GroupsEmpty(lines[1..], [line]);
      }
    }
  }

  /** Grouping neither loses, reorders nor adds text: the groups joined by spaces are the kept lines joined by spaces. */
  lemma {:induction false} GroupsCover(lines: seq<string>, current: seq<string>)
    ensures Join(" ", Group(lines, current)) == Join(" ", current + Kept(lines))
    decreases |lines|
  {
    if lines == [] {
      assert current + [] == current;
    } else {
      var line, rest := lines[0], lines[1..];
      if line == [] {
        assert Group(lines, current) == Flushed(current) + Group(rest, []);
        assert Kept(lines) == Kept(rest);
        assert Join(" ", Group(rest, [])) == Join(" ", [] + Kept(rest)) by { GroupsCover(rest, []); }
        CloseGroup(current, rest, []);
        assert [] + Kept(rest) == Kept(rest);
      } else if Continues(line) || (current != [] && Resumes(line)) {
        assert Group(lines, current) == Group(rest, current + [line]);
        assert Kept(lines) == [line] + Kept(rest);
        GroupsCover(rest, current + [line]);
        AppendAssoc(current, [line], Kept(rest));
      } else {
        assert Group(lines, current) == Flushed(current) + Group(rest, [line]);
        assert Kept(lines) == [line] + Kept(rest);
        GroupsCover(rest, [line]);
        CloseGroup(current, rest, [line]);
      }
    }
  }

  /** Closing the group `current` before the groups of `rest`, which start from `next`. */
  lemma {:induction false} CloseGroup(current: seq<string>, rest: seq<string>, next: seq<string>)
    requires Join(" ", Group(rest, next)) == Join(" ", next + Kept(rest))
    ensures Join(" ", Flushed(current) + Group(rest, next)) == Join(" ", current + (next + Kept(rest)))
  {
    var g := Group(rest, next);
    if current == [] {
      assert Flushed(current) + g == g;
      assert current + (next + Kept(rest)) == next + Kept(rest);
    } else if g == [] {
      GroupsEmpty(rest, next);
      assert Flushed(current) + g == [Join(" ", current)];
      assert current + (next + Kept(rest)) == current;
    } else {
      GroupsEmpty(rest, next);
      JoinConcat(" ", [Join(" ", current)], g);
      JoinConcat(" ", current, next + Kept(rest));
    }
  }

  lemma {:induction false} JoinNonEmpty(xs: seq<string>)
    requires |xs| > 0 && xs[0] != []
    ensures Join(" ", xs) != []
  {
    if |xs| > 1 {
      assert Join(" ", xs) == xs[0] + " " + Join(" ", xs[1..]);
    }
  }

  /** Every group holds some text when every line collected so far does. */
  lemma {:induction false} GroupsNonEmpty(lines: seq<string>, current: seq<string>)
    requires forall i :: 0 <= i < |current| ==> current[i] != []
    ensures forall i :: 0 <= i < |Group(lines, current)| ==> Group(lines, current)[i] != []
    decreases |lines|
  {
    if current != [] {
      JoinNonEmpty(current);
    }
    if lines != [] {
      var line := lines[0];
      if line == [] {
        GroupsNonEmpty(lines[1..], []);
      } else if Continues(line) || (current != [] && Resumes(line)) {
        GroupsNonEmpty(lines[1..], current + [line]);
      } else {
        GroupsNonEmpty(lines[1..], [line]);
      }
    }
  }

  /** `[f.strip() for f in pieces if f.strip()]`. */
  function KeptPieces(pieces: seq<string>): (r: seq<string>)
    ensures |r| <= |pieces|
    ensures forall i :: 0 <= i < |r| ==> r[i] != []
  {
    if pieces == [] then []
    else if Strip(pieces[0]) == [] then KeptPieces(pieces[1..])
    else [Strip(pieces[0])] + KeptPieces(pieces[1..])
  }

  /** The groups of the text's lines. */
  function Groups(text: string): seq<string> {
    Group(StripAll(Split(Strip(text), "\n")), [])
  }

  /** The formulas before conversion: the groups, or the ';' pieces when there is one group and a ';'. */
  function Formulas(text: string): seq<string> {
    if |Groups(text)| == 1 && ';' in text then KeptPieces(Split(text, ";")) else Groups(text)
  }

  /** The final loop: every nonempty formula, converted. */
  function ConvertAll(formulas: seq<string>): seq<string> {
    if formulas == [] then []
    else (if formulas[0] == [] then [] else [IntoHylo(formulas[0])]) + ConvertAll(formulas[1..])
  }

  lemma {:induction false} ConvertAllSnoc(formulas: seq<string>, f: string)
    ensures ConvertAll(formulas + [f]) == ConvertAll(formulas) + (if f == [] then [] else [IntoHylo(f)])
    decreases |formulas|
  {
    var last := if f == [] then [] else [IntoHylo(f)];
    if formulas == [] {
      assert [] + [f] == [f];
      assert ConvertAll([f]) == last + [];
    } else {
      var first := if formulas[0] == [] then [] else [IntoHylo(formulas[0])];
      SnocTail(formulas, f);
      ConvertAllSnoc(formulas[1..], f);
      AppendAssoc(first, ConvertAll(formulas[1..]), last);
    }
  }

  /** No formula is dropped by the final filter: one converted entry per formula, in order. */
  lemma {:induction false} ConvertAllNonEmpty(formulas: seq<string>)
    requires forall i :: 0 <= i < |formulas| ==> formulas[i] != []
    ensures |ConvertAll(formulas)| == |formulas|
    ensures forall i :: 0 <= i < |formulas| ==> ConvertAll(formulas)[i] == IntoHylo(formulas[i])
    decreases |formulas|
  {
    if formulas != [] {
      var rest := ConvertAll(formulas[1..]);
      ConvertAllNonEmpty(formulas[1..]);
      assert ConvertAll(formulas) == [IntoHylo(formulas[0])] + rest;
      forall i | 0 <= i < |formulas|
        ensures ConvertAll(formulas)[i] == IntoHylo(formulas[i])
      {
        if i > 0 {
          assert formulas[1..][i - 1] == formulas[i];
        }
      }
    }
  }

  /** Every formula `convert_multiple_formulas` produces is nonempty, so each yields one converted entry. */
  lemma {:induction false} FormulasNonEmpty(text: string)
    ensures forall i :: 0 <= i < |Formulas(text)| ==> Formulas(text)[i] != []
    ensures |ConvertAll(Formulas(text))| == |Formulas(text)|
  {
    GroupsNonEmpty(StripAll(Split(Strip(text), "\n")), []);
    ConvertAllNonEmpty(Formulas(text));
  }

  /** The formulas a line closes: the group begun so far, unless the line continues it. */
  function Emitted(current: seq<string>, line: string): seq<string> {
    if line != [] && (Continues(line) || (current != [] && Resumes(line))) then [] else Flushed(current)
  }

  /** The group begun after a line. */
  function Next(current: seq<string>, line: string): seq<string> {
    if line == [] then []
    else if Continues(line) || (current != [] && Resumes(line)) then current + [line]
    else [line]
  }

  /** One step of the grouping loop. */
  lemma {:induction false} GroupStep(lines: seq<string>, k: nat, current: seq<string>)
    requires k < |lines|
    ensures Group(lines[k..], current) == Emitted(current, lines[k]) + Group(lines[k + 1..], Next(current, lines[k]))
  {
    assert lines[k..][0] == lines[k] && lines[k..][1..] == lines[k + 1..];
    if Emitted(current, lines[k]) == [] {
      assert Emitted(current, lines[k]) + Group(lines[k + 1..], Next(current, lines[k])) == Group(lines[k + 1..], Next(current, lines[k]));
    }
  }

  /** The body of the grouping loop for one stripped line: the formulas it closes and the group after it. */
  method GroupLine(current: seq<string>, line: string) returns (emitted: seq<string>, next: seq<string>)
    ensures emitted == Emitted(current, line) && next == Next(current, line)
  {
    emitted, next := [], current;
    if line == [] {
      if current != [] {
        emitted := [Join(" ", current)];
        next := [];
      }
    } else if Continues(line) {
      next := current + [line];
    } else if current != [] && Resumes(line) {
      next := current + [line];
    } else {
      if current != [] {
        emitted := [Join(" ", current)];
        next := [];
      }
      next := next + [line];
    }
  }

  /** The grouping loop of `convert_multiple_formulas` over the lines of the text. */
  method GroupLines(lines: seq<string>) returns (formulas: seq<string>)
    ensures formulas == Group(StripAll(lines), [])
  {
    ghost var stripped := StripAll(lines);
    formulas := [];
    var current: seq<string> := [];
    assert stripped[0..] == stripped;
    for k := 0 to |lines|
      invariant formulas + Group(stripped[k..], current) == Group(stripped, [])
    {
      GroupStep(stripped, k, current);
      var emitted, next := GroupLine(current, Strip(lines[k]));
      AppendAssoc(formulas, emitted, Group(stripped[k + 1..], next));
      formulas, current := formulas + emitted, next;
    }
    assert stripped[|lines|..] == [];
    if current != [] {
      formulas := formulas + [Join(" ", current)];
    }
  }

  /** The conversion loop: each nonempty formula converted, in order. */
  method ConvertEach(formulas: seq<string>) returns (converted: seq<string>)
    ensures converted == ConvertAll(formulas)
  {
    converted := [];
    for i := 0 to |formulas|
      invariant converted == ConvertAll(formulas[..i])
    {
      TakeSnoc(formulas, i);
      ConvertAllSnoc(formulas[..i], formulas[i]);
      if formulas[i] != [] {
        var c := ConvertToIntoHylo(formulas[i]);
        converted := converted + [c];
      }
    }
    assert formulas[..|formulas|] == formulas;
  }

  /** `convert_multiple_formulas`: group the lines, maybe re-split on ';', convert each formula. */
  method ConvertMultipleFormulas(text: string) returns (converted: seq<string>)
    ensures converted == ConvertAll(Formulas(text))
    ensures |converted| == |Formulas(text)|
  {
    var lines := Split(Strip(text), "\n");
    var formulas := GroupLines(lines);
    if |formulas| == 1 && ';' in text {
      formulas := KeptPieces(Split(text, ";"));
    }
    converted := ConvertEach(formulas);
    FormulasNonEmpty(text);
  }
}
