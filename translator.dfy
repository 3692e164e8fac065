/**
  The prefix-notation translator: formulas such as `(AND (ALL R1 (NOT C1)) C2)` become
  InToHyLo infix text such as `([r1](~(p1)) & p2)`.

  The translator object keeps the token list and a cursor into it; `ParseExpression` and
  `ParseCompound` advance the cursor. Each is proved against a specification function over
  the remaining tokens (`Expr`, `Compound`, `Args`), and those functions are related to an
  abstract syntax of formulas by a round-trip lemma.
 */
module Translator {
  import opened Wrappers
  import opened Text

  /**
    The errors the parser raises; `IndexOutOfRange` is Python's IndexError on the token list or
    on `args[0]`.
   */
  datatype ParseError = UnexpectedEnd | ExpectedClose(got: string) | UnknownOperator(op: string) | IndexOutOfRange

  /** The ValueError of splitting text on an empty separator. */
  datatype SplitError = EmptySeparator

  // ---------------------------------------------------------------------------
  // Tokens

  predicate IsParen(c: char) {
    c == '(' || c == ')'
  }

  /** A token other than a parenthesis: nonempty, with no whitespace and no parenthesis. */
  predicate WordToken(t: string) {
    |t| > 0 && forall i :: 0 <= i < |t| ==> !IsSpace(t[i]) && !IsParen(t[i])
  }

  predicate WellFormedToken(t: string) {
    t == "(" || t == ")" || WordToken(t)
  }

  /** The pending word, as a token list of length 0 or 1. */
  function Flush(current: string): seq<string> {
    if current == [] then [] else [current]
  }

  /** The tokens of s, given that `current` holds the characters of a word already begun. */
  function LexFrom(s: string, current: string): (r: seq<string>)
    ensures (current == [] || WordToken(current)) ==> forall i :: 0 <= i < |r| ==> WellFormedToken(r[i])
    decreases |s|
  {
    if s == [] then Flush(current)
    else if IsParen(s[0]) then Flush(current) + [[s[0]]] + LexFrom(s[1..], [])
    else if IsSpace(s[0]) then Flush(current) + LexFrom(s[1..], [])
    else LexFrom(s[1..], current + [s[0]])
  }

  /** The tokens of s: parentheses on their own, words separated by whitespace. */
  function Lex(s: string): seq<string> {
    LexFrom(s, [])
  }

  /** s with every whitespace character removed. */
  function RemoveSpace(s: string): string {
    if s == [] then [] else (if IsSpace(s[0]) then [] else [s[0]]) + RemoveSpace(s[1..])
  }

  function Concat(ts: seq<string>): string {
    if ts == [] then [] else ts[0] + Concat(ts[1..])
  }

  lemma {:induction false} ConcatAppend(a: seq<string>, b: seq<string>)
    ensures Concat(a + b) == Concat(a) + Concat(b)
    decreases |a|
  {
    if a != [] {
      assert (a + b)[0] == a[0] && (a + b)[1..] == a[1..] + b;
      ConcatAppend(a[1..], b);
      calc {
        Concat(a + b);
        a[0] + Concat(a[1..] + b);
        a[0] + (Concat(a[1..]) + Concat(b));
        (a[0] + Concat(a[1..])) + Concat(b);
      }
    } else {
      assert a + b == b;
    }
  }

  /** Lexing loses only whitespace: the tokens concatenate to the input without its whitespace. */
  lemma {:induction false} LexConcat(s: string, current: string)
    ensures Concat(LexFrom(s, current)) == current + RemoveSpace(s)
    decreases |s|
  {
    if s == [] {
      ConcatFlush(current);
    } else if IsParen(s[0]) || IsSpace(s[0]) {
      LexConcat(s[1..], []);
      LexConcatBreak(s, current);
    } else {
      LexConcat(s[1..], current + [s[0]]);
      LexConcatWord(s, current);
    }
  }

  /** At a parenthesis or white space the pending word is emitted, and the parenthesis with it. */
  lemma {:induction false} LexConcatBreak(s: string, current: string)
    requires s != [] && (IsParen(s[0]) || IsSpace(s[0]))
    requires Concat(LexFrom(s[1..], [])) == [] + RemoveSpace(s[1..])
    ensures Concat(LexFrom(s, current)) == current + RemoveSpace(s)
  {
    var r := RemoveSpace(s[1..]);
    assert [] + r == r;
    if IsParen(s[0]) {
      ConcatAppend(Flush(current) + [[s[0]]], LexFrom(s[1..], []));
      ConcatFlushThen(current, [[s[0]]]);
      ConcatFlush([s[0]]);
      assert RemoveSpace(s) == [s[0]] + r;
      AppendAssoc(current, [s[0]], r);
    } else {
      ConcatFlushThen(current, LexFrom(s[1..], []));
      assert RemoveSpace(s) == [] + r;
    }
  }

  /** Any other character continues the pending word. */
  lemma {:induction false} LexConcatWord(s: string, current: string)
    requires s != [] && !IsParen(s[0]) && !IsSpace(s[0])
    requires Concat(LexFrom(s[1..], current + [s[0]])) == (current + [s[0]]) + RemoveSpace(s[1..])
    ensures Concat(LexFrom(s, current)) == current + RemoveSpace(s)
  {
    var r := RemoveSpace(s[1..]);
    assert LexFrom(s, current) == LexFrom(s[1..], current + [s[0]]);
    assert RemoveSpace(s) == [s[0]] + r;
    AppendAssoc(current, [s[0]], r);
  }

  lemma {:induction false} ConcatFlushThen(current: string, ts: seq<string>)
    ensures Concat(Flush(current) + ts) == current + Concat(ts)
  {
    ConcatAppend(Flush(current), ts);
    ConcatFlush(current);
  }

  lemma {:induction false} ConcatFlush(current: string)
    ensures Concat(Flush(current)) == current
  {
    if current != [] {
      assert Concat([current]) == current + Concat([]);
    }
  }

  lemma {:induction false} StripNoSpace(s: string)
    requires NoSpace(s)
    ensures Strip(s) == s
  {
  }

  /** A word followed by more text continues the word being lexed. */
  lemma {:induction false} LexWord(w: string, rest: string, current: string)
    requires forall i :: 0 <= i < |w| ==> !IsSpace(w[i]) && !IsParen(w[i])
    ensures LexFrom(w + rest, current) == LexFrom(rest, current + w)
    decreases |w|
  {
    if w != [] {
      assert (w + rest)[0] == w[0] && (w + rest)[1..] == w[1..] + rest;
      assert LexFrom(w + rest, current) == LexFrom(w[1..] + rest, current + [w[0]]);
      LexWord(w[1..], rest, current + [w[0]]);
      assert w == [w[0]] + w[1..];
      assert current + [w[0]] + w[1..] == current + w;
    } else {
      assert w + rest == rest && current + w == current;
    }
  }

  /** Lexing well-formed tokens joined by single spaces gives the tokens back. */
  lemma {:induction false} LexJoin(ts: seq<string>)
    requires forall i :: 0 <= i < |ts| ==> WellFormedToken(ts[i])
    ensures Lex(Join(" ", ts)) == ts
    decreases |ts|
  {
    if ts == [] {
    } else if |ts| == 1 {
      LexToken(ts[0], []);
      assert ts[0] + [] == ts[0];
    } else {
      var rest := " " + Join(" ", ts[1..]);
      assert Join(" ", ts) == ts[0] + rest;
      LexToken(ts[0], rest);
      assert rest[0] == ' ' && rest[1..] == Join(" ", ts[1..]);
      LexJoin(ts[1..]);
    }
  }

  /** One well-formed token followed by text that is empty or starts with a space. */
  lemma {:induction false} LexToken(t: string, rest: string)
    requires WellFormedToken(t) && (rest == [] || rest[0] == ' ')
    ensures LexFrom(t + rest, []) == [t] + (if rest == [] then [] else LexFrom(rest[1..], []))
  {
    if t == "(" || t == ")" {
      assert (t + rest)[0] == t[0] && (t + rest)[1..] == rest;
      if rest != [] {
        assert rest == [rest[0]] + rest[1..];
      }
    } else {
      LexWord(t, rest, []);
      assert [] + t == t;
    }
  }

  /** A space-joined list of well-formed tokens is unaffected by `strip`. */
  lemma {:induction false} JoinEnds(ts: seq<string>)
    requires |ts| > 0 && forall i :: 0 <= i < |ts| ==> WellFormedToken(ts[i])
    ensures var s := Join(" ", ts); |s| > 0 && !IsSpace(s[0]) && !IsSpace(s[|s| - 1])
    decreases |ts|
  {
    if |ts| > 1 {
      JoinEnds(ts[1..]);
      var s := Join(" ", ts);
      assert s == ts[0] + " " + Join(" ", ts[1..]);
      assert s[0] == ts[0][0];
      assert s[|s| - 1] == Join(" ", ts[1..])[|Join(" ", ts[1..])| - 1];
    }
  }

  lemma {:induction false} StripJoin(ts: seq<string>)
    requires forall i :: 0 <= i < |ts| ==> WellFormedToken(ts[i])
    ensures Strip(Join(" ", ts)) == Join(" ", ts)
  {
    var s := Join(" ", ts);
    assert s == [] || (!IsSpace(s[0]) && !IsSpace(s[|s| - 1])) by {
      if ts != [] {
        JoinEnds(ts);
      }
    }
    StripUnchanged(s);
  }

  // ---------------------------------------------------------------------------
  // The parser, as functions over the remaining tokens

  /** `args[0]` folded left with the separator: "((a & b) & c)". */
  function Fold(args: seq<string>, sep: string): string
    requires |args| >= 1
  {
    if |args| == 1 then args[0] else "(" + Fold(args[..|args| - 1], sep) + sep + args[|args| - 1] + ")"
  }

  /** The closing parenthesis that must follow a NOT or ALL body. */
  function Close(ts: seq<string>, s: string): (r: Result<(string, seq<string>), ParseError>)
    ensures r.Ok? ==> |r.value.1| < |ts|
  {
    if ts == [] then Err(IndexOutOfRange)
    else if ts[0] != ")" then Err(ExpectedClose(ts[0]))
    else Ok((s, ts[1..]))
  }

  /** `parse_expression`: the translation of the first expression and the tokens after it. */
  function Expr(ts: seq<string>): (r: Result<(string, seq<string>), ParseError>)
    ensures r.Ok? ==> |r.value.1| < |ts|
    decreases |ts|, 1
  {
    if ts == [] then Err(UnexpectedEnd)
    else if ts[0] == "(" then Compound(ts[1..])
    else Ok((ReplaceAll(ts[0], "C", "p"), ts[1..]))
  }

  /** `parse_compound`: the tokens after an opening parenthesis. */
  function Compound(ts: seq<string>): (r: Result<(string, seq<string>), ParseError>)
    ensures r.Ok? ==> |r.value.1| < |ts|
    decreases |ts|, 0
  {
    if ts == [] then Err(UnexpectedEnd)
    else
      var op, rest := ts[0], ts[1..];
      if op == "NOT" then
        match Expr(rest)
        case Err(e) => Err(e)
        case Ok((arg, after)) => Close(after, "~(" + arg + ")")
      else if op == "AND" || op == "OR" then
        match Args(rest)
        case Err(e) => Err(e)
        case Ok((args, after)) =>
          if |args| == 0 then Err(IndexOutOfRange)
          else Ok((Fold(args, if op == "AND" then " & " else " | "), after))
      else if op == "ALL" then
        if rest == [] then Err(IndexOutOfRange)
        else
          match Expr(rest[1..])
          case Err(e) => Err(e)
          case Ok((body, after)) => Close(after, "[" + Lower(rest[0]) + "](" + body + ")")
      else Err(UnknownOperator(op))
  }

  /** The AND/OR argument loop: expressions up to the closing parenthesis, which is consumed. */
  function Args(ts: seq<string>): (r: Result<(seq<string>, seq<string>), ParseError>)
    ensures r.Ok? ==> |r.value.1| < |ts|
    decreases |ts|, 2
  {
    if ts == [] then Err(IndexOutOfRange)
    else if ts[0] == ")" then Ok(([], ts[1..]))
    else
      match Expr(ts)
      case Err(e) => Err(e)
      case Ok((a, after)) =>
        match Args(after)
        case Err(e) => Err(e)
        case Ok((more, last)) => Ok(([a] + more, last))
  }

  /** The text of a parse, dropping the remaining tokens. */
  function TextOf(r: Result<(string, seq<string>), ParseError>): Result<string, ParseError> {
    match r
    case Ok((s, _)) => Ok(s)
    case Err(e) => Err(e)
  }

  /** Arguments already collected, followed by the arguments the loop still collects. */
  function Prepend(args: seq<string>, r: Result<(seq<string>, seq<string>), ParseError>): Result<(seq<string>, seq<string>), ParseError> {
    match r
    case Ok((more, last)) => Ok((args + more, last))
    case Err(e) => Err(e)
  }

  lemma {:induction false} PrependEmpty(r: Result<(seq<string>, seq<string>), ParseError>)
    ensures Prepend([], r) == r
  {
    if r.Ok? {
      assert [] + r.value.0 == r.value.0;
    }
  }

  lemma {:induction false} PrependTwice(args: seq<string>, a: string, r: Result<(seq<string>, seq<string>), ParseError>)
    ensures Prepend(args, Prepend([a], r)) == Prepend(args + [a], r)
  {
    if r.Ok? {
      assert args + ([a] + r.value.0) == args + [a] + r.value.0;
    }
  }

  /** One turn of the argument loop: an expression, then the arguments after it. */
  lemma {:induction false} ArgsStep(ts: seq<string>)
    requires ts != [] && ts[0] != ")"
    ensures Expr(ts).Err? ==> Args(ts) == Err(Expr(ts).error)
    ensures Expr(ts).Ok? ==> Args(ts) == Prepend([Expr(ts).value.0], Args(Expr(ts).value.1))
  {
  }

  /** The argument loop's invariant survives one more expression, or the expression's error is the result. */
  lemma {:induction false} ArgsLoopStep(whole: seq<string>, here: seq<string>, args: seq<string>, a: Result<string, ParseError>, after: seq<string>)
    requires here != [] && here[0] != ")"
    requires Args(whole) == Prepend(args, Args(here))
    requires a == TextOf(Expr(here)) && (a.Ok? ==> after == Expr(here).value.1)
    ensures a.Err? ==> Args(whole) == Err(a.error)
    ensures a.Ok? ==> Args(whole) == Prepend(args + [a.value], Args(after))
  {
    ArgsStep(here);
    if a.Ok? {
      PrependTwice(args, a.value, Args(after));
    }
  }

  /** One step of the lexer loop: the tokens so far plus the tokens of the rest are unchanged. */
  lemma {:induction false} LexStep(s: string, k: nat, ts: seq<string>, current: string)
    requires k < |s|
    ensures IsParen(s[k]) ==> ts + LexFrom(s[k..], current) == ts + Flush(current) + [[s[k]]] + LexFrom(s[k + 1..], [])
    ensures !IsParen(s[k]) && IsSpace(s[k]) ==> ts + LexFrom(s[k..], current) == ts + Flush(current) + LexFrom(s[k + 1..], [])
    ensures !IsParen(s[k]) && !IsSpace(s[k]) ==> LexFrom(s[k..], current) == LexFrom(s[k + 1..], current + [s[k]])
  {
    assert s[k..][0] == s[k] && s[k..][1..] == s[k + 1..];
  }

  // ---------------------------------------------------------------------------
  // An abstract syntax of the accepted formulas, and the round trip through it

  /** The prefix formulas: atoms, `(NOT x)`, `(AND x ...)`, `(OR x ...)` and `(ALL R x)`. */
  datatype Term = Atom(name: string) | Not(arg: Term) | And(args: seq<Term>) | Or(args: seq<Term>) | All(relation: string, body: Term)

  /** Atoms and relations are single words, and AND/OR have at least one argument. */
  predicate WellFormed(t: Term)
    decreases t
  {
    match t
    case Atom(n) => WordToken(n)
    case Not(a) => WellFormed(a)
    case And(args) => |args| >= 1 && forall i :: 0 <= i < |args| ==> WellFormed(args[i])
    case Or(args) => |args| >= 1 && forall i :: 0 <= i < |args| ==> WellFormed(args[i])
    case All(r, b) => WordToken(r) && WellFormed(b)
  }

  /** The token list of a formula in prefix notation. */
  function Tokens(t: Term): seq<string>
    decreases t, 1
  {
    match t
    case Atom(n) => [n]
    case Not(a) => ["(", "NOT"] + Tokens(a) + [")"]
    case And(args) => ["(", "AND"] + ArgTokens(args) + [")"]
    case Or(args) => ["(", "OR"] + ArgTokens(args) + [")"]
    case All(r, b) => ["(", "ALL", r] + Tokens(b) + [")"]
  }

  function ArgTokens(args: seq<Term>): seq<string>
    decreases args, 0
  {
    if args == [] then [] else Tokens(args[0]) + ArgTokens(args[1..])
  }

  /** The InToHyLo text of a formula, defined on the syntax rather than on tokens. */
  function Show(t: Term): string
    decreases t, 1
  {
    match t
    case Atom(n) => ReplaceAll(n, "C", "p")
    case Not(a) => "~(" + Show(a) + ")"
    case And(args) => if args == [] then "" else Fold(ShowArgs(args), " & ")
    case Or(args) => if args == [] then "" else Fold(ShowArgs(args), " | ")
    case All(r, b) => "[" + Lower(r) + "](" + Show(b) + ")"
  }

  function ShowArgs(args: seq<Term>): (r: seq<string>)
    ensures |r| == |args|
    decreases args, 0
  {
    if args == [] then [] else [Show(args[0])] + ShowArgs(args[1..])
  }

  lemma {:induction false} TokensNotEmpty(t: Term)
    requires WellFormed(t)
    ensures |Tokens(t)| > 0 && Tokens(t)[0] != ")" && (Tokens(t)[0] == "(" <==> !t.Atom?)
  {
    match t
    case Atom(n) =>
      assert !IsParen(n[0]) && "("[0] == '(' && ")"[0] == ')';
    case Not(_) =>
    case And(_) =>
    case Or(_) =>
    case All(_, _) =>
  }

  /** One unfolding of the parser on `(NOT ...`. */
  lemma {:induction false} NotStep(xs: seq<string>)
    ensures Expr(["(", "NOT"] + xs) == match Expr(xs)
      case Err(e) => Err(e)
      case Ok((arg, after)) => Close(after, "~(" + arg + ")")
  {
    assert (["(", "NOT"] + xs)[1..] == ["NOT"] + xs && (["NOT"] + xs)[1..] == xs;
  }

  /** One unfolding of the parser on `(AND ...` and `(OR ...`. */
  lemma {:induction false} ConnectiveStep(op: string, xs: seq<string>)
    requires op == "AND" || op == "OR"
    ensures Expr(["(", op] + xs) == match Args(xs)
      case Err(e) => Err(e)
      case Ok((args, after)) =>
        if |args| == 0 then Err(IndexOutOfRange) else Ok((Fold(args, if op == "AND" then " & " else " | "), after))
  {
    assert (["(", op] + xs)[1..] == [op] + xs && ([op] + xs)[1..] == xs;
  }

  /** One unfolding of the parser on `(ALL R ...`. */
  lemma {:induction false} AllStep(r: string, xs: seq<string>)
    ensures Expr(["(", "ALL", r] + xs) == match Expr(xs)
      case Err(e) => Err(e)
      case Ok((body, after)) => Close(after, "[" + Lower(r) + "](" + body + ")")
  {
    var ts := ["(", "ALL", r] + xs;
    assert ts[1..] == ["ALL", r] + xs && ts[1..][1..] == [r] + xs && ([r] + xs)[1..] == xs;
  }

  lemma {:induction false} CloseStep(s: string, rest: seq<string>)
    ensures Close([")"] + rest, s) == Ok((s, rest))
  {
    assert ([")"] + rest)[1..] == rest;
  }

  /** Parsing the tokens of a formula gives its text, and leaves exactly the tokens after it. */
  lemma {:induction false} ExprTokens(t: Term, rest: seq<string>)
    requires WellFormed(t)
    ensures Expr(Tokens(t) + rest) == Ok((Show(t), rest))
    decreases t, 1
  {
    match t
    case Atom(n) =>
      TokensNotEmpty(t);
      assert ([n] + rest)[0] == n && ([n] + rest)[1..] == rest;
    case Not(a) =>
      var inner := Tokens(a) + ([")"] + rest);
      assert Tokens(t) + rest == ["(", "NOT"] + inner;
      NotStep(inner);
      ExprTokens(a, [")"] + rest);
      CloseStep(Show(t), rest);
    case And(args) =>
      var inner := ArgTokens(args) + ([")"] + rest);
      assert Tokens(t) + rest == ["(", "AND"] + inner;
      ConnectiveStep("AND", inner);
      ArgsTokens(args, rest);
    case Or(args) =>
      var inner := ArgTokens(args) + ([")"] + rest);
      assert Tokens(t) + rest == ["(", "OR"] + inner;
      ConnectiveStep("OR", inner);
      ArgsTokens(args, rest);
    case All(r, b) =>
      var inner := Tokens(b) + ([")"] + rest);
      assert Tokens(t) + rest == ["(", "ALL", r] + inner;
      AllStep(r, inner);
      ExprTokens(b, [")"] + rest);
      CloseStep(Show(t), rest);
  }

  /** An argument list whose first expression parses, followed by a parsing argument list, parses. */
  lemma {:induction false} ArgsCons(head: seq<string>, tail: seq<string>, a: string, more: seq<string>, rest: seq<string>)
    requires |head| > 0 && head[0] != ")"
    requires Expr(head + tail) == Ok((a, tail))
    requires Args(tail) == Ok((more, rest))
    ensures Args(head + tail) == Ok(([a] + more, rest))
  {
    assert (head + tail)[0] == head[0];
  }

  lemma {:induction false} ArgsTokens(args: seq<Term>, rest: seq<string>)
    requires forall i :: 0 <= i < |args| ==> WellFormed(args[i])
    ensures Args(ArgTokens(args) + ([")"] + rest)) == Ok((ShowArgs(args), rest))
    decreases args, 0
  {
    if args == [] {
      assert ArgTokens(args) + ([")"] + rest) == [")"] + rest;
    } else {
      var head, tail := Tokens(args[0]), ArgTokens(args[1..]) + ([")"] + rest);
      assert ArgTokens(args) + ([")"] + rest) == head + tail;
      assert |head| > 0 && head[0] != ")" && Expr(head + tail) == Ok((Show(args[0]), tail)) by {
        assert WellFormed(args[0]);
        TokensNotEmpty(args[0]);
        ExprTokens(args[0], tail);
      }
      assert Args(tail) == Ok((ShowArgs(args[1..]), rest)) by {
        assert forall i :: 0 <= i < |args[1..]| ==> WellFormed(args[1..][i]);
        ArgsTokens(args[1..], rest);
      }
      ArgsCons(head, tail, Show(args[0]), ShowArgs(args[1..]), rest);
    }
  }

  /** Every token of a formula is well formed, so the formula survives lexing. */
  lemma {:induction false} TokensWellFormed(t: Term)
    requires WellFormed(t)
    ensures forall i :: 0 <= i < |Tokens(t)| ==> WellFormedToken(Tokens(t)[i])
    decreases t, 1
  {
    match t
    case Atom(n) =>
    case Not(a) =>
      TokensWellFormed(a);
    case And(args) =>
      ArgTokensWellFormed(args);
    case Or(args) =>
      ArgTokensWellFormed(args);
    case All(r, b) =>
      TokensWellFormed(b);
  }

  lemma {:induction false} ArgTokensWellFormed(args: seq<Term>)
    requires forall i :: 0 <= i < |args| ==> WellFormed(args[i])
    ensures forall i :: 0 <= i < |ArgTokens(args)| ==> WellFormedToken(ArgTokens(args)[i])
    decreases args, 0
  {
    if args != [] {
      assert WellFormed(args[0]);
      TokensWellFormed(args[0]);
      ArgTokensWellFormed(args[1..]);
    }
  }

  /** Writing a formula out with single spaces and translating it gives its InToHyLo text. */
  lemma {:induction false} TranslateRoundTrip(t: Term)
    requires WellFormed(t)
    ensures TextOf(Expr(Lex(Strip(Join(" ", Tokens(t)))))) == Ok(Show(t))
  {
    TokensWellFormed(t);
    StripJoin(Tokens(t));
    LexJoin(Tokens(t));
    ExprTokens(t, []);
    assert Tokens(t) + [] == Tokens(t);
  }

  /** Appending tokens after a complete expression changes only the tokens left over. */
  lemma {:induction false} ExprExtend(ts: seq<string>, more: seq<string>)
    requires Expr(ts).Ok?
    ensures Expr(ts + more) == Ok((Expr(ts).value.0, Expr(ts).value.1 + more))
    decreases |ts|, 1
  {
    assert (ts + more)[0] == ts[0] && (ts + more)[1..] == ts[1..] + more;
    if ts[0] == "(" {
      CompoundExtend(ts[1..], more);
    }
  }

  lemma {:induction false} CloseExtend(ts: seq<string>, s: string, more: seq<string>)
    requires Close(ts, s).Ok?
    ensures Close(ts + more, s) == Ok((s, Close(ts, s).value.1 + more))
  {
    assert (ts + more)[0] == ts[0] && (ts + more)[1..] == ts[1..] + more;
  }

  lemma {:induction false} CompoundExtend(ts: seq<string>, more: seq<string>)
    requires Compound(ts).Ok?
    ensures Compound(ts + more) == Ok((Compound(ts).value.0, Compound(ts).value.1 + more))
    decreases |ts|, 0
  {
    var op, rest := ts[0], ts[1..];
    assert (ts + more)[0] == op && (ts + more)[1..] == rest + more;
    if op == "NOT" {
      var after := Expr(rest).value.1;
      ExprExtend(rest, more);
      CloseExtend(after, "~(" + Expr(rest).value.0 + ")", more);
    } else if op == "AND" || op == "OR" {
      ArgsExtend(rest, more);
    } else if op == "ALL" {
      assert (rest + more)[0] == rest[0] && (rest + more)[1..] == rest[1..] + more;
      var after := Expr(rest[1..]).value.1;
      ExprExtend(rest[1..], more);
      CloseExtend(after, "[" + Lower(rest[0]) + "](" + Expr(rest[1..]).value.0 + ")", more);
    }
  }

  lemma {:induction false} ArgsExtend(ts: seq<string>, more: seq<string>)
    requires Args(ts).Ok?
    ensures Args(ts + more) == Ok((Args(ts).value.0, Args(ts).value.1 + more))
    decreases |ts|, 2
  {
    assert (ts + more)[0] == ts[0] && (ts + more)[1..] == ts[1..] + more;
    if ts[0] != ")" {
      var after := Expr(ts).value.1;
      ExprExtend(ts, more);
      ArgsExtend(after, more);
    }
  }

  /** No proper prefix of a formula's tokens parses: the parser needs the whole expression. */
  lemma {:induction false} TruncatedFails(t: Term, k: nat)
    requires WellFormed(t) && k < |Tokens(t)|
    ensures Expr(Tokens(t)[..k]).Err?
  {
    var p, q := Tokens(t)[..k], Tokens(t)[k..];
    if Expr(p).Ok? {
      ExprExtend(p, q);
      assert p + q == Tokens(t) + [];
      ExprTokens(t, []);
      assert false;
    }
  }

  /** A NOT body must be followed by ")": another token in its place raises. */
  lemma {:induction false} NotNeedsClose(a: Term, x: string, rest: seq<string>)
    requires WellFormed(a) && x != ")"
    ensures Expr(["(", "NOT"] + Tokens(a) + [x] + rest) == Err(ExpectedClose(x))
  {
    var tail := [x] + rest;
    assert ["(", "NOT"] + Tokens(a) + [x] + rest == ["(", "NOT"] + (Tokens(a) + tail);
    NotStep(Tokens(a) + tail);
    ExprTokens(a, tail);
    assert tail[0] == x;
  }

  /** A NOT body at the end of the tokens raises (the index of the missing ")" is out of range). */
  lemma {:induction false} NotAtEnd(a: Term)
    requires WellFormed(a)
    ensures Expr(["(", "NOT"] + Tokens(a)) == Err(IndexOutOfRange)
  {
    assert Tokens(a) + [] == Tokens(a);
    NotStep(Tokens(a));
    ExprTokens(a, []);
  }

  /** AND and OR with no argument raise (`args[0]` on an empty list). */
  lemma {:induction false} EmptyConnective(op: string, rest: seq<string>)
    requires op == "AND" || op == "OR"
    ensures Expr(["(", op, ")"] + rest) == Err(IndexOutOfRange)
  {
    assert ["(", op, ")"] + rest == ["(", op] + ([")"] + rest);
    ConnectiveStep(op, [")"] + rest);
    assert ([")"] + rest)[1..] == rest;
  }

  /** An operator other than NOT, AND, OR and ALL raises. */
  lemma {:induction false} UnknownOperatorRaises(op: string, rest: seq<string>)
    requires op != "NOT" && op != "AND" && op != "OR" && op != "ALL"
    ensures Expr(["(", op] + rest) == Err(UnknownOperator(op))
  {
    assert (["(", op] + rest)[1..] == [op] + rest;
  }

  /** Running out of tokens where an expression or an operator is expected. */
  lemma {:induction false} UnexpectedEndRaises()
    ensures Expr([]) == Err(UnexpectedEnd) && Expr(["("]) == Err(UnexpectedEnd)
  {
    assert ["("][1..] == [];
  }

  /** The translation of an atom has no 'C' left. */
  lemma {:induction false} AtomHasNoC(n: string)
    ensures 'C' !in Show(Atom(n))
  {
    ReplaceCharAbsent(n, 'C', "p", 'C');
  }

  /** One argument is returned as it is; two or more fold to the left. */
  lemma {:induction false} ConnectiveShapes(a: Term, b: Term, c: Term)
    ensures Show(And([a])) == Show(a)
    ensures Show(And([a, b])) == "(" + Show(a) + " & " + Show(b) + ")"
    ensures Show(And([a, b, c])) == "(" + Show(And([a, b])) + " & " + Show(c) + ")"
    ensures Show(Or([a, b])) == "(" + Show(a) + " | " + Show(b) + ")"
  {
    assert ShowArgs([c]) == [Show(c)] by {
      assert [c][1..] == [];
    }
    assert ShowArgs([b, c]) == [Show(b), Show(c)] by {
      assert [b, c][1..] == [c];
    }
    assert ShowArgs([a, b, c]) == [Show(a), Show(b), Show(c)] by {
      assert [a, b, c][1..] == [b, c];
    }
    assert ShowArgs([b]) == [Show(b)] by {
      assert [b][1..] == [];
    }
    assert ShowArgs([a, b]) == [Show(a), Show(b)] by {
      assert [a, b][1..] == [b];
    }
    assert ShowArgs([a]) == [Show(a)] by {
      assert [a][1..] == [];
    }
    assert [Show(a), Show(b), Show(c)][..2] == [Show(a), Show(b)];
    assert [Show(a), Show(b)][..1] == [Show(a)];
    assert Fold([Show(a), Show(b)], " & ") == "(" + Show(a) + " & " + Show(b) + ")";
    assert Fold([Show(a), Show(b)], " | ") == "(" + Show(a) + " | " + Show(b) + ")";
    assert Fold([Show(a), Show(b), Show(c)], " & ") == "(" + Fold([Show(a), Show(b)], " & ") + " & " + Show(c) + ")";
  }

  // ---------------------------------------------------------------------------
  // Several formulas in one text

  predicate IsNewline(c: char) {
    c == '\n'
  }

  /** Pieces stripped of newlines neither begin nor end with one. */
  lemma {:induction false} StrippedLines(pieces: seq<string>, lines: seq<string>)
    requires |lines| == |pieces|
    requires forall j :: 0 <= j < |lines| ==> lines[j] == StripBy(pieces[j], IsNewline)
    ensures forall i :: 0 <= i < |lines| ==> lines[i] == [] || (lines[i][0] != '\n' && lines[i][|lines[i]| - 1] != '\n')
  {
    forall i | 0 <= i < |lines|
      ensures lines[i] == [] || (lines[i][0] != '\n' && lines[i][|lines[i]| - 1] != '\n')
    {
      StripByEnds(pieces[i], IsNewline);
    }
  }

  /** `parse_multiple_formulas`: split on the separator, then strip newlines from both ends of each piece. */
  method ParseMultipleFormulas(text: string, separator: string) returns (r: Result<seq<string>, SplitError>)
    ensures separator == [] <==> r == Err(EmptySeparator)
    ensures r.Ok? ==> |r.value| == |Split(text, separator)| == Count(text, separator) + 1
    ensures r.Ok? ==> forall i :: 0 <= i < |r.value| ==> r.value[i] == StripBy(Split(text, separator)[i], IsNewline)
    ensures r.Ok? ==> forall i :: 0 <= i < |r.value| ==> r.value[i] == [] || (r.value[i][0] != '\n' && r.value[i][|r.value[i]| - 1] != '\n')
  {
    if separator == [] {
      return Err(EmptySeparator);
    }
    var pieces := Split(text, separator);
    SplitCount(text, separator);
    var lines := pieces;
    for i := 0 to |lines|
      invariant |lines| == |pieces|
      invariant forall j :: 0 <= j < |lines| ==> lines[j] == if j < i then StripBy(pieces[j], IsNewline) else pieces[j]
    {
      lines := lines[i := StripBy(lines[i], IsNewline)];
    }
    assert forall j :: 0 <= j < |lines| ==> lines[j] == StripBy(pieces[j], IsNewline);
    StrippedLines(pieces, lines);
    r := Ok(lines);
  }

  // ---------------------------------------------------------------------------
  // The translator object

  class FormulaTranslator {
    var tokens: seq<string>
    var pos: nat

    constructor()
      ensures tokens == [] && pos == 0
    {
      tokens := [];
      pos := 0;
    }

    /** `tokenize`: strip the formula, then split it into parentheses and words. */
    method Tokenize(formula: string) returns (ts: seq<string>)
      ensures ts == Lex(Strip(formula))
    {
      var s := Strip(formula);
      ts := [];
      var current := "";
      for k := 0 to |s|
        invariant NoSpace(current)
        invariant ts + LexFrom(s[k..], current) == Lex(s)
      {
        LexStep(s, k, ts, current);
        StripNoSpace(current);
        ghost var flushed := ts + Flush(current);
        var word := Strip(current);
        var ch := s[k];
        if ch == '(' || ch == ')' {
          if word != [] {
            ts := ts + [word];
            current := "";
          }
          assert ts == flushed;
          ts := ts + [[ch]];
        } else if IsSpace(ch) {
          if word != [] {
            ts := ts + [word];
            current := "";
          }
          assert ts == flushed;
        } else {
          current := current + [ch];
        }
      }
      assert s[|s|..] == [];
      assert ts + Flush(current) == Lex(s);
      StripNoSpace(current);
      var word := Strip(current);
      if word != [] {
        ts := ts + [word];
      }
    }

    /** `parse`: install the tokens, reset the cursor and parse one expression. */
    method Parse(ts: seq<string>) returns (r: Result<string, ParseError>)
      modifies this
      ensures tokens == ts && pos <= |tokens|
      ensures r == TextOf(Expr(ts))
      ensures r.Ok? ==> tokens[pos..] == Expr(ts).value.1
    {
      tokens := ts;
      pos := 0;
      r := ParseExpression();
    }

    /** `parse_expression`: a compound after "(", otherwise an atom with every 'C' made 'p'. */
    method ParseExpression() returns (r: Result<string, ParseError>)
      requires pos <= |tokens|
      modifies this
      ensures tokens == old(tokens) && pos <= |tokens|
      ensures r == TextOf(Expr(tokens[old(pos)..]))
      ensures r.Ok? ==> tokens[pos..] == Expr(tokens[old(pos)..]).value.1
      decreases |tokens| - pos, 1
    {
      ghost var ts := tokens[pos..];
      if pos >= |tokens| {
        return Err(UnexpectedEnd);
      }
      var token := tokens[pos];
      if token == "(" {
        pos := pos + 1;
        assert tokens[pos..] == ts[1..];
        r := ParseCompound();
        return;
      }
      pos := pos + 1;
      return Ok(ReplaceAll(token, "C", "p"));
    }

    /** `parse_compound`: NOT, AND, OR or ALL, then the closing parenthesis. */
    method ParseCompound() returns (r: Result<string, ParseError>)
      requires pos <= |tokens|
      modifies this
      ensures tokens == old(tokens) && pos <= |tokens|
      ensures r == TextOf(Compound(tokens[old(pos)..]))
      ensures r.Ok? ==> tokens[pos..] == Compound(tokens[old(pos)..]).value.1
      decreases |tokens| - pos, 0
    {
      ghost var ts := tokens[pos..];
      if pos >= |tokens| {
        return Err(UnexpectedEnd);
      }
      var operator := tokens[pos];
      pos := pos + 1;
      assert tokens[pos..] == ts[1..];
      if operator == "NOT" {
        var arg := ParseExpression();
        if arg.Err? {
          return Err(arg.error);
        }
        r := ExpectClose("~(" + arg.value + ")");
      } else if operator == "AND" || operator == "OR" {
        var sep := if operator == "AND" then " & " else " | ";
        var args := ParseArguments();
        if args.Err? {
          return Err(args.error);
        }
        if |args.value| == 1 {
          return Ok(args.value[0]);
        }
        if |args.value| == 0 {
          return Err(IndexOutOfRange);
        }
        var result := FoldArguments(args.value, sep);
        r := Ok(result);
      } else if operator == "ALL" {
        if pos >= |tokens| {
          return Err(IndexOutOfRange);
        }
        var relation := tokens[pos];
        pos := pos + 1;
        assert tokens[pos..] == ts[1..][1..];
        var formula := ParseExpression();
        if formula.Err? {
          return Err(formula.error);
        }
        r := ExpectClose("[" + Lower(relation) + "](" + formula.value + ")");
      } else {
        r := Err(UnknownOperator(operator));
      }
    }

    /** The AND/OR loop of `parse_compound`: expressions up to ")", and the step past it. */
    method ParseArguments() returns (r: Result<seq<string>, ParseError>)
      requires pos <= |tokens|
      modifies this
      ensures tokens == old(tokens) && pos <= |tokens|
      ensures Args(tokens[old(pos)..]).Ok? <==> r.Ok?
      ensures r.Ok? ==> r.value == Args(tokens[old(pos)..]).value.0 && tokens[pos..] == Args(tokens[old(pos)..]).value.1
      ensures r.Err? ==> r.error == Args(tokens[old(pos)..]).error
      decreases |tokens| - pos, 2
    {
      ghost var start := pos;
      var args: seq<string> := [];
      PrependEmpty(Args(tokens[pos..]));
      while true
        invariant tokens == old(tokens) && start <= pos <= |tokens|
        invariant Args(tokens[start..]) == Prepend(args, Args(tokens[pos..]))
        decreases |tokens| - pos
      {
        if pos >= |tokens| {
          return Err(IndexOutOfRange);
        }
        if tokens[pos] == ")" {
          break;
        }
        ghost var here := tokens[pos..];
        var arg := ParseExpression();
        ArgsLoopStep(tokens[start..], here, args, arg, tokens[pos..]);
        if arg.Err? {
          return Err(arg.error);
        }
        args := args + [arg.value];
      }
      assert tokens[pos + 1..] == tokens[pos..][1..];
      pos := pos + 1;
      r := Ok(args);
    }

    /** The left fold of the collected arguments with the connective. */
    method FoldArguments(args: seq<string>, sep: string) returns (result: string)
      requires |args| >= 1
      ensures result == Fold(args, sep)
    {
      result := args[0];
      for k := 1 to |args|
        invariant result == Fold(args[..k], sep)
      {
        assert args[..k + 1][..k] == args[..k];
        result := "(" + result + sep + args[k] + ")";
      }
      assert args[..|args|] == args;
    }

    /** The check that the next token is ")" and the step past it. */
    method ExpectClose(s: string) returns (r: Result<string, ParseError>)
      requires pos <= |tokens|
      modifies this
      ensures tokens == old(tokens) && pos <= |tokens|
      ensures r == TextOf(Close(tokens[old(pos)..], s))
      ensures r.Ok? ==> tokens[pos..] == Close(tokens[old(pos)..], s).value.1
    {
      if pos >= |tokens| {
        return Err(IndexOutOfRange);
      }
      if tokens[pos] != ")" {
        return Err(ExpectedClose(tokens[pos]));
      }
      assert tokens[pos + 1..] == tokens[pos..][1..];
      pos := pos + 1;
      return Ok(s);
    }

    /** `translate`: tokenize, then parse. */
    method Translate(formula: string) returns (r: Result<string, ParseError>)
      modifies this
      ensures tokens == Lex(Strip(formula))
      ensures r == TextOf(Expr(Lex(Strip(formula))))
    {
      var ts := Tokenize(formula);
      r := Parse(ts);
    }
  }

  /** `translate_to_intohylo`: translate with a fresh translator. */
  method TranslateToIntoHylo(formula: string) returns (r: Result<string, ParseError>)
    ensures r == TextOf(Expr(Lex(Strip(formula))))
  {
    var translator := new FormulaTranslator();
    r := translator.Translate(formula);
  }
}
