/**
  The string operations of Python's `str` that the formula tools use, over `seq<char>`:
  stripping, splitting on a separator or on whitespace, joining, the non-overlapping
  `count` and `replace`, decimal conversion, ASCII `lower`, and `sorted` on strings.
 */
module Text {

  /** The characters Python's `str.isspace()` and argument-less `str.strip()` treat as whitespace. */
  predicate IsSpace(c: char) {
    ('\U{9}' <= c <= '\U{D}') || ('\U{1C}' <= c <= '\U{20}') || c == '\U{85}' || c == '\U{A0}'
    || c == '\U{1680}' || ('\U{2000}' <= c <= '\U{200A}') || c == '\U{2028}' || c == '\U{2029}'
    || c == '\U{202F}' || c == '\U{205F}' || c == '\U{3000}'
  }

  // ---------------------------------------------------------------------------
  // Sequence facts, stated once so that callers need not prove them in a larger context

  lemma {:induction false} AppendAssoc<T>(a: seq<T>, b: seq<T>, c: seq<T>)
    ensures (a + b) + c == a + (b + c)
  {
  }

  lemma {:induction false} SnocTail<T>(xs: seq<T>, x: T)
    requires xs != []
    ensures (xs + [x])[0] == xs[0] && (xs + [x])[1..] == xs[1..] + [x]
  {
  }

  lemma {:induction false} TakeSnoc<T>(xs: seq<T>, i: int)
    requires 0 <= i < |xs|
    ensures xs[..i + 1] == xs[..i] + [xs[i]]
  {
  }

  lemma {:induction false} ConsTail<T>(x: T, xs: seq<T>)
    ensures ([x] + xs)[0] == x && ([x] + xs)[1..] == xs
  {
  }

  predicate IsDigit(c: char) {
    '0' <= c <= '9'
  }

  predicate AllDigits(s: string) {
    forall i :: 0 <= i < |s| ==> IsDigit(s[i])
  }

  predicate NoSpace(s: string) {
    forall i :: 0 <= i < |s| ==> !IsSpace(s[i])
  }

  predicate EndsWith(s: string, suffix: string) {
    |suffix| <= |s| && s[|s| - |suffix|..] == suffix
  }

  // ---------------------------------------------------------------------------
  // strip, lstrip, rstrip

  /** `s.lstrip(chars)`, where `drop` says which characters are stripped. */
  function LStrip(s: string, drop: char -> bool): (r: string)
    ensures |r| <= |s|
  {
    if |s| > 0 && drop(s[0]) then LStrip(s[1..], drop) else s
  }

  /** `s.rstrip(chars)`. */
  function RStrip(s: string, drop: char -> bool): (r: string)
    ensures |r| <= |s|
  {
    if |s| > 0 && drop(s[|s| - 1]) then RStrip(s[..|s| - 1], drop) else s
  }

  /** lstrip removes a prefix of stripped characters and stops at the first kept one. */
  lemma {:induction false} LStripFacts(s: string, drop: char -> bool)
    ensures LStrip(s, drop) == s[|s| - |LStrip(s, drop)|..]
    ensures forall i :: 0 <= i < |s| - |LStrip(s, drop)| ==> drop(s[i])
    ensures LStrip(s, drop) == [] || !drop(LStrip(s, drop)[0])
    decreases |s|
  {
    if |s| > 0 && drop(s[0]) {
      var r := LStrip(s[1..], drop);
      LStripFacts(s[1..], drop);
      assert s[1..][|s[1..]| - |r|..] == s[|s| - |r|..];
      assert forall i :: 1 <= i < |s| - |r| ==> s[i] == s[1..][i - 1];
    }
  }

  /** rstrip removes a suffix of stripped characters and stops at the last kept one. */
  lemma {:induction false} RStripFacts(s: string, drop: char -> bool)
    ensures RStrip(s, drop) == s[..|RStrip(s, drop)|]
    ensures forall i :: |RStrip(s, drop)| <= i < |s| ==> drop(s[i])
    ensures RStrip(s, drop) == [] || !drop(RStrip(s, drop)[|RStrip(s, drop)| - 1])
    decreases |s|
  {
    if |s| > 0 && drop(s[|s| - 1]) {
      var r := RStrip(s[..|s| - 1], drop);
      RStripFacts(s[..|s| - 1], drop);
      assert s[..|s| - 1][..|r|] == s[..|r|];
      assert forall i :: |r| <= i < |s| - 1 ==> s[i] == s[..|s| - 1][i];
    }
  }

  /** `s.strip(chars)`: both ends. */
  function StripBy(s: string, drop: char -> bool): string {
    RStrip(LStrip(s, drop), drop)
  }

  /** Neither end of a stripped string is a stripped character. */
  lemma {:induction false} StripByEnds(s: string, drop: char -> bool)
    ensures StripBy(s, drop) == [] || (!drop(StripBy(s, drop)[0]) && !drop(StripBy(s, drop)[|StripBy(s, drop)| - 1]))
  {
    var l := LStrip(s, drop);
    var r := RStrip(l, drop);
    LStripFacts(s, drop);
    RStripFacts(l, drop);
    if r != [] {
      assert r[0] == l[0];
    }
  }

  /** Python's argument-less `s.strip()`. */
  function Strip(s: string): string {
    StripBy(s, IsSpace)
  }

  /** Text that neither begins nor ends with white space is its own strip. */
  lemma {:induction false} StripUnchanged(s: string)
    requires s == [] || (!IsSpace(s[0]) && !IsSpace(s[|s| - 1]))
    ensures Strip(s) == s
  {
    assert LStrip(s, IsSpace) == s;
  }

  /** Stripping twice is stripping once. */
  lemma {:induction false} StripIdempotent(s: string)
    ensures Strip(Strip(s)) == Strip(s)
  {
    var r := Strip(s);
    StripByEnds(s, IsSpace);
    assert LStrip(r, IsSpace) == r;
    assert RStrip(r, IsSpace) == r;
  }

  // ---------------------------------------------------------------------------
  // split, join, count, replace

  /** `s.split(sep)` for a non-empty separator: the pieces between occurrences found left to right. */
  function Split(s: string, sep: string): (r: seq<string>)
    requires |sep| > 0
    ensures |r| >= 1
    decreases |s|
  {
    if sep <= s then [[]] + Split(s[|sep|..], sep)
    else if s == [] then [[]]
    else var rest := Split(s[1..], sep); [[s[0]] + rest[0]] + rest[1..]
  }

  /** `sep.join(xs)`. */
  function Join(sep: string, xs: seq<string>): string {
    if |xs| == 0 then []
    else if |xs| == 1 then xs[0]
    else xs[0] + sep + Join(sep, xs[1..])
  }

  /** `s.count(pat)` for a non-empty pattern: occurrences found left to right without overlap. */
  function Count(s: string, pat: string): nat
    requires |pat| > 0
    decreases |s|
  {
    if pat <= s then 1 + Count(s[|pat|..], pat)
    else if s == [] then 0
    else Count(s[1..], pat)
  }

  /** `s.replace(pat, rep)` for a non-empty pattern. */
  function ReplaceAll(s: string, pat: string, rep: string): string
    requires |pat| > 0
    decreases |s|
  {
    if pat <= s then rep + ReplaceAll(s[|pat|..], pat, rep)
    else if s == [] then []
    else [s[0]] + ReplaceAll(s[1..], pat, rep)
  }

  /** Occurrences of a single character add up over a concatenation. */
  lemma {:induction false} CountCharConcat(a: string, b: string, c: char)
    ensures Count(a + b, [c]) == Count(a, [c]) + Count(b, [c])
    decreases |a|
  {
    if a == [] {
      assert a + b == b;
    } else {
      assert (a + b)[0] == a[0] && (a + b)[1..] == a[1..] + b;
      CountCharConcat(a[1..], b, c);
    }
  }

  /** A character that does not occur is counted zero times. */
  lemma {:induction false} CountCharAbsent(s: string, c: char)
    requires c !in s
    ensures Count(s, [c]) == 0
    decreases |s|
  {
    if s != [] {
      assert s[0] != c && !([c] <= s);
      CountCharAbsent(s[1..], c);
    }
  }

  /** Joining two nonempty lists is joining each and putting the separator between. */
  lemma {:induction false} JoinConcat(sep: string, a: seq<string>, b: seq<string>)
    requires |a| > 0 && |b| > 0
    ensures Join(sep, a + b) == Join(sep, a) + sep + Join(sep, b)
    decreases |a|
  {
    if |a| == 1 {
      assert (a + b)[0] == a[0] && (a + b)[1..] == b;
    } else {
      assert (a + b)[0] == a[0] && (a + b)[1..] == a[1..] + b;
      JoinConcat(sep, a[1..], b);
    }
  }

  /** Splitting yields one piece more than there are separators. */
  lemma {:induction false} SplitCount(s: string, sep: string)
    requires |sep| > 0
    ensures |Split(s, sep)| == Count(s, sep) + 1
    decreases |s|
  {
    if sep <= s {
      SplitCount(s[|sep|..], sep);
    } else if s != [] {
      SplitCount(s[1..], sep);
    }
  }

  /** Splitting on one character inverts joining on it, when no piece holds that character. */
  lemma {:induction false} SplitJoin(xs: seq<string>, c: char)
    requires |xs| >= 1
    requires forall i :: 0 <= i < |xs| ==> c !in xs[i]
    ensures Split(Join([c], xs), [c]) == xs
    decreases |xs|, |xs[0]|
  {
    if |xs| == 1 {
      SplitNoSep(xs[0], c);
    } else if xs[0] == [] {
      var j := Join([c], xs[1..]);
      assert Join([c], xs) == [c] + j;
      assert Split(j, [c]) == xs[1..] by {
        assert forall i :: 0 <= i < |xs[1..]| ==> c !in xs[1..][i];
        SplitJoin(xs[1..], c);
      }
      ConsTail(c, j);
      assert [[]] + xs[1..] == xs;
    } else {
      var ys := [xs[0][1..]] + xs[1..];
      var j := Join([c], ys);
      assert Join([c], xs) == [xs[0][0]] + j by {
        assert ys[0] == xs[0][1..] && ys[1..] == xs[1..];
      }
      assert Split(j, [c]) == ys by {
        assert forall i :: 0 <= i < |ys| ==> c !in ys[i];
        SplitJoin(ys, c);
      }
      ConsTail(xs[0][0], j);
      assert [xs[0][0]] + xs[0][1..] == xs[0];
      assert [xs[0]] + ys[1..] == xs;
    }
  }

  lemma {:induction false} SplitNoSep(s: string, c: char)
    requires c !in s
    ensures Split(s, [c]) == [s]
    decreases |s|
  {
    if s != [] {
      SplitNoSep(s[1..], c);
      assert [s[0]] + s[1..] == s;
    }
  }

  /** Occurrences of a pattern never straddle a character the pattern does not contain. */
  lemma {:induction false} CountAround(a: string, c: char, b: string, pat: string)
    requires |pat| > 0 && c !in pat
    ensures Count(a + [c] + b, pat) == Count(a, pat) + Count(b, pat)
    decreases |a|
  {
    var s := a + [c] + b;
    if pat <= a {
      assert s[|pat|..] == a[|pat|..] + [c] + b;
      CountAround(a[|pat|..], c, b, pat);
    } else {
      NotPrefixAcross(a, c, b, pat);
      if a == [] {
        assert s[1..] == b;
      } else {
        assert s[1..] == a[1..] + [c] + b;
        CountAround(a[1..], c, b, pat);
      }
    }
  }

  lemma {:induction false} NotPrefixAcross(a: string, c: char, b: string, pat: string)
    requires |pat| > 0 && c !in pat && !(pat <= a)
    ensures !(pat <= a + [c] + b)
  {
    var s := a + [c] + b;
    if |pat| <= |a| {
      assert s[..|pat|] == a[..|pat|];
    } else {
      assert s[|a|] == c;
    }
  }

  /** A pattern with no proper border: no suffix of it is also a prefix of it. */
  predicate Unbordered(pat: string) {
    forall k :: 0 < k < |pat| ==> pat[k..] != pat[..|pat| - k]
  }

  /** Replacing an unbordered pattern in a string that ends with it yields a string that ends with the replacement. */
  lemma {:induction false} ReplaceAllEndsWith(s: string, pat: string, rep: string)
    requires |pat| > 0 && Unbordered(pat) && EndsWith(s, pat)
    ensures EndsWith(ReplaceAll(s, pat, rep), rep)
    decreases |s|
  {
    if pat <= s {
      var t := ReplaceAll(s[|pat|..], pat, rep);
      if |s| == |pat| {
        assert s[|pat|..] == [];
        assert rep + t == rep;
      } else {
        assert EndsWith(t, rep) by {
          if |s| < 2 * |pat| {
            OverlapIsBorder(s, pat);
            assert false;
          }
          assert s[|pat|..][|s| - 2 * |pat|..] == s[|s| - |pat|..];
          ReplaceAllEndsWith(s[|pat|..], pat, rep);
        }
        EndsWithAfter(rep, t, rep);
      }
    } else {
      var t := ReplaceAll(s[1..], pat, rep);
      assert EndsWith(t, rep) by {
        assert s[1..][|s| - 1 - |pat|..] == s[|s| - |pat|..];
        ReplaceAllEndsWith(s[1..], pat, rep);
      }
      EndsWithAfter([s[0]], t, rep);
    }
  }

  /**
    Replacing an unbordered pattern in a stem without it, followed by the pattern and a tail:
    the stem stays, the first occurrence becomes the replacement, and the tail is replaced in turn.
   */
  lemma {:induction false} ReplaceAllFirst(stem: string, pat: string, rep: string, tail: string)
    requires |pat| > 0 && Unbordered(pat) && Count(stem, pat) == 0
    ensures ReplaceAll(stem + pat + tail, pat, rep) == stem + (rep + ReplaceAll(tail, pat, rep))
    decreases |stem|
  {
    var s := stem + pat + tail;
    if stem == [] {
      assert s[..|pat|] == pat && s[|pat|..] == tail;
    } else {
      NoMatchBefore(stem, pat, rep, tail);
      ReplaceAllFirst(stem[1..], pat, rep, tail);
      ConsAppend(stem, rep + ReplaceAll(tail, pat, rep));
    }
  }

  lemma {:induction false} ConsAppend(a: string, b: string)
    requires a != []
    ensures a + b == [a[0]] + (a[1..] + b)
  {
    assert (a + b)[1..] == a[1..] + b;
  }

  /**
    An unbordered pattern absent from a non-empty stem does not start the stem followed by the pattern,
    so replacing keeps the stem's first character and goes on after it.
   */
  lemma {:induction false} NoMatchBefore(stem: string, pat: string, rep: string, tail: string)
    requires |pat| > 0 && Unbordered(pat) && Count(stem, pat) == 0 && stem != []
    ensures Count(stem[1..], pat) == 0
    ensures ReplaceAll(stem + pat + tail, pat, rep) == [stem[0]] + ReplaceAll(stem[1..] + pat + tail, pat, rep)
  {
    var s := stem + pat + tail;
    if |pat| <= |stem| {
      assert !(pat <= stem);
      assert s[..|pat|] == stem[..|pat|];
    } else {
      var k := |stem|;
      assert pat[k..] != pat[..|pat| - k];
      var j :| 0 <= j < |pat| - k && pat[k..][j] != pat[..|pat| - k][j];
      assert s[k + j] == pat[j] != pat[k + j];
    }
    assert s[1..] == stem[1..] + pat + tail;
  }

  lemma {:induction false} EndsWithAfter(x: string, y: string, suffix: string)
    requires EndsWith(y, suffix)
    ensures EndsWith(x + y, suffix)
  {
    assert (x + y)[|x + y| - |suffix|..] == y[|y| - |suffix|..];
  }

  /** Two overlapping occurrences of a pattern at the two ends of a string make a border of the pattern. */
  lemma {:induction false} OverlapIsBorder(s: string, pat: string)
    requires pat <= s && EndsWith(s, pat) && |pat| < |s| < 2 * |pat|
    ensures pat[|s| - |pat|..] == pat[..2 * |pat| - |s|]
  {
    var k := |s| - |pat|;
    assert pat[k..] == s[k..|pat|];
    assert s[k..][..|pat| - k] == s[k..|pat|];
  }

  /** Replacing a one-character pattern removes every occurrence of that character when the replacement lacks it. */
  lemma {:induction false} ReplaceCharAbsent(s: string, c: char, rep: string, x: char)
    requires c !in rep && (x == c || (x !in s && x !in rep))
    ensures x !in ReplaceAll(s, [c], rep)
    decreases |s|
  {
    if [c] <= s {
      ReplaceCharAbsent(s[1..], c, rep, x);
    } else if s != [] {
      ReplaceCharAbsent(s[1..], c, rep, x);
    }
  }

  // ---------------------------------------------------------------------------
  // whitespace splitting

  /** Python's argument-less `s.split()`: the maximal runs of non-whitespace characters. */
  function Words(s: string): seq<string> {
    WordsFrom(s, [])
  }

  /** The words of `s`, given that `current` holds the characters of a word already begun. */
  function WordsFrom(s: string, current: string): (r: seq<string>)
    ensures NoSpace(current) ==> forall i :: 0 <= i < |r| ==> r[i] != [] && NoSpace(r[i])
    decreases |s|
  {
    if s == [] then (if current == [] then [] else [current])
    else if IsSpace(s[0]) then (if current == [] then [] else [current]) + WordsFrom(s[1..], [])
    else WordsFrom(s[1..], current + [s[0]])
  }

  // ---------------------------------------------------------------------------
  // decimal numbers

  function DigitChar(d: nat): (c: char)
    requires d < 10
    ensures IsDigit(c)
  {
    ['0', '1', '2', '3', '4', '5', '6', '7', '8', '9'][d]
  }

  function DigitValue(c: char): (d: nat)
    requires IsDigit(c)
    ensures d < 10 && DigitChar(d) == c
  {
    (c as int - '0' as int)
  }

  /** Python's `str(n)` and C++'s `to_string(n)` for a natural number. */
  function NatToString(n: nat): (s: string)
    ensures |s| > 0 && AllDigits(s)
    ensures s[0] == '0' ==> n == 0
  {
    if n < 10 then [DigitChar(n)] else NatToString(n / 10) + [DigitChar(n % 10)]
  }

  /** `str(i)` / `to_string(i)` for any integer, with a leading '-' for negatives. */
  function IntToString(i: int): string {
    if i < 0 then "-" + NatToString(-i) else NatToString(i)
  }

  /** Python's `int(ds)` for a string of ASCII digits. */
  function DigitsValue(ds: string): nat
    requires AllDigits(ds)
  {
    if ds == [] then 0 else DigitsValue(ds[..|ds| - 1]) * 10 + DigitValue(ds[|ds| - 1])
  }

  /** Reading back a printed number gives the number. */
  lemma {:induction false} DigitsOfNat(n: nat)
    ensures DigitsValue(NatToString(n)) == n
  {
    var s := NatToString(n);
    if n >= 10 {
      DigitsOfNat(n / 10);
      assert s[..|s| - 1] == NatToString(n / 10);
    }
  }

  /** Printing a number read from digits gives the digits back, without their leading zeros. */
  lemma {:induction false} NatOfDigits(ds: string)
    requires AllDigits(ds) && |ds| > 0 && ds[0] != '0'
    ensures NatToString(DigitsValue(ds)) == ds
  {
    var init := ds[..|ds| - 1];
    if |init| > 0 {
      NatOfDigits(init);
      DigitsPositive(init);
      var v := DigitsValue(ds);
      assert v / 10 == DigitsValue(init) && v % 10 == DigitValue(ds[|ds| - 1]);
      assert ds == init + [ds[|ds| - 1]];
    } else {
      assert ds == [ds[0]];
    }
  }

  lemma {:induction false} DigitsPositive(ds: string)
    requires AllDigits(ds) && |ds| > 0 && ds[0] != '0'
    ensures DigitsValue(ds) > 0
  {
    if |ds| > 1 {
      DigitsPositive(ds[..|ds| - 1]);
    }
  }

  /** The length of the run of digits at the start of s. */
  function DigitRun(s: string): (n: nat)
    ensures n <= |s| && AllDigits(s[..n]) && (n == |s| || !IsDigit(s[n]))
  {
    if s == [] || !IsDigit(s[0]) then 0
    else
      var n := 1 + DigitRun(s[1..]);
      assert forall i :: 1 <= i < n ==> s[..n][i] == s[1..][..n - 1][i - 1];
      n
  }

  lemma {:induction false} DigitRunOf(ds: string, t: string)
    requires AllDigits(ds) && (t == [] || !IsDigit(t[0]))
    ensures DigitRun(ds + t) == |ds|
    decreases |ds|
  {
    if ds == [] {
      assert ds + t == t;
    } else {
      assert (ds + t)[0] == ds[0] && (ds + t)[1..] == ds[1..] + t;
      DigitRunOf(ds[1..], t);
    }
  }

  // ---------------------------------------------------------------------------
  // lower

  /** `s.lower()` on ASCII letters. */
  function Lower(s: string): (r: string)
    ensures |r| == |s|
    ensures forall i :: 0 <= i < |s| ==> r[i] == if 'A' <= s[i] <= 'Z' then (s[i] as int + 32) as char else s[i]
  {
    seq(|s|, i requires 0 <= i < |s| => if 'A' <= s[i] <= 'Z' then (s[i] as int + 32) as char else s[i])
  }

  // ---------------------------------------------------------------------------
  // sorted

  /** Python's `a <= b` on strings: lexicographic by code point. */
  predicate StrLeq(a: string, b: string)
    decreases |a|
  {
    a == [] || (b != [] && (a[0] < b[0] || (a[0] == b[0] && StrLeq(a[1..], b[1..]))))
  }

  lemma {:induction false} StrLeqTotal(a: string, b: string)
    ensures StrLeq(a, b) || StrLeq(b, a)
    decreases |a|
  {
    if a != [] && b != [] && a[0] == b[0] {
      StrLeqTotal(a[1..], b[1..]);
    }
  }

  lemma {:induction false} StrLeqAntisymmetric(a: string, b: string)
    requires StrLeq(a, b) && StrLeq(b, a)
    ensures a == b
    decreases |a|
  {
    if a != [] {
      StrLeqAntisymmetric(a[1..], b[1..]);
      assert a == [a[0]] + a[1..] && b == [b[0]] + b[1..];
    }
  }

  predicate SortedStrings(xs: seq<string>) {
    forall i :: 0 < i < |xs| ==> StrLeq(xs[i - 1], xs[i])
  }

  function Insert(x: string, xs: seq<string>): (r: seq<string>)
    requires SortedStrings(xs)
    ensures SortedStrings(r) && multiset(r) == multiset(xs) + multiset{x}
    ensures |r| > 0 && (r[0] == x || (xs != [] && r[0] == xs[0]))
  {
    if xs == [] then [x]
    else if StrLeq(x, xs[0]) then [x] + xs
    else
      StrLeqTotal(x, xs[0]);
      var tail := Insert(x, xs[1..]);
      assert xs == [xs[0]] + xs[1..];
      [xs[0]] + tail
  }

  /** Python's `sorted(xs)` on a list of strings. */
  function SortStrings(xs: seq<string>): (r: seq<string>)
    ensures SortedStrings(r) && multiset(r) == multiset(xs)
  {
    if xs == [] then []
    else
      assert xs == [xs[0]] + xs[1..];
      Insert(xs[0], SortStrings(xs[1..]))
  }
}
