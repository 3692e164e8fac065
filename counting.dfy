/**
  The benchmark table annotator: each data row of a CSV table of formulas gains two columns,
  the number of agent-1 modalities of its formula and its number of clauses.

  The CSV reader itself is a parameter (`readCsv`): it turns the data lines into rows of cells.
 */
module Counting {
  import opened Wrappers
  import opened Text

  // ---------------------------------------------------------------------------
  // The two counts

  /** Occurrences of a pattern of two or more characters, found without overlap, take two characters each at least. */
  lemma {:induction false} CountBound(s: string, pat: string)
    requires |pat| >= 2
    ensures 2 * Count(s, pat) <= |s|
    decreases |s|
  {
    if pat <= s {
      CountBound(s[|pat|..], pat);
    } else if s != [] {
      CountBound(s[1..], pat);
    }
  }

  /** `count_modalities`: the occurrences of "r1", such as the relation in `[r1]` and `<r1>`. */
  function CountModalities(formula: string): (n: nat)
    ensures 2 * n <= |formula|
  {
    CountBound(formula, "r1");
    Count(formula, "r1")
  }

  /** `count_clauses`: one more than the number of '&'. */
  function CountClauses(formula: string): (n: nat)
    ensures n >= 1
    ensures n == 1 <==> '&' !in formula
  {
    if '&' in formula then
      CountCharPresent(formula, '&');
      Count(formula, "&") + 1
    else
      CountCharAbsent(formula, '&');
      Count(formula, "&") + 1
  }

  /** A character that occurs is counted. */
  lemma {:induction false} CountCharPresent(s: string, c: char)
    requires c in s
    ensures Count(s, [c]) > 0
  {
    var i :| 0 <= i < |s| && s[i] == c;
    assert s == s[..i] + ([c] + s[i + 1..]);
    CountCharConcat(s[..i], [c] + s[i + 1..], c);
    assert [c] <= [c] + s[i + 1..];
  }

  /** Occurrences of a pattern without ' ' and '&' add up across the separator " & ". */
  lemma {:induction false} CountAcrossSeparator(a: string, b: string, pat: string)
    requires |pat| > 0 && ' ' !in pat && '&' !in pat
    ensures Count(a + " & " + b, pat) == Count(a, pat) + Count(b, pat)
  {
    var x := " " + b;
    var y := "&" + x;
    assert Count([], pat) == 0;
    assert Count(x, pat) == Count(b, pat) by {
      CountAround([], ' ', b, pat);
      assert x == [] + [' '] + b;
    }
    assert Count(y, pat) == Count(b, pat) by {
      CountAround([], '&', x, pat);
      assert y == [] + ['&'] + x;
    }
    CountAround(a, ' ', y, pat);
    assert a + " & " + b == a + [' '] + y;
  }

  /** Modalities of clauses joined by " & " add up: no "r1" straddles the separator. */
  lemma {:induction false} ModalitiesAdd(a: string, b: string)
    ensures CountModalities(a + " & " + b) == CountModalities(a) + CountModalities(b)
  {
    CountAcrossSeparator(a, b, "r1");
  }

  /** Clauses joined by " & " add up. */
  lemma {:induction false} ClausesAdd(a: string, b: string)
    ensures CountClauses(a + " & " + b) == CountClauses(a) + CountClauses(b)
  {
    assert a + " & " + b == (a + " ") + ("&" + (" " + b));
    CountCharConcat(a + " ", "&" + (" " + b), '&');
    CountCharConcat(a, " ", '&');
    CountCharConcat("&", " " + b, '&');
    CountCharConcat(" ", b, '&');
    CountCharAbsent(" ", '&');
    CountCharAbsent([], '&');
    assert "&"[1..] == [];
  }

  /** Text without the first character of the pattern holds no occurrence. */
  lemma {:induction false} CountWithoutFirst(s: string, pat: string)
    requires |pat| > 0 && pat[0] !in s
    ensures Count(s, pat) == 0
    decreases |s|
  {
    if s != [] {
      assert s[0] != pat[0];
      CountWithoutFirst(s[1..], pat);
    }
  }

  /**
    The count is of the text "r1", not of the relation `r1`: the relation of any agent whose
    number starts with the digit 1, such as `[r10]`, counts once.
   */
  lemma {:induction false} ModalitiesOfRelation(ds: string)
    requires AllDigits(ds)
    ensures CountModalities("[r1" + ds + "]") == 1
  {
    var s := "[r1" + ds + "]";
    var tail := ds + "]";
    assert s == "[" + ("r1" + tail);
    assert s[1..] == "r1" + tail;
    assert s[0] == '[';
    assert "r1" <= s[1..];
    assert s[1..][2..] == tail;
    assert 'r' !in tail by {
      assert forall i | 0 <= i < |ds| :: tail[i] == ds[i];
    }
    CountWithoutFirst(tail, "r1");
    assert Count(s, "r1") == Count(s[1..], "r1");
    assert Count(s[1..], "r1") == 1 + Count(tail, "r1");
  }

  // ---------------------------------------------------------------------------
  // The table

  const HeaderError := "Error: Input file must have at least 2 header rows"

  /** The two header rows of the output table. */
  const Header: seq<seq<string>> := [
    ["formula", "SATISFIABLE", "SATISFIABLE", "SATISFIABLE", "solve_time", "solve_time", "solve_time", "benchmark", "d", "N"],
    ["", "CEGAR", "LCKS5", "S52SAT", "CEGAR", "LCKS5", "S52SAT", "", "", ""]
  ]

  /** A data row is processed when its first cell holds more than white space. */
  predicate HasFormula(row: seq<string>) {
    row != [] && Strip(row[0]) != []
  }

  /** The two cells added for a formula: its modalities and its clauses, in decimal. */
  function CountCells(formula: string): seq<string> {
    [NatToString(CountModalities(formula)), NatToString(CountClauses(formula))]
  }

  /** The row with the two counts of its stripped formula appended. */
  function Annotated(row: seq<string>): seq<string>
    requires HasFormula(row)
  {
    row + CountCells(Strip(row[0]))
  }

  /** The processed rows: the rows with a formula, annotated, in order. */
  function AnnotatedRows(rows: seq<seq<string>>): seq<seq<string>> {
    if rows == [] then []
    else (if HasFormula(rows[0]) then [Annotated(rows[0])] else []) + AnnotatedRows(rows[1..])
  }

  lemma {:induction false} AnnotatedRowsSnoc(rows: seq<seq<string>>, row: seq<string>)
    ensures AnnotatedRows(rows + [row]) == AnnotatedRows(rows) + (if HasFormula(row) then [Annotated(row)] else [])
  {
    if rows == [] {
      assert [] + [row] == [row];
    } else {
      assert (rows + [row])[0] == rows[0] && (rows + [row])[1..] == rows[1..] + [row];
      AnnotatedRowsSnoc(rows[1..], row);
    }
  }

  /** The two counts in each processed row:  the row's own formula is counted, whatever rows were skipped. */
  predicate CarriesCounts(row: seq<string>) {
    |row| >= 3 && Strip(row[0]) != [] && row[|row| - 2..] == CountCells(Strip(row[0]))
  }

  lemma {:induction false} AnnotatedCarries(row: seq<string>)
    requires HasFormula(row)
    ensures CarriesCounts(Annotated(row))
  {
    var a := Annotated(row);
    assert a[0] == row[0];
    assert a[|a| - 2..] == a[|row|..];
  }

  /** Each row of the list carries the counts of its own formula. */
  predicate EachCarriesCounts(rows: seq<seq<string>>) {
    rows == [] || (CarriesCounts(rows[0]) && EachCarriesCounts(rows[1..]))
  }

  /** Every processed row carries the counts of its own formula, and no row is made up. */
  lemma {:induction false} AnnotatedRowsCarryCounts(rows: seq<seq<string>>)
    ensures |AnnotatedRows(rows)| <= |rows|
    ensures EachCarriesCounts(AnnotatedRows(rows))
    decreases |rows|
  {
    if rows != [] {
      var rest := AnnotatedRows(rows[1..]);
      AnnotatedRowsCarryCounts(rows[1..]);
      if HasFormula(rows[0]) {
        var a := Annotated(rows[0]);
        AnnotatedCarries(rows[0]);
        assert AnnotatedRows(rows) == [a] + rest;
        assert ([a] + rest)[1..] == rest;
      } else {
        assert AnnotatedRows(rows) == rest;
      }
    }
  }

  /** When every row holds a formula, none is skipped and each is annotated in place. */
  lemma {:induction false} AnnotatedRowsAll(rows: seq<seq<string>>)
    requires forall i :: 0 <= i < |rows| ==> HasFormula(rows[i])
    ensures |AnnotatedRows(rows)| == |rows|
    ensures forall i :: 0 <= i < |rows| ==> AnnotatedRows(rows)[i] == Annotated(rows[i])
    decreases |rows|
  {
    if rows != [] {
      assert forall i :: 0 <= i < |rows[1..]| ==> HasFormula(rows[1..][i]);
      AnnotatedRowsAll(rows[1..]);
      assert AnnotatedRows(rows) == [Annotated(rows[0])] + AnnotatedRows(rows[1..]);
    }
  }

  /**
    `process_csv`: with fewer than two lines the error message and nothing else; otherwise the
    header rows and the annotated rows read from the lines after the first two.
   */
  method ProcessCsv(lines: seq<string>, readCsv: seq<string> -> seq<seq<string>>) returns (r: Result<seq<seq<string>>, string>)
    ensures r.Err? <==> |lines| < 2
    ensures r.Err? ==> r.error == HeaderError
    ensures r.Ok? ==> r.value == Header + AnnotatedRows(readCsv(lines[2..]))
  {
    if |lines| < 2 {
      return Err(HeaderError);
    }
    var rows := readCsv(lines[2..]);
    var processed: seq<seq<string>> := [];
    for i := 0 to |rows|
      invariant processed == AnnotatedRows(rows[..i])
    {
      assert rows[..i + 1] == rows[..i] + [rows[i]];
      AnnotatedRowsSnoc(rows[..i], rows[i]);
      var row := rows[i];
      if row != [] && Strip(row[0]) != [] {
        var formula := Strip(row[0]);
        var depth := CountModalities(formula);
        var clauses := CountClauses(formula);
        processed := processed + [row + [NatToString(depth), NatToString(clauses)]];
        assert row + [NatToString(depth), NatToString(clauses)] == Annotated(row);
      }
    }
    assert rows[..|rows|] == rows;
    r := Ok(Header + processed);
  }
}
