/**
  The random modal 3CNF generator (the scheme of Giunchiglia et al., 2000).

  Python's global random source becomes an explicit, immutable stream of draws and a cursor:
  the i-th call to the random source is answered by draw number i, read as an integer by
  `randint` and as a real in [0, 1) by `random()`. Every generator operation takes the cursor
  and returns the cursor after the draws it consumed, so each property below holds for every
  draw stream.

  Each builder is specified by a ghost function of the draw stream and the cursor. The function
  gives the structure the builder draws (which variables and boxes, how they nest) and the cursor
  after it. Each builder method is proved to return the rendering of that structure. Lemmas about
  the functions say that the structure respects the parameters, that `rnd_clause` stops at the
  first attempt without a repeated atom, and that `rnd_CNF` keeps distinct clauses.
 */
module Generator {
  import opened Wrappers
  import opened Text

  const Neg: char := '\U{AC}'           // the negation glyph
  const BoxGlyph: char := '\U{25A1}'    // the box glyph
  const OrSep: string := " \U{2228} "   // the disjunction separator between literals
  const AndMark: string := " \U{2227}"  // the conjunction marker ending every line but the last

  /** A stream of draws: draw i answers `randint` with ints(i) and `random()` with units(i). */
  datatype Draws = Draws(ints: nat -> nat, units: nat -> real)

  /** `random()` answers lie in [0, 1). */
  ghost predicate ValidDraws(g: Draws) {
    forall i :: 0.0 <= g.units(i) < 1.0
  }

  /** The generation parameters: box count m, variable count N, literal-mix table p, length table C. */
  datatype Config = Config(m: nat, N: nat, p: seq<seq<seq<nat>>>, C: seq<seq<nat>>) {
    /** What the driver checks before any generation: at least one box and one variable. */
    predicate Valid() {
      m >= 1 && N >= 1
    }
  }

  /** Python raises IndexError when the literal-mix table is indexed with -1 on an empty row. */
  datatype Fault = IndexOutOfRange

  // ---------------------------------------------------------------------------
  // The structure of generated text

  /** A propositional atom A<n>, or the box <b> around a clause. */
  datatype GenAtom = Var(n: nat) | Boxed(b: nat, clause: seq<GenLit>)

  /** An atom with a sign. */
  datatype GenLit = GenLit(negative: bool, atom: GenAtom)

  /** A literal with the given sign. */
  function Signed(negative: bool, atom: string): string {
    if negative then [Neg] + atom else atom
  }

  /** The text of an atom; it never begins with the negation glyph. */
  function ShowAtom(a: GenAtom): (s: string)
    ensures |s| > 0 && (s[0] == 'A' || s[0] == BoxGlyph)
    decreases a
  {
    match a
    case Var(n) => "A" + NatToString(n)
    case Boxed(b, cl) => [BoxGlyph] + NatToString(b) + "(" + ShowClause(cl) + ")"
  }

  function ShowLit(l: GenLit): string
    decreases l
  {
    Signed(l.negative, ShowAtom(l.atom))
  }

  function ShowLits(cl: seq<GenLit>): (r: seq<string>)
    ensures |r| == |cl|
    decreases cl, 0
  {
    if cl == [] then [] else [ShowLit(cl[0])] + ShowLits(cl[1..])
  }

  /** The text of a clause: its literal texts, sorted, joined by the disjunction separator. */
  function ShowClause(cl: seq<GenLit>): string
    decreases cl, 1
  {
    Join(OrSep, SortStrings(ShowLits(cl)))
  }

  /** Variables lie in [1, N], boxes in [1, m], and boxes nest at most d deep. */
  predicate AtomFits(a: GenAtom, d: nat, m: nat, N: nat)
    decreases d, 0
  {
    match a
    case Var(n) => 1 <= n <= N
    case Boxed(b, cl) => d > 0 && 1 <= b <= m && LitsFit(cl, d - 1, m, N)
  }

  predicate LitsFit(cl: seq<GenLit>, d: nat, m: nat, N: nat)
    decreases d, 1
  {
    forall i :: 0 <= i < |cl| ==> AtomFits(cl[i].atom, d, m, N)
  }

  /** The modal depth of an atom: how deeply its boxes nest. */
  function ModalDepth(a: GenAtom): nat
    decreases a
  {
    match a
    case Var(_) => 0
    case Boxed(_, cl) => 1 + MaxDepth(cl)
  }

  function LitDepth(l: GenLit): nat
    decreases l
  {
    ModalDepth(l.atom)
  }

  function MaxDepth(cl: seq<GenLit>): nat
    decreases cl
  {
    if cl == [] then 0
    else
      var head := LitDepth(cl[0]);
      var rest := MaxDepth(cl[1..]);
      if head < rest then rest else head
  }

  /** Fitting depth d means a modal depth of at most d. */
  lemma {:induction false} FitsBoundDepth(a: GenAtom, d: nat, m: nat, N: nat)
    requires AtomFits(a, d, m, N)
    ensures ModalDepth(a) <= d
    decreases a
  {
    match a
    case Var(_) =>
    case Boxed(b, cl) =>
      LitsFitBoundDepth(cl, d - 1, m, N);
  }

  lemma {:induction false} LitFitsBoundDepth(l: GenLit, d: nat, m: nat, N: nat)
    requires AtomFits(l.atom, d, m, N)
    ensures LitDepth(l) <= d
    decreases l
  {
    FitsBoundDepth(l.atom, d, m, N);
  }

  lemma {:induction false} LitsFitBoundDepth(cl: seq<GenLit>, d: nat, m: nat, N: nat)
    requires LitsFit(cl, d, m, N)
    ensures MaxDepth(cl) <= d
    decreases cl
  {
    if cl != [] {
      LitFitsBoundDepth(cl[0], d, m, N);
      assert LitsFit(cl[1..], d, m, N) by {
        forall i | 0 <= i < |cl[1..]|
          ensures AtomFits(cl[1..][i].atom, d, m, N)
        {
          assert cl[1..][i] == cl[i + 1];
        }
      }
      LitsFitBoundDepth(cl[1..], d, m, N);
    }
  }

  /** A literal's atom: the literal with one leading negation glyph removed. */
  function AtomOf(l: string): string {
    if |l| > 0 && l[0] == Neg then l[1..] else l
  }

  /** No two literals of the clause have the same atom. */
  ghost predicate NoRepeatedAtoms(lits: seq<string>) {
    forall j, k :: 0 <= j < k < |lits| ==> AtomOf(lits[j]) != AtomOf(lits[k])
  }

  /** The atom of a signed atom's text is the atom's text. */
  lemma {:induction false} AtomOfShowLit(l: GenLit)
    ensures AtomOf(ShowLit(l)) == ShowAtom(l.atom)
  {
    if l.negative {
      assert ([Neg] + ShowAtom(l.atom))[1..] == ShowAtom(l.atom);
    }
  }

  // ---------------------------------------------------------------------------
  // Draws

  /** `randint(lo, hi)` answered by draw pos. */
  function RandInt(g: Draws, pos: nat, lo: int, hi: int): (n: int)
    requires lo <= hi
    ensures lo <= n <= hi
  {
    lo + g.ints(pos) % (hi - lo + 1)
  }

  /** `rnd_sign` on draw pos: a negative sign when random() < 0.5. */
  function RndSign(g: Draws, pos: nat): bool {
    g.units(pos) < 0.5
  }

  /** `rnd_propositional_atom` on draw pos. */
  function RndPropositionalAtom(N: nat, g: Draws, pos: nat): string
    requires N >= 1
  {
    "A" + NatToString(RandInt(g, pos, 1, N))
  }

  /** `rnd_box` on draw pos. */
  function RndBox(m: nat, g: Draws, pos: nat): string
    requires m >= 1
  {
    [BoxGlyph] + NatToString(RandInt(g, pos, 1, m))
  }

  // ---------------------------------------------------------------------------
  // Weighted choice

  /** The running total of the first k weights of a row. */
  function Cum(w: seq<nat>, k: nat): nat
    requires k <= |w|
  {
    if k == 0 then 0 else Cum(w, k - 1) + w[k - 1]
  }

  /** The total of a weight row. */
  function Sum(w: seq<nat>): nat {
    Cum(w, |w|)
  }

  /** Index i is where the running total of the weights first reaches r. */
  ghost predicate Chosen(w: seq<nat>, r: real, i: nat) {
    i < |w| && r <= Cum(w, i + 1) as real && forall j :: 1 <= j <= i ==> r > Cum(w, j) as real
  }

  /** `random() * total` on draw pos, the target the running total of row w must reach. */
  function Target(g: Draws, pos: nat, w: seq<nat>): real {
    g.units(pos) * Sum(w) as real
  }

  lemma {:induction false} TargetInRow(g: Draws, pos: nat, w: seq<nat>)
    requires ValidDraws(g) && Sum(w) > 0
    ensures 0.0 <= Target(g, pos, w) < Sum(w) as real
  {
    var u := g.units(pos);
    var total := Sum(w) as real;
    assert 0.0 <= u < 1.0 && total > 0.0;
    ScaleBelow(u, total);
    assert Target(g, pos, w) == u * total;
  }

  /** A fraction in [0, 1) of a positive amount stays below the amount. */
  lemma ScaleBelow(u: real, s: real)
    requires 0.0 <= u < 1.0 && s > 0.0
    ensures 0.0 <= u * s < s
  {
    assert s - u * s == (1.0 - u) * s;
  }

  /** Where the walk over the running total of the weights, started at index i, stops: the first index whose running total reaches r, or |w|. */
  function FirstReach(w: seq<nat>, r: real, i: nat): (k: nat)
    requires i <= |w|
    ensures i <= k <= |w|
    decreases |w| - i
  {
    if i == |w| || r <= Cum(w, i + 1) as real then i else FirstReach(w, r, i + 1)
  }

  /**
    The weighted-choice loop shared by `rnd_length` and `rnd_propnum`: walk the running total of
    the weights until it reaches r. With 0 <= r < total the walk always stops inside the row, so
    the fallback after the source's loops is never taken with exact arithmetic.
   */
  method Pick(w: seq<nat>, r: real) returns (i: nat)
    requires 0.0 <= r < Sum(w) as real
    ensures Chosen(w, r, i) && i == FirstReach(w, r, 0)
  {
    var cumulative := 0;
    i := 0;
    while i < |w|
      invariant i <= |w|
      invariant cumulative == Cum(w, i)
      invariant forall j :: 1 <= j <= i ==> r > Cum(w, j) as real
      invariant FirstReach(w, r, i) == FirstReach(w, r, 0)
    {
      cumulative := cumulative + w[i];
      if r <= cumulative as real {
        return;
      }
      i := i + 1;
    }
    assert false;
  }

  /** `rnd_length` on the draws from pos: the clause length and the cursor after it. */
  function LengthDraw(d: nat, C: seq<seq<nat>>, g: Draws, pos: nat): (nat, nat) {
    if d >= |C| then (3, pos)
    else if Sum(C[d]) == 0 then (|C[d]|, pos)
    else (FirstReach(C[d], Target(g, pos, C[d]), 0) + 1, pos + 1)
  }

  /** `rnd_length`: the clause length drawn from row d of the length table. */
  method RndLength(d: nat, C: seq<seq<nat>>, g: Draws, pos: nat) returns (k: nat, pos': nat)
    requires ValidDraws(g)
    ensures (k, pos') == LengthDraw(d, C, g, pos)
    ensures d >= |C| ==> k == 3 && pos' == pos
    ensures d < |C| && Sum(C[d]) == 0 ==> k == |C[d]| && pos' == pos
    ensures d < |C| && Sum(C[d]) > 0 ==>
      pos' == pos + 1 && k >= 1 && Chosen(C[d], Target(g, pos, C[d]), k - 1)
  {
    if d >= |C| {
      return 3, pos;
    }
    var dist := C[d];
    var total := Sum(dist);
    if total == 0 {
      return |dist|, pos;
    }
    TargetInRow(g, pos, dist);
    var i := Pick(dist, Target(g, pos, dist));
    return i + 1, pos + 1;
  }

  /** A result paired with the cursor after it; a fault alone. */
  function WithCursor<T>(r: Result<T, Fault>, pos: nat): Result<(T, nat), Fault> {
    if r.Ok? then Ok((r.value, pos)) else Err(r.error)
  }

  /** `rnd_propnum` on the draws from pos: the propositional count and the cursor after it. */
  function PropnumDraw(d: nat, p: seq<seq<seq<nat>>>, K: nat, g: Draws, pos: nat): Result<(nat, nat), Fault> {
    if d >= |p| || K - 1 >= |p[d]| then Ok((0, pos))
    else if K == 0 && |p[d]| == 0 then Err(IndexOutOfRange)
    else
      var row := p[d][if K >= 1 then K - 1 else |p[d]| - 1];
      if Sum(row) == 0 then Ok((0, pos)) else Ok((FirstReach(row, Target(g, pos, row), 0), pos + 1))
  }

  /** `rnd_propnum`: the number of propositional literals, drawn from row K - 1 of table p[d]. */
  method RndPropnum(d: nat, p: seq<seq<seq<nat>>>, K: nat, g: Draws, pos: nat) returns (r: Result<nat, Fault>, pos': nat)
    requires ValidDraws(g)
    ensures WithCursor(r, pos') == PropnumDraw(d, p, K, g, pos)
    ensures d >= |p| || K - 1 >= |p[d]| ==> r == Ok(0) && pos' == pos
    ensures d < |p| && K == 0 && |p[d]| == 0 <==> r.Err?
    ensures d < |p| && K - 1 < |p[d]| && (K >= 1 || |p[d]| > 0) ==>
      // Python's index -1 is the last row
      var row := p[d][if K >= 1 then K - 1 else |p[d]| - 1];
      && (Sum(row) == 0 ==> r == Ok(0) && pos' == pos)
      && (Sum(row) > 0 ==> pos' == pos + 1 && r.Ok? && Chosen(row, Target(g, pos, row), r.value))
  {
    if d >= |p| {
      return Ok(0), pos;
    }
    var depthDist := p[d];
    if K - 1 >= |depthDist| {
      return Ok(0), pos;
    }
    if K == 0 && |depthDist| == 0 {
      return Err(IndexOutOfRange), pos;
    }
    var lengthDist := depthDist[if K >= 1 then K - 1 else |depthDist| - 1];
    var total := Sum(lengthDist);
    if total == 0 {
      return Ok(0), pos;
    }
    TargetInRow(g, pos, lengthDist);
    var i := Pick(lengthDist, Target(g, pos, lengthDist));
    return Ok(i), pos + 1;
  }

  // ---------------------------------------------------------------------------
  // Atoms and clauses as functions of the draws
  //
  // Each builder is specified by a function of the draw stream and the cursor: the structure it
  // builds and the cursor after its draws, or the fault it raises. The methods further down are
  // proved to compute exactly these; the lemmas here say what the functions promise.

  /** The n propositional literals of an attempt, two draws each: the variable, then the sign. */
  function PropLits(N: nat, g: Draws, pos: nat, n: nat): (lits: seq<GenLit>)
    requires N >= 1
    ensures |lits| == n
  {
    if n == 0 then []
    else PropLits(N, g, pos, n - 1) + [GenLit(RndSign(g, pos + 2 * n - 1), Var(RandInt(g, pos + 2 * n - 2, 1, N)))]
  }

  /** `rnd_atom` on the draws from pos: a variable at depth 0, else the box drawn at pos around a clause one level down. */
  ghost function AtomDraw(d: nat, cfg: Config, g: Draws, pos: nat): Result<(GenAtom, nat), Fault>
    requires cfg.Valid()
    decreases d, 0, 0
  {
    if d == 0 then Ok((Var(RandInt(g, pos, 1, cfg.N)), pos + 1))
    else
      match Clause(d - 1, cfg, g, pos + 1)
      case Err(e) => Err(e)
      case Ok((lits, p1)) => Ok((Boxed(RandInt(g, pos, 1, cfg.m), lits), p1))
  }

  /** The n modal literals of an attempt: each an `rnd_atom`, then a sign draw. */
  ghost function ModalLits(d: nat, cfg: Config, g: Draws, pos: nat, n: nat): Result<(seq<GenLit>, nat), Fault>
    requires cfg.Valid()
    decreases d, 1, n
  {
    if n == 0 then Ok(([], pos))
    else
      match ModalLits(d, cfg, g, pos, n - 1)
      case Err(e) => Err(e)
      case Ok((lits, p1)) =>
        match AtomDraw(d, cfg, g, p1)
        case Err(e) => Err(e)
        case Ok((a, p2)) => Ok((lits + [GenLit(RndSign(g, p2), a)], p2 + 1))
  }

  /** One attempt of `rnd_clause`: a length K, a count P, P propositional literals, then K - P modal ones (none when P >= K). */
  ghost function Attempt(d: nat, cfg: Config, g: Draws, pos: nat): Result<(seq<GenLit>, nat), Fault>
    requires cfg.Valid()
    decreases d, 2, 0
  {
    var (K, p1) := LengthDraw(d, cfg.C, g, pos);
    match PropnumDraw(d, cfg.p, K, g, p1)
    case Err(e) => Err(e)
    case Ok((P, p2)) =>
      match ModalLits(d, cfg, g, p2 + 2 * P, if P <= K then K - P else 0)
      case Err(e) => Err(e)
      case Ok((modal, p3)) => Ok((PropLits(cfg.N, g, p2, P) + modal, p3))
  }

  /** `rnd_clause` from attempt number `attempt` on: the first attempt without a repeated atom, or attempt 99. */
  ghost function ClauseFrom(d: nat, cfg: Config, g: Draws, pos: nat, attempt: nat): Result<(seq<GenLit>, nat), Fault>
    requires cfg.Valid() && attempt < 100
    decreases d, 3, 100 - attempt
  {
    match Attempt(d, cfg, g, pos)
    case Err(e) => Err(e)
    case Ok((lits, p1)) =>
      if NoRepeatedAtoms(ShowLits(lits)) || attempt == 99 then Ok((lits, p1))
      else ClauseFrom(d, cfg, g, p1, attempt + 1)
  }

  /** `rnd_clause` on the draws from pos: the literals of the returned attempt in drawn order, and the cursor after it. */
  ghost function Clause(d: nat, cfg: Config, g: Draws, pos: nat): Result<(seq<GenLit>, nat), Fault>
    requires cfg.Valid()
    decreases d, 4, 0
  {
    ClauseFrom(d, cfg, g, pos, 0)
  }

  /** Attempt i of `rnd_clause` from pos, each attempt starting where the one before it stopped. */
  ghost function AttemptAt(d: nat, cfg: Config, g: Draws, pos: nat, i: nat): Result<(seq<GenLit>, nat), Fault>
    requires cfg.Valid()
    decreases i
  {
    if i == 0 then Attempt(d, cfg, g, pos)
    else
      match Attempt(d, cfg, g, pos)
      case Err(e) => Err(e)
      case Ok((_, p1)) => AttemptAt(d, cfg, g, p1, i - 1)
  }

  /** An attempt that completed with no repeated atom. */
  ghost predicate Passes(a: Result<(seq<GenLit>, nat), Fault>) {
    a.Ok? && NoRepeatedAtoms(ShowLits(a.value.0))
  }

  /**
    Attempt i is where a run of at most last + 1 attempts stops: every earlier attempt completed
    with a repeated atom, and attempt i has none unless it is attempt number `last`.
   */
  ghost predicate FirstPassing(d: nat, cfg: Config, g: Draws, pos: nat, i: nat, last: nat)
    requires cfg.Valid()
  {
    && i <= last
    && (Passes(AttemptAt(d, cfg, g, pos, i)) || i == last)
    && forall j :: 0 <= j < i ==> AttemptAt(d, cfg, g, pos, j).Ok? && !Passes(AttemptAt(d, cfg, g, pos, j))
  }

  lemma {:induction false} ClauseFromPasses(d: nat, cfg: Config, g: Draws, pos: nat, a: nat)
    requires cfg.Valid() && a < 100 && ClauseFrom(d, cfg, g, pos, a).Ok?
    ensures exists i: nat :: FirstPassing(d, cfg, g, pos, i, 99 - a) && AttemptAt(d, cfg, g, pos, i) == ClauseFrom(d, cfg, g, pos, a)
    decreases 100 - a
  {
    var (lits, p1) := Attempt(d, cfg, g, pos).value;
    assert AttemptAt(d, cfg, g, pos, 0) == Attempt(d, cfg, g, pos);
    if NoRepeatedAtoms(ShowLits(lits)) || a == 99 {
      assert AttemptAt(d, cfg, g, pos, 0) == ClauseFrom(d, cfg, g, pos, a);
    } else {
      ClauseFromPasses(d, cfg, g, p1, a + 1);
      var i: nat :| FirstPassing(d, cfg, g, p1, i, 99 - (a + 1)) && AttemptAt(d, cfg, g, p1, i) == ClauseFrom(d, cfg, g, p1, a + 1);
      assert AttemptAt(d, cfg, g, pos, i + 1) == AttemptAt(d, cfg, g, p1, i);
      forall j | 0 <= j < i + 1
        ensures AttemptAt(d, cfg, g, pos, j).Ok? && !Passes(AttemptAt(d, cfg, g, pos, j))
      {
        if j > 0 {
          assert AttemptAt(d, cfg, g, pos, j) == AttemptAt(d, cfg, g, p1, j - 1);
        }
      }
      assert FirstPassing(d, cfg, g, pos, i + 1, 99 - a);
    }
  }

  /**
    The retry rule of `rnd_clause`: the clause returned is attempt i of the chain of attempts, where
    every earlier attempt had a repeated atom, and attempt i has none unless it is the 100th.
   */
  lemma {:induction false} ClauseFirstPassing(d: nat, cfg: Config, g: Draws, pos: nat)
    requires cfg.Valid() && Clause(d, cfg, g, pos).Ok?
    ensures exists i: nat :: FirstPassing(d, cfg, g, pos, i, 99) && AttemptAt(d, cfg, g, pos, i) == Clause(d, cfg, g, pos)
  {
    ClauseFromPasses(d, cfg, g, pos, 0);
  }

  lemma {:induction false} LitsFitAppend(a: seq<GenLit>, b: seq<GenLit>, d: nat, m: nat, N: nat)
    requires LitsFit(a, d, m, N) && LitsFit(b, d, m, N)
    ensures LitsFit(a + b, d, m, N)
  {
    forall i | 0 <= i < |a + b|
      ensures AtomFits((a + b)[i].atom, d, m, N)
    {
      if i < |a| {
        assert (a + b)[i] == a[i];
      } else {
        assert (a + b)[i] == b[i - |a|];
      }
    }
  }

  /** The propositional literals fit at any depth and are all variables. */
  lemma {:induction false} PropLitsFit(N: nat, g: Draws, pos: nat, n: nat, d: nat, m: nat)
    requires N >= 1
    ensures LitsFit(PropLits(N, g, pos, n), d, m, N)
    ensures forall i :: 0 <= i < n ==> PropLits(N, g, pos, n)[i].atom.Var?
  {
    if n > 0 {
      PropLitsFit(N, g, pos, n - 1, d, m);
      var last := GenLit(RndSign(g, pos + 2 * n - 1), Var(RandInt(g, pos + 2 * n - 2, 1, N)));
      assert LitsFit([last], d, m, N);
      LitsFitAppend(PropLits(N, g, pos, n - 1), [last], d, m, N);
    }
  }

  /** An atom drawn for depth d fits depth d, and is a variable exactly at depth 0. */
  lemma {:induction false} AtomDrawFits(d: nat, cfg: Config, g: Draws, pos: nat)
    requires cfg.Valid()
    ensures AtomDraw(d, cfg, g, pos).Ok? ==>
      AtomFits(AtomDraw(d, cfg, g, pos).value.0, d, cfg.m, cfg.N) && (AtomDraw(d, cfg, g, pos).value.0.Var? <==> d == 0)
    decreases d, 0, 0
  {
    if d > 0 {
      ClauseFits(d - 1, cfg, g, pos + 1);
    }
  }

  lemma {:induction false} ModalLitsFit(d: nat, cfg: Config, g: Draws, pos: nat, n: nat)
    requires cfg.Valid()
    ensures ModalLits(d, cfg, g, pos, n).Ok? ==>
      var lits := ModalLits(d, cfg, g, pos, n).value.0;
      |lits| == n && LitsFit(lits, d, cfg.m, cfg.N) && forall i :: 0 <= i < n ==> (lits[i].atom.Var? <==> d == 0)
    decreases d, 1, n
  {
    if n > 0 && ModalLits(d, cfg, g, pos, n).Ok? {
      ModalLitsFit(d, cfg, g, pos, n - 1);
      var (lits, p1) := ModalLits(d, cfg, g, pos, n - 1).value;
      AtomDrawFits(d, cfg, g, p1);
      var (a, p2) := AtomDraw(d, cfg, g, p1).value;
      assert LitsFit([GenLit(RndSign(g, p2), a)], d, cfg.m, cfg.N);
      LitsFitAppend(lits, [GenLit(RndSign(g, p2), a)], d, cfg.m, cfg.N);
    }
  }

  /**
    The shape of an attempt: max(K, P) literals for the drawn K and P, all fitting depth d; the
    first P are variables, and the rest are variables exactly at depth 0.
   */
  lemma {:induction false} AttemptShape(d: nat, cfg: Config, g: Draws, pos: nat)
    requires cfg.Valid()
    ensures Attempt(d, cfg, g, pos).Ok? ==>
      var (K, p1) := LengthDraw(d, cfg.C, g, pos);
      PropnumDraw(d, cfg.p, K, g, p1).Ok? &&
      var P := PropnumDraw(d, cfg.p, K, g, p1).value.0;
      var lits := Attempt(d, cfg, g, pos).value.0;
      |lits| == (if P <= K then K else P) && LitsFit(lits, d, cfg.m, cfg.N)
      && forall i :: 0 <= i < |lits| ==> (lits[i].atom.Var? <==> i < P || d == 0)
    decreases d, 2, 0
  {
    var (K, p1) := LengthDraw(d, cfg.C, g, pos);
    if Attempt(d, cfg, g, pos).Ok? {
      var (P, p2) := PropnumDraw(d, cfg.p, K, g, p1).value;
      var n := if P <= K then K - P else 0;
      ModalLitsFit(d, cfg, g, p2 + 2 * P, n);
      PropLitsFit(cfg.N, g, p2, P, d, cfg.m);
      var props := PropLits(cfg.N, g, p2, P);
      var modal := ModalLits(d, cfg, g, p2 + 2 * P, n).value.0;
      LitsFitAppend(props, modal, d, cfg.m, cfg.N);
      forall i | 0 <= i < |props + modal|
        ensures (props + modal)[i].atom.Var? <==> i < P || d == 0
      {
        if i < P {
          assert (props + modal)[i] == props[i];
        } else {
          assert (props + modal)[i] == modal[i - P];
        }
      }
    }
  }

  lemma {:induction false} ClauseFromFits(d: nat, cfg: Config, g: Draws, pos: nat, a: nat)
    requires cfg.Valid() && a < 100
    ensures ClauseFrom(d, cfg, g, pos, a).Ok? ==> LitsFit(ClauseFrom(d, cfg, g, pos, a).value.0, d, cfg.m, cfg.N)
    decreases d, 3, 100 - a
  {
    AttemptShape(d, cfg, g, pos);
    if Attempt(d, cfg, g, pos).Ok? && a < 99 {
      ClauseFromFits(d, cfg, g, Attempt(d, cfg, g, pos).value.1, a + 1);
    }
  }

  /** A clause drawn for depth d has variables in [1, N], boxes in [1, m], and boxes nested at most d deep. */
  lemma {:induction false} ClauseFits(d: nat, cfg: Config, g: Draws, pos: nat)
    requires cfg.Valid()
    ensures Clause(d, cfg, g, pos).Ok? ==> LitsFit(Clause(d, cfg, g, pos).value.0, d, cfg.m, cfg.N)
    decreases d, 4, 0
  {
    ClauseFromFits(d, cfg, g, pos, 0);
  }

  // ---------------------------------------------------------------------------
  // The builders

  /** `rnd_atom`: a propositional atom at depth 0, otherwise a box around a clause built one level down. */
  method RndAtom(d: nat, cfg: Config, g: Draws, pos: nat) returns (r: Result<string, Fault>, pos': nat)
    requires cfg.Valid() && ValidDraws(g)
    ensures r.Ok? <==> AtomDraw(d, cfg, g, pos).Ok?
    ensures r.Ok? ==> r.value == ShowAtom(AtomDraw(d, cfg, g, pos).value.0) && pos' == AtomDraw(d, cfg, g, pos).value.1
    decreases d, 0
  {
    if d == 0 {
      return Ok(RndPropositionalAtom(cfg.N, g, pos)), pos + 1;
    }
    var box := RndBox(cfg.m, g, pos);
    var clause;
    clause, pos' := RndClause(d - 1, cfg, g, pos + 1);
    if clause.Err? {
      return Err(clause.error), pos';
    }
    r := Ok(box + "(" + clause.value + ")");
  }

  /** `no_repeated_atoms_in`: whether no two literals share an atom. */
  method NoRepeatedAtomsIn(clause: seq<string>) returns (ok: bool)
    ensures ok <==> NoRepeatedAtoms(clause)
  {
    var atoms: set<string> := {};
    for i := 0 to |clause|
      invariant atoms == set j | 0 <= j < i :: AtomOf(clause[j])
      invariant forall j, k :: 0 <= j < k < i ==> AtomOf(clause[j]) != AtomOf(clause[k])
    {
      var atom := AtomOf(clause[i]);
      if atom in atoms {
        return false;
      }
      atoms := atoms + {atom};
    }
    return true;
  }

  /**
    `rnd_clause`: up to 100 attempts; the first attempt without a repeated atom is returned, and
    if none succeeds, the last attempt is returned.
   */
  method RndClause(d: nat, cfg: Config, g: Draws, pos: nat) returns (r: Result<string, Fault>, pos': nat)
    requires cfg.Valid() && ValidDraws(g)
    ensures r.Ok? <==> Clause(d, cfg, g, pos).Ok?
    ensures r.Ok? ==> r.value == ShowClause(Clause(d, cfg, g, pos).value.0) && pos' == Clause(d, cfg, g, pos).value.1
    decreases d, 3
  {
    var attempts := 0;
    var clause: seq<string> := [];
    ghost var lits: seq<GenLit> := [];
    var cur := pos;
    while attempts < 100
      invariant 0 <= attempts <= 100
      invariant attempts < 100 ==> Clause(d, cfg, g, pos) == ClauseFrom(d, cfg, g, cur, attempts)
      invariant attempts == 100 ==> Clause(d, cfg, g, pos) == Ok((lits, cur)) && clause == ShowLits(lits)
    {
      var attempt, next := RndAttempt(d, cfg, g, cur);
      if attempt.Err? {
        return Err(attempt.error), next;
      }
      lits := Attempt(d, cfg, g, cur).value.0;
      clause := attempt.value;
      var ok := NoRepeatedAtomsIn(clause);
      if ok {
        return Ok(Join(OrSep, SortStrings(clause))), next;
      }
      cur := next;
      attempts := attempts + 1;
    }
    return Ok(Join(OrSep, SortStrings(clause))), cur;
  }

  /** One attempt of `rnd_clause`: a length K, a count P, P propositional literals, then the literals from P up to K built by `rnd_atom`. */
  method RndAttempt(d: nat, cfg: Config, g: Draws, pos: nat) returns (r: Result<seq<string>, Fault>, pos': nat)
    requires cfg.Valid() && ValidDraws(g)
    ensures r.Ok? <==> Attempt(d, cfg, g, pos).Ok?
    ensures r.Ok? ==> r.value == ShowLits(Attempt(d, cfg, g, pos).value.0) && pos' == Attempt(d, cfg, g, pos).value.1
    decreases d, 2
  {
    var length, pos1 := RndLength(d, cfg.C, g, pos);
    var propnum, pos2 := RndPropnum(d, cfg.p, length, g, pos1);
    if propnum.Err? {
      assert PropnumDraw(d, cfg.p, length, g, pos1).Err?;
      assert Attempt(d, cfg, g, pos).Err?;
      return Err(propnum.error), pos2;
    }
    var props := propnum.value;
    AttemptNext(d, cfg, g, pos, length, pos1, props, pos2);
    var clause, pos3 := DrawPropositional(cfg.N, g, pos2, props);
    var n := if props <= length then length - props else 0;
    var fault, modal, pos4 := DrawModal(d, cfg, g, pos3, n);
    if fault.Some? {
      return Err(fault.value), pos4;
    }
    ghost var modalLits := ModalLits(d, cfg, g, pos3, n).value.0;
    assert Attempt(d, cfg, g, pos) == Ok((PropLits(cfg.N, g, pos2, props) + modalLits, pos4));
    ShowLitsAppend(PropLits(cfg.N, g, pos2, props), modalLits);
    return Ok(clause + modal), pos4;
  }

  /** An attempt once its length K and its count P are drawn: P propositional literals, then the modal ones. */
  lemma {:induction false} AttemptNext(d: nat, cfg: Config, g: Draws, pos: nat, K: nat, p1: nat, P: nat, p2: nat)
    requires cfg.Valid() && LengthDraw(d, cfg.C, g, pos) == (K, p1) && PropnumDraw(d, cfg.p, K, g, p1) == Ok((P, p2))
    ensures var modal := ModalLits(d, cfg, g, p2 + 2 * P, if P <= K then K - P else 0);
      && (modal.Err? ==> Attempt(d, cfg, g, pos).Err?)
      && (modal.Ok? ==> Attempt(d, cfg, g, pos) == Ok((PropLits(cfg.N, g, p2, P) + modal.value.0, modal.value.1)))
  {
  }

  /** The first loop of an attempt: n propositional literals. */
  method DrawPropositional(N: nat, g: Draws, pos: nat, n: nat) returns (clause: seq<string>, pos': nat)
    requires N >= 1
    ensures clause == ShowLits(PropLits(N, g, pos, n)) && pos' == pos + 2 * n
  {
    clause, pos' := [], pos;
    for j := 0 to n
      invariant clause == ShowLits(PropLits(N, g, pos, j)) && pos' == pos + 2 * j
    {
      var atom := RndPropositionalAtom(N, g, pos');
      var sign := RndSign(g, pos' + 1);
      ShowLitsSnoc(PropLits(N, g, pos, j), GenLit(sign, Var(RandInt(g, pos', 1, N))));
      clause := clause + [Signed(sign, atom)];
      pos' := pos' + 2;
    }
  }

  /** The second loop of an attempt: n literals built by `rnd_atom`; a fault of `rnd_atom` ends the attempt. */
  method DrawModal(d: nat, cfg: Config, g: Draws, pos: nat, n: nat) returns (fault: Option<Fault>, clause: seq<string>, pos': nat)
    requires cfg.Valid() && ValidDraws(g)
    ensures fault.None? <==> ModalLits(d, cfg, g, pos, n).Ok?
    ensures fault.None? ==> clause == ShowLits(ModalLits(d, cfg, g, pos, n).value.0) && pos' == ModalLits(d, cfg, g, pos, n).value.1
    decreases d, 1
  {
    clause, pos' := [], pos;
    ghost var lits: seq<GenLit> := [];
    for j := 0 to n
      invariant ModalLits(d, cfg, g, pos, j) == Ok((lits, pos')) && clause == ShowLits(lits)
    {
      var atom, pos1 := RndAtom(d, cfg, g, pos');
      ModalLitsStep(d, cfg, g, pos, j, lits, pos');
      if atom.Err? {
        ModalLitsFailed(d, cfg, g, pos, j + 1, n);
        return Some(atom.error), clause, pos1;
      }
      var sign := RndSign(g, pos1);
      ghost var l := GenLit(sign, AtomDraw(d, cfg, g, pos').value.0);
      ShowLitsSnoc(lits, l);
      clause := clause + [Signed(sign, atom.value)];
      lits := lits + [l];
      pos' := pos1 + 1;
    }
    return None, clause, pos';
  }

  /** One more modal literal: the run faults with `rnd_atom`, or grows by the atom drawn and a sign. */
  lemma {:induction false} ModalLitsStep(d: nat, cfg: Config, g: Draws, pos: nat, n: nat, lits: seq<GenLit>, p: nat)
    requires cfg.Valid() && ModalLits(d, cfg, g, pos, n) == Ok((lits, p))
    ensures AtomDraw(d, cfg, g, p).Err? ==> ModalLits(d, cfg, g, pos, n + 1).Err?
    ensures AtomDraw(d, cfg, g, p).Ok? ==>
      var (a, p2) := AtomDraw(d, cfg, g, p).value;
      ModalLits(d, cfg, g, pos, n + 1) == Ok((lits + [GenLit(RndSign(g, p2), a)], p2 + 1))
  {
  }

  /** Once a modal literal faults, so does every longer run of them. */
  lemma {:induction false} ModalLitsFailed(d: nat, cfg: Config, g: Draws, pos: nat, k: nat, n: nat)
    requires cfg.Valid() && k <= n && ModalLits(d, cfg, g, pos, k).Err?
    ensures ModalLits(d, cfg, g, pos, n).Err?
    decreases n
  {
    if k < n {
      ModalLitsFailed(d, cfg, g, pos, k, n - 1);
    }
  }

  lemma {:induction false} ShowLitsSnoc(cl: seq<GenLit>, l: GenLit)
    ensures ShowLits(cl + [l]) == ShowLits(cl) + [ShowLit(l)]
    decreases |cl|
  {
    if cl == [] {
      assert [l][1..] == [];
    } else {
      assert (cl + [l])[1..] == cl[1..] + [l];
      ShowLitsSnoc(cl[1..], l);
    }
  }

  lemma {:induction false} ShowLitsAppend(a: seq<GenLit>, b: seq<GenLit>)
    ensures ShowLits(a + b) == ShowLits(a) + ShowLits(b)
    decreases |a|
  {
    if a == [] {
      assert a + b == b;
    } else {
      assert (a + b)[1..] == a[1..] + b;
      ShowLitsAppend(a[1..], b);
    }
  }

  // ---------------------------------------------------------------------------
  // Formulas

  predicate Distinct(xs: seq<string>) {
    forall i, j :: 0 <= i < j < |xs| ==> xs[i] != xs[j]
  }

  /** The first occurrence of each element, in order of first occurrence. */
  function Nub(xs: seq<string>): (r: seq<string>)
    ensures Distinct(r) && |r| <= |xs|
    ensures forall x :: x in r <==> x in xs
  {
    if xs == [] then []
    else
      var rest := Nub(xs[..|xs| - 1]);
      if xs[|xs| - 1] in rest then rest else rest + [xs[|xs| - 1]]
  }

  lemma {:induction false} NubSnoc(xs: seq<string>, x: string)
    ensures Nub(xs + [x]) == if x in Nub(xs) then Nub(xs) else Nub(xs) + [x]
  {
    assert (xs + [x])[..|xs|] == xs;
  }

  /** No proper prefix of the clauses drawn already held L distinct ones: the loop of `rnd_CNF` did not stop before. */
  ghost predicate NoEarlierStop(drawn: seq<string>, L: int) {
    forall k :: 0 <= k < |drawn| ==> |Nub(drawn[..k])| < L
  }

  lemma {:induction false} NoEarlierStopSnoc(drawn: seq<string>, x: string, L: int)
    requires NoEarlierStop(drawn, L) && |Nub(drawn)| < L
    ensures NoEarlierStop(drawn + [x], L)
  {
    forall k | 0 <= k < |drawn| + 1
      ensures |Nub((drawn + [x])[..k])| < L
    {
      if k < |drawn| {
        assert (drawn + [x])[..k] == drawn[..k];
      } else {
        assert (drawn + [x])[..k] == drawn;
      }
    }
  }

  /** `is_new`: the clause is not among those already kept. */
  function IsNew(clause: string, existing: seq<string>): bool {
    clause !in existing
  }

  /** The texts of clauses given by their structure. */
  function Texts(cs: seq<seq<GenLit>>): (ts: seq<string>)
    ensures |ts| == |cs|
  {
    if cs == [] then [] else Texts(cs[..|cs| - 1]) + [ShowClause(cs[|cs| - 1])]
  }

  lemma {:induction false} TextsSnoc(cs: seq<seq<GenLit>>, c: seq<GenLit>)
    ensures Texts(cs + [c]) == Texts(cs) + [ShowClause(c)]
  {
    assert (cs + [c])[..|cs|] == cs;
  }

  /** n successive calls of `rnd_clause`, each starting where the one before it stopped. */
  ghost function ClauseRun(d: nat, cfg: Config, g: Draws, pos: nat, n: nat): Result<(seq<seq<GenLit>>, nat), Fault>
    requires cfg.Valid()
  {
    if n == 0 then Ok(([], pos))
    else
      match ClauseRun(d, cfg, g, pos, n - 1)
      case Err(e) => Err(e)
      case Ok((cs, p1)) =>
        match Clause(d, cfg, g, p1)
        case Err(e) => Err(e)
        case Ok((lits, p2)) => Ok((cs + [lits], p2))
  }

  /** `rnd_CNF` from a state of its loop: the clauses kept so far and the number drawn. */
  ghost function CNFFrom(d: nat, L: int, cfg: Config, g: Draws, pos: nat, kept: seq<seq<GenLit>>, attempts: nat)
    : Result<(seq<seq<GenLit>>, nat), Fault>
    requires cfg.Valid()
    decreases L * 10 - attempts
  {
    if |kept| < L && attempts < L * 10 then
      match Clause(d, cfg, g, pos)
      case Err(e) => Err(e)
      case Ok((lits, p1)) =>
        CNFFrom(d, L, cfg, g, p1, if IsNew(ShowClause(lits), Texts(kept)) then kept + [lits] else kept, attempts + 1)
    else Ok((kept, pos))
  }

  /** `rnd_CNF` on the draws from pos: the structures of the kept clauses and the cursor after them. */
  ghost function CNF(d: nat, L: int, cfg: Config, g: Draws, pos: nat): Result<(seq<seq<GenLit>>, nat), Fault>
    requires cfg.Valid()
  {
    CNFFrom(d, L, cfg, g, pos, [], 0)
  }

  /** Clauses kept by `rnd_CNF`: distinct texts, at most L of them, each fitting depth d. */
  ghost predicate KeptShape(kept: seq<seq<GenLit>>, d: nat, L: int, cfg: Config) {
    && Distinct(Texts(kept)) && |kept| <= (if L > 0 then L else 0)
    && forall i :: 0 <= i < |kept| ==> LitsFit(kept[i], d, cfg.m, cfg.N)
  }

  lemma {:induction false} KeptShapeSnoc(kept: seq<seq<GenLit>>, lits: seq<GenLit>, d: nat, L: int, cfg: Config)
    requires KeptShape(kept, d, L, cfg) && |kept| < L && LitsFit(lits, d, cfg.m, cfg.N)
    requires ShowClause(lits) !in Texts(kept)
    ensures KeptShape(kept + [lits], d, L, cfg)
  {
    TextsSnoc(kept, lits);
    var ts := Texts(kept + [lits]);
    forall i, j | 0 <= i < j < |ts|
      ensures ts[i] != ts[j]
    {
      if j == |kept| {
        assert ts[i] in Texts(kept);
      }
    }
    forall i | 0 <= i < |kept| + 1
      ensures LitsFit((kept + [lits])[i], d, cfg.m, cfg.N)
    {
    }
  }

  /** One turn of the loop of `rnd_CNF`, as the function states it. */
  lemma {:induction false} CNFFromNext(d: nat, L: int, cfg: Config, g: Draws, pos: nat, kept: seq<seq<GenLit>>, attempts: nat,
                                       lits: seq<GenLit>, p1: nat)
    requires cfg.Valid() && |kept| < L && attempts < L * 10 && Clause(d, cfg, g, pos) == Ok((lits, p1))
    ensures CNFFrom(d, L, cfg, g, pos, kept, attempts)
         == CNFFrom(d, L, cfg, g, p1, if IsNew(ShowClause(lits), Texts(kept)) then kept + [lits] else kept, attempts + 1)
  {
  }

  lemma {:induction false} CNFFromShape(d: nat, L: int, cfg: Config, g: Draws, pos: nat, kept: seq<seq<GenLit>>, attempts: nat)
    requires cfg.Valid() && KeptShape(kept, d, L, cfg)
    ensures CNFFrom(d, L, cfg, g, pos, kept, attempts).Ok? ==> KeptShape(CNFFrom(d, L, cfg, g, pos, kept, attempts).value.0, d, L, cfg)
    decreases L * 10 - attempts
  {
    if |kept| < L && attempts < L * 10 && Clause(d, cfg, g, pos).Ok? {
      var (lits, p1) := Clause(d, cfg, g, pos).value;
      var kept' := if IsNew(ShowClause(lits), Texts(kept)) then kept + [lits] else kept;
      CNFFromNext(d, L, cfg, g, pos, kept, attempts, lits, p1);
      if kept' != kept {
        ClauseFits(d, cfg, g, pos);
        KeptShapeSnoc(kept, lits, d, L, cfg);
      }
      CNFFromShape(d, L, cfg, g, p1, kept', attempts + 1);
    }
  }

  /** The clauses of a formula are distinct texts, at most L of them (none for L <= 0), each fitting depth d. */
  lemma {:induction false} CNFShape(d: nat, L: int, cfg: Config, g: Draws, pos: nat)
    requires cfg.Valid()
    ensures CNF(d, L, cfg, g, pos).Ok? ==>
      var cs := CNF(d, L, cfg, g, pos).value.0;
      Distinct(Texts(cs)) && (L > 0 ==> |cs| <= L) && (L <= 0 ==> cs == [])
      && forall i :: 0 <= i < |cs| ==> LitsFit(cs[i], d, cfg.m, cfg.N)
  {
    CNFFromShape(d, L, cfg, g, pos, [], 0);
  }

  /**
    The state of the loop of `rnd_CNF` after drawing `drawn` from pos: the draws are |drawn|
    successive clauses ending at cur, the kept clauses are their first occurrences, the loop did
    not stop before, and the rest of the loop computes what `rnd_CNF` computes from pos.
   */
  ghost predicate CNFState(d: nat, L: int, cfg: Config, g: Draws, pos: nat, cur: nat,
                           kept: seq<seq<GenLit>>, run: seq<seq<GenLit>>, drawn: seq<string>, clauses: seq<string>)
    requires cfg.Valid()
  {
    && ClauseRun(d, cfg, g, pos, |drawn|) == Ok((run, cur)) && Texts(run) == drawn
    && clauses == Nub(drawn) && clauses == Texts(kept)
    && CNF(d, L, cfg, g, pos) == CNFFrom(d, L, cfg, g, cur, kept, |drawn|)
    && NoEarlierStop(drawn, L)
  }

  /** One turn of the loop of `rnd_CNF`: one more clause drawn, and kept when new. */
  lemma {:induction false} CNFStep(d: nat, L: int, cfg: Config, g: Draws, pos: nat, cur: nat,
                                   kept: seq<seq<GenLit>>, run: seq<seq<GenLit>>, drawn: seq<string>, clauses: seq<string>,
                                   lits: seq<GenLit>, p1: nat)
    requires cfg.Valid() && |clauses| < L && |drawn| < L * 10
    requires CNFState(d, L, cfg, g, pos, cur, kept, run, drawn, clauses)
    requires Clause(d, cfg, g, cur) == Ok((lits, p1))
    ensures var keep := IsNew(ShowClause(lits), clauses);
      CNFState(d, L, cfg, g, pos, p1, if keep then kept + [lits] else kept, run + [lits], drawn + [ShowClause(lits)],
               if keep then clauses + [ShowClause(lits)] else clauses)
  {
    var c := ShowClause(lits);
    var keep := IsNew(c, clauses);
    var kept' := if keep then kept + [lits] else kept;
    var clauses' := if keep then clauses + [c] else clauses;
    assert ClauseRun(d, cfg, g, pos, |drawn| + 1) == Ok((run + [lits], p1));
    TextsSnoc(run, lits);
    NubSnoc(drawn, c);
    assert clauses' == Nub(drawn + [c]);
    TextsSnoc(kept, lits);
    assert clauses' == Texts(kept');
    assert |Texts(kept)| == |kept|;
    CNFFromNext(d, L, cfg, g, cur, kept, |drawn|, lits, p1);
    NoEarlierStopSnoc(drawn, c, L);
  }

  /**
    `rnd_CNF`: draw clauses until L distinct ones are kept or 10 * L clauses have been drawn.
    `drawn` are the texts of all clauses drawn, in order.
   */
  method RndCNF(d: nat, L: int, cfg: Config, g: Draws, pos: nat)
    returns (r: Result<seq<string>, Fault>, pos': nat, ghost drawn: seq<string>)
    requires cfg.Valid() && ValidDraws(g)
    ensures r.Ok? <==> CNF(d, L, cfg, g, pos).Ok?
    ensures r.Ok? ==> r.value == Texts(CNF(d, L, cfg, g, pos).value.0) && pos' == CNF(d, L, cfg, g, pos).value.1
    ensures r.Ok? ==>
      && ClauseRun(d, cfg, g, pos, |drawn|).Ok?
      && Texts(ClauseRun(d, cfg, g, pos, |drawn|).value.0) == drawn
      && ClauseRun(d, cfg, g, pos, |drawn|).value.1 == pos'
    ensures r.Ok? ==> r.value == Nub(drawn)
    ensures r.Ok? ==> NoEarlierStop(drawn, L)
    ensures r.Ok? && L <= 0 ==> r.value == [] && drawn == [] && pos' == pos
    ensures r.Ok? && L > 0 ==> |r.value| <= L && |drawn| <= 10 * L && (|r.value| == L || |drawn| == 10 * L)
  {
    var clauses: seq<string> := [];
    var attempts := 0;
    var maxAttempts := L * 10;
    var cur := pos;
    drawn := [];
    ghost var kept: seq<seq<GenLit>> := [];
    ghost var run: seq<seq<GenLit>> := [];
    while |clauses| < L && attempts < maxAttempts
      invariant L > 0 ==> |clauses| <= L && attempts <= maxAttempts
      invariant attempts == |drawn| && CNFState(d, L, cfg, g, pos, cur, kept, run, drawn, clauses)
      invariant L <= 0 ==> drawn == [] && cur == pos
    {
      var clause, pos1 := RndClause(d, cfg, g, cur);
      if clause.Err? {
        return Err(clause.error), pos1, drawn;
      }
      ghost var lits := Clause(d, cfg, g, cur).value.0;
      CNFStep(d, L, cfg, g, pos, cur, kept, run, drawn, clauses, lits, pos1);
      if IsNew(clause.value, clauses) {
        clauses := clauses + [clause.value];
        kept := kept + [lits];
      }
      run := run + [lits];
      drawn := drawn + [clause.value];
      cur := pos1;
      attempts := attempts + 1;
    }
    return Ok(clauses), cur, drawn;
  }

  /** Line i of a formula with the given clauses: the clause in parentheses and its connector. */
  function FormulaLine(clauses: seq<string>, i: nat): string
    requires i < |clauses|
  {
    "  (" + clauses[i] + ")" + (if i < |clauses| - 1 then AndMark else ".")
  }

  /** The lines of a formula, one per clause. */
  function FormulaLines(clauses: seq<string>): (ls: seq<string>)
    ensures |ls| == |clauses|
  {
    seq(|clauses|, i requires 0 <= i < |clauses| => FormulaLine(clauses, i))
  }

  /** `format_formula`: one line per clause, joined by newlines; no clauses give the empty text. */
  method FormatFormula(clauses: seq<string>) returns (text: string)
    ensures text == Join("\n", FormulaLines(clauses))
  {
    if |clauses| == 0 {
      return "";
    }
    var lines: seq<string> := [];
    for i := 0 to |clauses|
      invariant lines == FormulaLines(clauses)[..i]
    {
      var connector := if i < |clauses| - 1 then AndMark else ".";
      lines := lines + ["  (" + clauses[i] + ")" + connector];
    }
    assert lines == FormulaLines(clauses);
    text := Join("\n", lines);
  }

  /**
    Reading a formula back line by line: when no clause contains a newline, splitting the text
    at newlines gives back exactly one line per clause.
   */
  lemma {:induction false} FormattedLines(clauses: seq<string>)
    requires |clauses| > 0 && forall i :: 0 <= i < |clauses| ==> '\n' !in clauses[i]
    ensures Split(Join("\n", FormulaLines(clauses)), "\n") == FormulaLines(clauses)
  {
    var ls := FormulaLines(clauses);
    forall i | 0 <= i < |ls|
      ensures '\n' !in ls[i]
    {
      assert ls[i] == FormulaLine(clauses, i);
    }
    SplitJoin(ls, '\n');
  }

  // ---------------------------------------------------------------------------
  // The command

  /** The command's parameter checks, in the order the source makes them. */
  function CheckParams(depth: int, L: int, N: int, m: int): (r: Result<(), string>)
    ensures r.Ok? <==> depth >= 0 && L >= 1 && N >= 1 && m >= 1
    ensures depth < 0 ==> r == Err("depth must be non-negative")
    ensures depth >= 0 && L < 1 ==> r == Err("number of clauses must be at least 1")
  {
    if depth < 0 then Err("depth must be non-negative")
    else if L < 1 then Err("number of clauses must be at least 1")
    else if N < 1 then Err("number of variables must be at least 1")
    else if m < 1 then Err("number of boxes must be at least 1")
    else Ok(())
  }

  /** Why the command stops without output: a rejected parameter, or an error raised while generating. */
  datatype Failure = Rejected(message: string) | Raised(fault: Fault)

  /** n successive formulas, each drawn by `rnd_CNF` where the one before it stopped. */
  ghost function Formulas(d: nat, L: int, cfg: Config, g: Draws, pos: nat, n: nat): Result<(seq<seq<seq<GenLit>>>, nat), Fault>
    requires cfg.Valid()
  {
    if n == 0 then Ok(([], pos))
    else
      match Formulas(d, L, cfg, g, pos, n - 1)
      case Err(e) => Err(e)
      case Ok((fs, p1)) =>
        match CNF(d, L, cfg, g, p1)
        case Err(e) => Err(e)
        case Ok((cs, p2)) => Ok((fs + [cs], p2))
  }

  lemma {:induction false} FormulasFailed(d: nat, L: int, cfg: Config, g: Draws, pos: nat, k: nat, n: nat)
    requires cfg.Valid() && k <= n && Formulas(d, L, cfg, g, pos, k).Err?
    ensures Formulas(d, L, cfg, g, pos, n).Err?
    decreases n
  {
    if k < n {
      FormulasFailed(d, L, cfg, g, pos, k, n - 1);
    }
  }

  lemma {:induction false} FormulasStep(d: nat, L: int, cfg: Config, g: Draws, pos: nat, n: nat,
                                        fs: seq<seq<seq<GenLit>>>, p1: nat, cs: seq<seq<GenLit>>, p2: nat)
    requires cfg.Valid() && Formulas(d, L, cfg, g, pos, n) == Ok((fs, p1)) && CNF(d, L, cfg, g, p1) == Ok((cs, p2))
    ensures Formulas(d, L, cfg, g, pos, n + 1) == Ok((fs + [cs], p2))
  {
  }

  /** Every generated formula has distinct clauses, at most L of them, each fitting depth d. */
  lemma {:induction false} FormulasShape(d: nat, L: int, cfg: Config, g: Draws, pos: nat, n: nat)
    requires cfg.Valid()
    ensures Formulas(d, L, cfg, g, pos, n).Ok? ==>
      var fs := Formulas(d, L, cfg, g, pos, n).value.0;
      |fs| == n && forall i :: 0 <= i < n ==>
        Distinct(Texts(fs[i])) && (L > 0 ==> |fs[i]| <= L) && forall j :: 0 <= j < |fs[i]| ==> LitsFit(fs[i][j], d, cfg.m, cfg.N)
  {
    if n > 0 && Formulas(d, L, cfg, g, pos, n).Ok? {
      FormulasShape(d, L, cfg, g, pos, n - 1);
      var (fs, p1) := Formulas(d, L, cfg, g, pos, n - 1).value;
      CNFShape(d, L, cfg, g, p1);
      var cs := CNF(d, L, cfg, g, p1).value.0;
      forall i | 0 <= i < n
        ensures (fs + [cs])[i] == if i < n - 1 then fs[i] else cs
      {
      }
    }
  }

  /** The text of a formula with the given clause structures, as `format_formula` prints it. */
  function FormulaText(cs: seq<seq<GenLit>>): string {
    Join("\n", FormulaLines(Texts(cs)))
  }

  /** The header of formula i when several are generated. */
  function Header(i: nat): string {
    "=== Formula " + NatToString(i + 1) + " ==="
  }

  /** The lines formula i contributes to the output of `count` formulas. */
  function Block(count: int, i: nat, formula: string): seq<string> {
    (if count > 1 then [Header(i)] else []) + [formula] + (if i < count - 1 then [""] else [])
  }

  /** The output lines of the first |fs| of `count` formulas. */
  function Layout(count: int, fs: seq<seq<seq<GenLit>>>): seq<string> {
    if fs == [] then [] else Layout(count, fs[..|fs| - 1]) + Block(count, |fs| - 1, FormulaText(fs[|fs| - 1]))
  }

  lemma {:induction false} LayoutSnoc(count: int, fs: seq<seq<seq<GenLit>>>, cs: seq<seq<GenLit>>)
    ensures Layout(count, fs + [cs]) == Layout(count, fs) + Block(count, |fs|, FormulaText(cs))
  {
    assert (fs + [cs])[..|fs|] == fs;
  }

  lemma {:induction false} LayoutLength(count: int, fs: seq<seq<seq<GenLit>>>)
    requires count > 1 && |fs| <= count
    ensures |Layout(count, fs)| == 3 * |fs| - (if |fs| == count then 1 else 0)
  {
    if fs != [] {
      LayoutLength(count, fs[..|fs| - 1]);
    }
  }

  lemma {:induction false} LayoutAt(count: int, fs: seq<seq<seq<GenLit>>>, k: nat)
    requires count > 1 && k < |fs| <= count
    ensures 3 * k + 1 < |Layout(count, fs)|
    ensures Layout(count, fs)[3 * k] == Header(k)
    ensures Layout(count, fs)[3 * k + 1] == FormulaText(fs[k])
    ensures 3 * k + 2 < |Layout(count, fs)| ==> Layout(count, fs)[3 * k + 2] == ""
  {
    var n := |fs| - 1;
    var front := fs[..n];
    var F := Layout(count, front);
    var b := Block(count, n, FormulaText(fs[n]));
    var all := Layout(count, fs);
    assert all == F + b;
    LayoutLength(count, front);
    if k < n {
      LayoutAt(count, front, k);
      assert fs[k] == front[k];
      assert all[3 * k] == F[3 * k] && all[3 * k + 1] == F[3 * k + 1];
      assert 3 * k + 2 < |F| && all[3 * k + 2] == F[3 * k + 2];
      assert all[3 * k] == Header(k);
      assert all[3 * k + 1] == FormulaText(fs[k]);
    } else {
      assert k == n;
      assert b[0] == Header(n) && b[1] == FormulaText(fs[n]);
      assert all[3 * k] == b[0] && all[3 * k + 1] == b[1];
      assert |b| == 3 ==> b[2] == "" && all[3 * k + 2] == b[2];
      assert all[3 * k] == Header(k);
      assert all[3 * k + 1] == FormulaText(fs[k]);
    }
  }

  /**
    Reading the output of several formulas: formula k takes lines 3k (its header), 3k + 1 (its
    text) and 3k + 2 (a blank line), except that the last formula has no blank line after it.
   */
  lemma {:induction false} LayoutShape(count: int, fs: seq<seq<seq<GenLit>>>)
    requires count > 1 && |fs| <= count
    ensures |Layout(count, fs)| == 3 * |fs| - (if |fs| == count then 1 else 0)
    ensures forall k :: 0 <= k < |fs| ==>
      && Layout(count, fs)[3 * k] == Header(k)
      && Layout(count, fs)[3 * k + 1] == FormulaText(fs[k])
      && (3 * k + 2 < |Layout(count, fs)| ==> Layout(count, fs)[3 * k + 2] == "")
  {
    LayoutLength(count, fs);
    forall k | 0 <= k < |fs|
      ensures && Layout(count, fs)[3 * k] == Header(k)
              && Layout(count, fs)[3 * k + 1] == FormulaText(fs[k])
              && (3 * k + 2 < |Layout(count, fs)| ==> Layout(count, fs)[3 * k + 2] == "")
    {
      LayoutAt(count, fs, k);
    }
  }

  /** A single formula is printed alone: no header and no blank line. */
  lemma {:induction false} SingleLayout(cs: seq<seq<GenLit>>)
    ensures Layout(1, [cs]) == [FormulaText(cs)]
  {
    LayoutSnoc(1, [], cs);
    assert [] + [cs] == [cs];
  }

  /** One turn of the command's loop: the header when there are several formulas, formula i, and a blank line but after the last. */
  method FormulaBlock(d: nat, L: int, cfg: Config, g: Draws, pos: nat, count: int, i: nat)
    returns (r: Result<seq<string>, Fault>, pos': nat)
    requires cfg.Valid() && ValidDraws(g)
    ensures r.Ok? <==> CNF(d, L, cfg, g, pos).Ok?
    ensures r.Ok? ==> r.value == Block(count, i, FormulaText(CNF(d, L, cfg, g, pos).value.0)) && pos' == CNF(d, L, cfg, g, pos).value.1
  {
    var lines: seq<string> := [];
    if count > 1 {
      lines := lines + [Header(i)];
    }
    assert lines == if count > 1 then [Header(i)] else [];
    var clauses;
    ghost var drawn;
    clauses, pos', drawn := RndCNF(d, L, cfg, g, pos);
    if clauses.Err? {
      return Err(clauses.error), pos';
    }
    var formula := FormatFormula(clauses.value);
    assert formula == FormulaText(CNF(d, L, cfg, g, pos).value.0);
    ghost var head := lines;
    lines := lines + [formula];
    if i < count - 1 {
      lines := lines + [""];
    }
    assert lines == head + [formula] + (if i < count - 1 then [""] else []);
    return Ok(lines), pos';
  }

  /**
    The generation part of the command: check the parameters, then produce `count` formulas,
    each headed by its number when there are several, separated by blank lines.
   */
  method Generate(depth: int, L: int, N: int, m: int, p: seq<seq<seq<nat>>>, C: seq<seq<nat>>, count: int, g: Draws, pos: nat)
    returns (r: Result<string, Failure>, pos': nat)
    requires ValidDraws(g)
    ensures CheckParams(depth, L, N, m).Err? ==> r == Err(Rejected(CheckParams(depth, L, N, m).error)) && pos' == pos
    ensures r.Ok? ==> CheckParams(depth, L, N, m).Ok?
    ensures r.Ok? && count <= 0 ==> r.value == "" && pos' == pos
    ensures CheckParams(depth, L, N, m).Ok? && count >= 1 ==>
      && (r.Ok? <==> Formulas(depth, L, Config(m, N, p, C), g, pos, count).Ok?)
      && (r.Ok? ==> r.value == Join("\n", Layout(count, Formulas(depth, L, Config(m, N, p, C), g, pos, count).value.0))
                    && pos' == Formulas(depth, L, Config(m, N, p, C), g, pos, count).value.1)
      && (r.Err? ==> r.error.Raised?)
  {
    var check := CheckParams(depth, L, N, m);
    if check.Err? {
      return Err(Rejected(check.error)), pos;
    }
    var d: nat := depth;
    var cfg := Config(m, N, p, C);
    var outputLines: seq<string> := [];
    var cur := pos;
    var i: nat := 0;
    ghost var fs: seq<seq<seq<GenLit>>> := [];
    while i < count
      invariant count <= 0 ==> i == 0
      invariant count > 0 ==> i <= count
      invariant |fs| == i
      invariant Formulas(d, L, cfg, g, pos, i) == Ok((fs, cur))
      invariant outputLines == Layout(count, fs)
    {
      var lines, pos1 := FormulaBlock(d, L, cfg, g, cur, count, i);
      if lines.Err? {
        FormulasFailed(d, L, cfg, g, pos, i + 1, count);
        return Err(Raised(lines.error)), pos1;
      }
      ghost var cs := CNF(d, L, cfg, g, cur).value.0;
      FormulasStep(d, L, cfg, g, pos, i, fs, cur, cs, pos1);
      LayoutSnoc(count, fs, cs);
      outputLines := outputLines + lines.value;
      fs := fs + [cs];
      cur := pos1;
      i := i + 1;
    }
    assert count >= 1 ==> i == count;
    return Ok(Join("\n", outputLines)), cur;
  }
}
