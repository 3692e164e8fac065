/**
  The modal formula nodes of the solver: a Box [m]^p φ or a Diamond <m>^p φ with an agent
  (modality) m, a power p and one subformula, plus the S5 mode flag a Diamond carries.

  Every other kind of formula (False, True, atoms, conjunctions, ...) is a leaf of this model:
  what such a node does when it is simplified, negated, printed, flattened, axiom-simplified,
  put into negation normal form or compared is given by the `Foreign` operations, and so is
  the S5 overload of `Box::create`, which is declared but not defined in the sources.

  Nodes are values here. Where the C++ code returns the very object it was called on, the
  functions return that object's (possibly updated) value together with the flag `same`.
 */
module Modal {
  import opened Text

  datatype Formula =
    | Box(modality: int, power: int, sub: Formula)
    | Diamond(modality: int, power: int, sub: Formula, s5: bool)
    | False
    | Other(id: nat)

  /** A formula of a kind outside this model. */
  type Leaf = f: Formula | f.False? || f.Other? witness False

  /** What the formula kinds outside this model do. */
  datatype Foreign = Foreign(
    simplify: Leaf -> (Leaf, bool),
    negate: Leaf -> Leaf,
    show: Leaf -> string,
    flatten: Leaf -> Leaf,
    axiomSimplify: (Leaf, int, int) -> Leaf,
    nnf: Leaf -> Leaf,
    equals: (Leaf, Formula) -> bool,
    createBoxS5: (int, int, Formula, bool) -> Formula)

  /** The S5 `Box::create` builds at most one node over its subformula. */
  ghost predicate Sound(k: Foreign) {
    forall m, p, s, s5 :: Size(k.createBoxS5(m, p, s, s5)) <= 1 + Size(s)
  }

  /** The S5 `Box::create` outside S5 mode is the plain three-argument one. */
  ghost predicate PlainOutsideS5(k: Foreign) {
    forall m, p, s :: k.createBoxS5(m, p, s, false) == CreateBox(m, p, s)
  }

  function Size(f: Formula): nat {
    match f
    case Box(_, _, s) => 1 + Size(s)
    case Diamond(_, _, s, _) => 1 + Size(s)
    case _ => 1
  }

  // ---------------------------------------------------------------------------
  // Construction

  /** The Box constructor: a Box of the same modality directly inside is merged by adding powers. */
  function MkBox(m: int, p: int, sub: Formula): (r: Formula)
    ensures r.Box? && r.modality == m && Size(r) <= 1 + Size(sub)
    ensures r.power == p + (if sub.Box? && sub.modality == m then sub.power else 0)
  {
    if sub.Box? && sub.modality == m then Box(m, p + sub.power, sub.sub) else Box(m, p, sub)
  }

  /** Both Diamond constructors: a Diamond of the same modality directly inside is merged. */
  function MkDiamond(m: int, p: int, sub: Formula, s5: bool): (r: Formula)
    ensures r.Diamond? && r.modality == m && r.s5 == s5 && Size(r) <= 1 + Size(sub)
    ensures r.power == p + (if sub.Diamond? && sub.modality == m then sub.power else 0)
  {
    if sub.Diamond? && sub.modality == m then Diamond(m, p + sub.power, sub.sub, s5) else Diamond(m, p, sub, s5)
  }

  /** `Box::create(m, p, φ)`: power 0 gives φ itself. */
  function CreateBox(m: int, p: int, sub: Formula): (r: Formula)
    ensures Size(r) <= 1 + Size(sub)
    ensures p == 0 <==> r == sub
  {
    if p == 0 then sub else MkBox(m, p, sub)
  }

  /** `Diamond::create(m, p, φ[, isS5])`; the overload without the flag makes a non-S5 Diamond. */
  function CreateDiamond(m: int, p: int, sub: Formula, s5: bool): (r: Formula)
    ensures Size(r) <= 1 + Size(sub)
    ensures p == 0 <==> r == sub
  {
    if p == 0 then sub else MkDiamond(m, p, sub, s5)
  }

  /** `Box::create(ms, φ)`: a chain of power-1 boxes with ms[0] outermost. */
  function BoxChain(ms: seq<int>, sub: Formula): Formula {
    if ms == [] then sub else CreateBox(ms[0], 1, BoxChain(ms[1..], sub))
  }

  /** `Diamond::create(ms, φ[, isS5])`. */
  function DiamondChain(ms: seq<int>, sub: Formula, s5: bool): Formula {
    if ms == [] then sub else CreateDiamond(ms[0], 1, DiamondChain(ms[1..], sub, s5), s5)
  }

  /** `constructBoxReduced`: one power fewer. */
  function BoxReduced(m: int, p: int, sub: Formula): (r: Formula)
    ensures p == 1 ==> r == sub
  {
    CreateBox(m, p - 1, sub)
  }

  /** `constructDiamondReduced`: one power fewer, same mode. */
  function DiamondReduced(m: int, p: int, sub: Formula, s5: bool): (r: Formula)
    ensures p == 1 ==> r == sub
  {
    CreateDiamond(m, p - 1, sub, s5)
  }

  /** A one-modality chain is a single power-1 Box. */
  lemma {:induction false} BoxChainOne(m: int, sub: Formula)
    ensures BoxChain([m], sub) == CreateBox(m, 1, sub)
  {
    assert [m][1..] == [];
  }

  /** Adjacent equal modalities in a chain merge through the constructor. */
  lemma {:induction false} BoxChainMerges(m: int, sub: Formula)
    requires !(sub.Box? && sub.modality == m)
    ensures BoxChain([m, m], sub) == Box(m, 2, sub)
  {
    assert [m][1..] == [];
    assert BoxChain([m], sub) == Box(m, 1, sub);
    assert [m, m][1..] == [m];
  }

  lemma {:induction false} DiamondChainMerges(m: int, sub: Formula, s5: bool)
    requires !(sub.Diamond? && sub.modality == m)
    ensures DiamondChain([m, m], sub, s5) == Diamond(m, 2, sub, s5)
  {
    assert [m][1..] == [];
    assert DiamondChain([m], sub, s5) == Diamond(m, 1, sub, s5);
    assert [m, m][1..] == [m];
  }

  // ---------------------------------------------------------------------------
  // toString

  function Repeat(x: string, n: int): string {
    if n <= 0 then [] else x + Repeat(x, n - 1)
  }

  lemma {:induction false} RepeatSnoc(x: string, n: nat)
    ensures Repeat(x, n + 1) == Repeat(x, n) + x
  {
    if n > 0 {
      RepeatSnoc(x, n - 1);
    }
  }

  lemma {:induction false} RepeatAdd(x: string, a: nat, b: nat)
    ensures Repeat(x, a + b) == Repeat(x, a) + Repeat(x, b)
  {
    if a > 0 {
      RepeatAdd(x, a - 1, b);
    }
  }

  /** Merging q operators below p operators prints the same operators. */
  lemma {:induction false} RepeatMerge(x: string, p: nat, q: nat, c: string, s: string)
    requires s == Repeat(x, q) + c
    ensures Repeat(x, p + q) + c == Repeat(x, p) + s
  {
    RepeatAdd(x, p, q);
    AppendAssoc(Repeat(x, p), Repeat(x, q), c);
  }

  function BoxMark(m: int): string {
    "[" + IntToString(m) + "]"
  }

  function DiamondMark(m: int): string {
    "<" + IntToString(m) + ">"
  }

  /** `toString`: `power` copies of the operator, then the subformula; nothing for a power below 1. */
  function Show(k: Foreign, f: Formula): string {
    match f
    case Box(m, p, s) => Repeat(BoxMark(m), p) + Show(k, s)
    case Diamond(m, p, s, _) => Repeat(DiamondMark(m), p) + Show(k, s)
    case _ => k.show(f)
  }

  /** The powers of the operators at the top are not negative. */
  predicate TopPowerNonNegative(f: Formula) {
    (f.Box? || f.Diamond?) ==> f.power >= 0
  }

  /** Merging in the constructor does not change what is printed. */
  lemma {:induction false} ShowMkBox(k: Foreign, m: int, p: nat, sub: Formula)
    requires TopPowerNonNegative(sub)
    ensures Show(k, MkBox(m, p, sub)) == Show(k, Box(m, p, sub))
  {
    if sub.Box? && sub.modality == m {
      RepeatAdd(BoxMark(m), p, sub.power);
    }
  }

  lemma {:induction false} ShowMkDiamond(k: Foreign, m: int, p: nat, sub: Formula, s5: bool)
    requires TopPowerNonNegative(sub)
    ensures Show(k, MkDiamond(m, p, sub, s5)) == Show(k, Diamond(m, p, sub, s5))
  {
    if sub.Diamond? && sub.modality == m {
      RepeatAdd(DiamondMark(m), p, sub.power);
    }
  }

  function BoxMarks(ms: seq<int>): string {
    if ms == [] then [] else BoxMark(ms[0]) + BoxMarks(ms[1..])
  }

  /** A chain prints one `[m]` per modality given, in order, merged or not. */
  lemma {:induction false} ShowBoxChain(k: Foreign, ms: seq<int>, sub: Formula)
    requires TopPowerNonNegative(sub)
    ensures Show(k, BoxChain(ms, sub)) == BoxMarks(ms) + Show(k, sub)
    ensures TopPowerNonNegative(BoxChain(ms, sub))
    decreases |ms|
  {
    if ms != [] {
      var c := BoxChain(ms[1..], sub);
      ShowBoxChain(k, ms[1..], sub);
      ShowMkBox(k, ms[0], 1, c);
      assert Repeat(BoxMark(ms[0]), 1) == BoxMark(ms[0]);
    }
  }

  /** One power fewer prints one operator fewer. */
  lemma {:induction false} ShowBoxReduced(k: Foreign, m: int, p: int, sub: Formula)
    requires p >= 1 && TopPowerNonNegative(sub)
    ensures Show(k, Box(m, p, sub)) == BoxMark(m) + Show(k, BoxReduced(m, p, sub))
  {
    var x, r, t := BoxMark(m), Repeat(BoxMark(m), p - 1), Show(k, sub);
    ShowBoxReducedTail(k, m, p, sub);
    assert Show(k, Box(m, p, sub)) == Repeat(x, p) + t;
    assert Repeat(x, p) == x + r;
    AppendAssoc(x, r, t);
  }

  lemma {:induction false} ShowBoxReducedTail(k: Foreign, m: int, p: int, sub: Formula)
    requires p >= 1 && TopPowerNonNegative(sub)
    ensures Show(k, BoxReduced(m, p, sub)) == Repeat(BoxMark(m), p - 1) + Show(k, sub)
  {
    if p > 1 {
      ShowMkBox(k, m, p - 1, sub);
    }
  }

  lemma {:induction false} ShowDiamondReduced(k: Foreign, m: int, p: int, sub: Formula, s5: bool)
    requires p >= 1 && TopPowerNonNegative(sub)
    ensures Show(k, Diamond(m, p, sub, s5)) == DiamondMark(m) + Show(k, DiamondReduced(m, p, sub, s5))
  {
    var x, r, t := DiamondMark(m), Repeat(DiamondMark(m), p - 1), Show(k, sub);
    ShowDiamondReducedTail(k, m, p, sub, s5);
    assert Show(k, Diamond(m, p, sub, s5)) == Repeat(x, p) + t;
    assert Repeat(x, p) == x + r;
    AppendAssoc(x, r, t);
  }

  lemma {:induction false} ShowDiamondReducedTail(k: Foreign, m: int, p: int, sub: Formula, s5: bool)
    requires p >= 1 && TopPowerNonNegative(sub)
    ensures Show(k, DiamondReduced(m, p, sub, s5)) == Repeat(DiamondMark(m), p - 1) + Show(k, sub)
  {
    if p > 1 {
      ShowMkDiamond(k, m, p - 1, sub, s5);
    }
  }

  // ---------------------------------------------------------------------------
  // negate

  /** `negate`: a Box becomes a non-S5 Diamond and a Diamond a Box, same modality and power. */
  function Negate(k: Foreign, f: Formula): Formula {
    match f
    case Box(m, p, s) => CreateDiamond(m, p, Negate(k, s), false)
    case Diamond(m, p, s, s5) => k.createBoxS5(m, p, Negate(k, s), s5)
    case _ => k.negate(f)
  }

  /** Powers are not zero, diamonds are not in S5 mode, and no operator directly holds one of the same kind and modality. */
  predicate Canonical(f: Formula) {
    match f
    case Box(m, p, s) => p != 0 && !(s.Box? && s.modality == m) && Canonical(s)
    case Diamond(m, p, s, s5) => p != 0 && !s5 && !(s.Diamond? && s.modality == m) && Canonical(s)
    case _ => true
  }

  /** Negating swaps the operator at the top and keeps its modality and power. */
  lemma {:induction false} NegateSwaps(k: Foreign, f: Formula)
    requires PlainOutsideS5(k) && Canonical(f)
    ensures f.Box? ==> Negate(k, f) == Diamond(f.modality, f.power, Negate(k, f.sub), false)
    ensures f.Diamond? ==> Negate(k, f) == Box(f.modality, f.power, Negate(k, f.sub))
    ensures !f.Box? && !f.Diamond? ==> !Negate(k, f).Box? && !Negate(k, f).Diamond?
  {
    if f.Box? || f.Diamond? {
      var s := f.sub;
      if s.Box? || s.Diamond? {
        NegateSwaps(k, s);
      }
    }
  }

  /** On canonical formulas, negating twice gives the formula back when leaves negate so. */
  lemma {:induction false} NegateInvolution(k: Foreign, f: Formula)
    requires PlainOutsideS5(k) && Canonical(f)
    requires forall l: Leaf :: k.negate(k.negate(l)) == l
    ensures Negate(k, Negate(k, f)) == f
  {
    match f
    case Box(m, p, s) =>
      NegateSwaps(k, f);
      NegateInvolution(k, s);
      assert Negate(k, Negate(k, f)) == k.createBoxS5(m, p, s, false);
    case Diamond(m, p, s, s5) =>
      NegateSwaps(k, f);
      NegateInvolution(k, s);
    case _ =>
  }

  // ---------------------------------------------------------------------------
  // simplify

  /**
    What one simplification step leaves at the top: no Box holds a Diamond or a Box of its own
    modality, no S5 Diamond holds a Box or a Diamond of its own modality, and no Diamond
    holds a Diamond of its own modality.
   */
  predicate TopReduced(f: Formula) {
    match f
    case Box(m, _, s) => !s.Diamond? && !(s.Box? && s.modality == m)
    case Diamond(m, _, s, s5) => !(s.Diamond? && s.modality == m) && (s5 ==> !s.Box?)
    case _ => true
  }

  /**
    `simplify` (Box) and `simplify`/`simplifyS5` (Diamond): the simplified formula and whether
    it is the object simplify was called on. Re-simplifying the merged node ends because it is
    smaller than the original.
   */
  function Simplify(k: Foreign, f: Formula): (r: (Formula, bool))
    requires Sound(k)
    ensures Size(r.0) <= Size(f)
    ensures TopReduced(r.0)
    decreases Size(f)
  {
    match f
    case Box(m, p, s) =>
      var ns := Simplify(k, s).0;
      var same := Simplify(k, s).1;
      if ns.Diamond? then
        (Simplify(k, CreateDiamond(ns.modality, p + ns.power, ns.sub, false)).0, false)
      else if ns.Box? && ns.modality == m then
        (Simplify(k, CreateBox(m, p + ns.power, ns.sub)).0, false)
      else if same then
        (Box(m, p, ns), true)
      else
        BoxChainOne(m, ns);
        (BoxChain([m], ns), false)
    case Diamond(m, p, s, s5) =>
      var ns := Simplify(k, s).0;
      var same := Simplify(k, s).1;
      if !s5 then
        if ns == False then
          (False, false)
        else if ns.Diamond? && ns.modality == m then
          (Diamond(m, p + ns.power, ns.sub, false), true)
        else
          (Diamond(m, p, ns, false), true)
      else if ns.Box? then
        (Simplify(k, k.createBoxS5(ns.modality, p + ns.power, ns.sub, true)).0, false)
      else if ns.Diamond? && ns.modality == m then
        (Simplify(k, CreateDiamond(m, p + ns.power, ns.sub, true)).0, false)
      else if same then
        (Diamond(m, p, ns, true), true)
      else
        (CreateDiamond(m, p, ns, true), false)
    case _ =>
      k.simplify(f)
  }

  /** A changed subformula costs a Box its power: the new Box has power 1. */
  lemma {:induction false} SimplifyBoxDropsPower(k: Foreign, m: int, p: int, s: Formula)
    requires Sound(k)
    requires !Simplify(k, s).1 && !Simplify(k, s).0.Diamond?
    requires !(Simplify(k, s).0.Box? && Simplify(k, s).0.modality == m)
    ensures Simplify(k, Box(m, p, s)) == (Box(m, 1, Simplify(k, s).0), false)
  {
    BoxChainOne(m, Simplify(k, s).0);
  }

  /** □◇φ simplifies as the Diamond with the inner modality and the summed power. */
  lemma {:induction false} SimplifyBoxOverDiamond(k: Foreign, m: int, p: int, s: Formula, dm: int, dp: int, ds: Formula, s5: bool)
    requires Sound(k)
    requires Simplify(k, s).0 == Diamond(dm, dp, ds, s5)
    ensures Simplify(k, Box(m, p, s)).0 == Simplify(k, CreateDiamond(dm, p + dp, ds, false)).0
  {
    var merged := CreateDiamond(dm, p + dp, ds, false);
    assert Simplify(k, Box(m, p, s)) == (Simplify(k, merged).0, false);
  }

  /** A non-S5 Diamond whose subformula simplifies to False simplifies to False. */
  lemma {:induction false} SimplifyDiamondFalse(k: Foreign, m: int, p: int, s: Formula)
    requires Sound(k) && Simplify(k, s).0 == False
    ensures Simplify(k, Diamond(m, p, s, false)) == (False, false)
  {
  }

  // ---------------------------------------------------------------------------
  // modalFlatten

  /** No operator directly holds one of the same kind and modality, anywhere in the formula. */
  predicate Flat(f: Formula) {
    match f
    case Box(m, _, s) => !(s.Box? && s.modality == m) && Flat(s)
    case Diamond(m, _, s, _) => !(s.Diamond? && s.modality == m) && Flat(s)
    case _ => true
  }

  /** `modalFlatten`: flatten the subformula, then merge a same-modality operator of the same kind. */
  function Flatten(k: Foreign, f: Formula): (r: Formula)
    ensures Flat(r)
    ensures Size(r) <= Size(f)
  {
    match f
    case Box(m, p, s) =>
      var t := Flatten(k, s);
      if t.Box? && t.modality == m then Box(m, p + t.power, t.sub) else Box(m, p, t)
    case Diamond(m, p, s, s5) =>
      var t := Flatten(k, s);
      if t.Diamond? && t.modality == m then Diamond(m, p + t.power, t.sub, s5) else Diamond(m, p, t, s5)
    case _ => k.flatten(f)
  }

  /** No power is negative. */
  predicate NonNegativePowers(f: Formula) {
    match f
    case Box(_, p, s) => p >= 0 && NonNegativePowers(s)
    case Diamond(_, p, s, _) => p >= 0 && NonNegativePowers(s)
    case _ => true
  }

  /** One step of flattening a Box, merging a Box of the same modality below, keeps the printed formula. */
  lemma {:induction false} FlattenBoxShow(k: Foreign, m: int, p: nat, s: Formula)
    requires NonNegativePowers(Flatten(k, s)) && Show(k, Flatten(k, s)) == Show(k, s)
    ensures Show(k, Flatten(k, Box(m, p, s))) == Show(k, Box(m, p, s))
    ensures NonNegativePowers(Flatten(k, Box(m, p, s)))
  {
    var t := Flatten(k, s);
    if t.Box? && t.modality == m {
      RepeatMerge(BoxMark(m), p, t.power, Show(k, t.sub), Show(k, t));
    }
  }

  /** One step of flattening a Diamond, merging a Diamond of the same modality below, keeps the printed formula. */
  lemma {:induction false} FlattenDiamondShow(k: Foreign, m: int, p: nat, s: Formula, s5: bool)
    requires NonNegativePowers(Flatten(k, s)) && Show(k, Flatten(k, s)) == Show(k, s)
    ensures Show(k, Flatten(k, Diamond(m, p, s, s5))) == Show(k, Diamond(m, p, s, s5))
    ensures NonNegativePowers(Flatten(k, Diamond(m, p, s, s5)))
  {
    var t := Flatten(k, s);
    if t.Diamond? && t.modality == m {
      RepeatMerge(DiamondMark(m), p, t.power, Show(k, t.sub), Show(k, t));
    }
  }

  /** Flattening keeps the printed formula, when no power is negative and leaves keep theirs. */
  lemma {:induction false} FlattenKeepsShow(k: Foreign, f: Formula)
    requires NonNegativePowers(f)
    requires forall l: Leaf :: k.show(k.flatten(l)) == k.show(l)
    ensures Show(k, Flatten(k, f)) == Show(k, f)
    ensures NonNegativePowers(Flatten(k, f))
  {
    match f
    case Box(m, p, s) =>
      FlattenKeepsShow(k, s);
      FlattenBoxShow(k, m, p, s);
    case Diamond(m, p, s, s5) =>
      FlattenKeepsShow(k, s);
      FlattenDiamondShow(k, m, p, s, s5);
    case _ =>
  }

  // ---------------------------------------------------------------------------
  // axiomSimplify

  /** `axiomSimplify(axiom, depth)`. */
  function AxiomSimplify(k: Foreign, f: Formula, axiom: int, depth: int): Formula {
    match f
    case Box(m, p, s) =>
      Box(m, if depth > 0 then 1 else Min(p, 2), AxiomSimplify(k, s, axiom, depth + p))
    case Diamond(m, p, s, s5) =>
      if axiom == 2 && depth >= 1 then
        (if s.Box? then AxiomSimplify(k, s.sub, axiom, depth) else f)
      else
        Diamond(m, if depth > 0 then 1 else Min(p, 2), AxiomSimplify(k, s, axiom, depth + p), s5)
    case _ => k.axiomSimplify(f, axiom, depth)
  }

  function Min(a: int, b: int): int {
    if a <= b then a else b
  }

  /** Every power is at most n. */
  predicate PowersAtMost(f: Formula, n: int) {
    match f
    case Box(_, p, s) => p <= n && PowersAtMost(s, n)
    case Diamond(_, p, s, _) => p <= n && PowersAtMost(s, n)
    case _ => true
  }

  /** Every power is exactly 1. */
  predicate PowersOne(f: Formula) {
    match f
    case Box(_, p, s) => p == 1 && PowersOne(s)
    case Diamond(_, p, s, _) => p == 1 && PowersOne(s)
    case _ => true
  }

  /** The operators from the top down, without their powers. */
  function Operators(f: Formula): seq<(bool, int)> {
    match f
    case Box(m, _, s) => [(true, m)] + Operators(s)
    case Diamond(m, _, s, _) => [(false, m)] + Operators(s)
    case _ => []
  }

  /** Outside axiom 2 no power stays above 2, and the operators are kept in order. */
  lemma {:induction false} AxiomClamps(k: Foreign, f: Formula, axiom: int, depth: int)
    requires axiom != 2
    ensures PowersAtMost(AxiomSimplify(k, f, axiom, depth), 2)
    ensures Operators(AxiomSimplify(k, f, axiom, depth)) == Operators(f)
  {
    match f
    case Box(m, p, s) =>
      AxiomClamps(k, s, axiom, depth + p);
    case Diamond(m, p, s, s5) =>
      AxiomClamps(k, s, axiom, depth + p);
    case _ =>
  }

  /** Below the top (depth above 0), every operator is left with power 1. */
  lemma {:induction false} AxiomBelowTop(k: Foreign, f: Formula, axiom: int, depth: int)
    requires axiom != 2 && depth > 0 && NonNegativePowers(f)
    ensures PowersOne(AxiomSimplify(k, f, axiom, depth))
  {
    match f
    case Box(m, p, s) =>
      AxiomBelowTop(k, s, axiom, depth + p);
    case Diamond(m, p, s, s5) =>
      AxiomBelowTop(k, s, axiom, depth + p);
    case _ =>
  }

  /** Under axiom 2 and below the top, a Diamond over a Box loses both operators. */
  lemma {:induction false} AxiomTwoDropsDiamondBox(k: Foreign, m: int, p: int, n: int, q: int, s: Formula, s5: bool, depth: int)
    requires depth >= 1
    ensures AxiomSimplify(k, Diamond(m, p, Box(n, q, s), s5), 2, depth) == AxiomSimplify(k, s, 2, depth)
  {
  }

  // ---------------------------------------------------------------------------
  // negatedNormalForm

  /** `negatedNormalForm` on a Box or a Diamond: only the subformula is rewritten. */
  function NegatedNormalForm(k: Foreign, f: Formula): Formula {
    match f
    case Box(m, p, s) => Box(m, p, NegatedNormalForm(k, s))
    case Diamond(m, p, s, s5) => Diamond(m, p, NegatedNormalForm(k, s), s5)
    case _ => k.nnf(f)
  }

  /** The modal operators, with their powers, come through the normal form unchanged. */
  lemma {:induction false} NegatedNormalFormKeepsOperators(k: Foreign, f: Formula)
    ensures Operators(NegatedNormalForm(k, f)) == Operators(f)
    ensures Size(NegatedNormalForm(k, f)) == Size(f)
    ensures NonNegativePowers(f) ==> NonNegativePowers(NegatedNormalForm(k, f))
  {
    match f
    case Box(_, _, s) => NegatedNormalFormKeepsOperators(k, s);
    case Diamond(_, _, s, _) => NegatedNormalFormKeepsOperators(k, s);
    case _ =>
  }

  // ---------------------------------------------------------------------------
  // operator==

  /** `operator==`: same kind, modality, power (and mode for a Diamond), and equal subformulas. */
  function Equal(k: Foreign, a: Formula, b: Formula): bool {
    match a
    case Box(m, p, s) => b.Box? && m == b.modality && p == b.power && Equal(k, s, b.sub)
    case Diamond(m, p, s, s5) => b.Diamond? && m == b.modality && p == b.power && Equal(k, s, b.sub) && s5 == b.s5
    case _ => k.equals(a, b)
  }

  /** When leaves compare by value, `operator==` is equality of formulas. */
  lemma {:induction false} EqualIsEquality(k: Foreign, a: Formula, b: Formula)
    requires forall l: Leaf, g: Formula :: k.equals(l, g) <==> l == g
    ensures Equal(k, a, b) <==> a == b
  {
    match a
    case Box(m, p, s) =>
      if b.Box? {
        EqualIsEquality(k, s, b.sub);
      }
    case Diamond(m, p, s, s5) =>
      if b.Diamond? {
        EqualIsEquality(k, s, b.sub);
      }
    case _ =>
  }

  /** A Box and a Diamond are never equal, whatever the leaves do. */
  lemma {:induction false} BoxNeverEqualsDiamond(k: Foreign, m: int, p: int, s: Formula, n: int, q: int, t: Formula, s5: bool)
    ensures !Equal(k, Box(m, p, s), Diamond(n, q, t, s5))
    ensures !Equal(k, Diamond(n, q, t, s5), Box(m, p, s))
  {
  }
}
