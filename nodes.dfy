/**
  The Box and Diamond nodes as the objects the solver mutates: the constructors, `toString`,
  `incrementPower`, `negatedNormalForm`, `modalFlatten`, `axiomSimplify` and the non-S5
  Diamond `simplify` update `power_` and `subformula_` in place, and the vector overloads of
  `create` and `toString` are loops.

  Every method is proved against the value-level definitions of module Modal: what the node
  holds afterwards, seen as a `Formula`, is the function of what it held before. The
  subformula is a value, so a change made through a node shared elsewhere is not seen here.
 */
module Nodes {
  import opened Modal
  import opened Text

  class BoxNode {
    var modality: int
    var power: int
    var subformula: Formula

    /** The formula this node stands for. */
    function Value(): (f: Formula)
      reads this
      ensures f.Box? && f.modality == modality && f.power == power && f.sub == subformula
    {
      Box(modality, power, subformula)
    }

    /** The constructor merges a Box of the same modality directly below. */
    constructor (m: int, p: int, sub: Formula)
      ensures Value() == MkBox(m, p, sub)
    {
      modality := m;
      power := p;
      if sub.Box? && sub.modality == m {
        power := p + sub.power;
        subformula := sub.sub;
      } else {
        subformula := sub;
      }
    }

    /** `incrementPower`: one more operator, nothing else changes. */
    method IncrementPower()
      modifies this
      ensures Value() == Box(old(modality), old(power) + 1, old(subformula))
    {
      power := power + 1;
    }

    /** `toString`: the loop appends one `[m]` per unit of power. */
    method ToString(k: Foreign) returns (s: string)
      ensures s == Show(k, Value())
    {
      var ret := "";
      var i := 0;
      while i < power
        invariant 0 <= i && (i <= power || i == 0)
        invariant ret == Repeat(BoxMark(modality), i)
      {
        RepeatSnoc(BoxMark(modality), i);
        ret := ret + ("[" + IntToString(modality) + "]");
        i := i + 1;
      }
      s := ret + Show(k, subformula);
    }

    /** `negatedNormalForm`: the subformula is replaced by its normal form; the node itself is returned. */
    method NegatedNormalForm(k: Foreign) returns (r: Formula)
      modifies this
      ensures r == Value() == Modal.NegatedNormalForm(k, old(Value()))
      ensures modality == old(modality) && power == old(power)
    {
      subformula := Modal.NegatedNormalForm(k, subformula);
      r := Value();
    }

    /** `modalFlatten`: flattens the subformula, then absorbs a Box of the same modality below. */
    method ModalFlatten(k: Foreign) returns (r: Formula)
      modifies this
      ensures r == Value() == Flatten(k, old(Value()))
      ensures modality == old(modality)
    {
      subformula := Flatten(k, subformula);
      if subformula.Box? && subformula.modality == modality {
        power := power + subformula.power;
        subformula := subformula.sub;
      }
      r := Value();
    }

    /** `axiomSimplify`: the subformula one level deeper, then the power clamped. */
    method AxiomSimplify(k: Foreign, axiom: int, depth: int) returns (r: Formula)
      modifies this
      ensures r == Value() == Modal.AxiomSimplify(k, old(Value()), axiom, depth)
      ensures depth > 0 ==> power == 1
      ensures depth <= 0 ==> power == Min(old(power), 2)
    {
      subformula := Modal.AxiomSimplify(k, subformula, axiom, depth + power);
      if depth > 0 {
        power := 1;
      } else {
        power := Min(power, 2);
      }
      r := Value();
    }
  }

  class DiamondNode {
    var modality: int
    var power: int
    var subformula: Formula
    var isS5Mode: bool

    /** The formula this node stands for. */
    function Value(): (f: Formula)
      reads this
      ensures f.Diamond? && f.modality == modality && f.power == power && f.sub == subformula && f.s5 == isS5Mode
    {
      Diamond(modality, power, subformula, isS5Mode)
    }

    /** The constructor with the S5 flag merges a Diamond of the same modality directly below. */
    constructor (m: int, p: int, sub: Formula, isS5: bool)
      ensures Value() == MkDiamond(m, p, sub, isS5)
    {
      modality := m;
      power := p;
      isS5Mode := isS5;
      if sub.Diamond? && sub.modality == m {
        power := p + sub.power;
        subformula := sub.sub;
      } else {
        subformula := sub;
      }
    }

    /** The constructor without the flag: the same merge, and the node is not in S5 mode. */
    constructor Plain(m: int, p: int, sub: Formula)
      ensures Value() == MkDiamond(m, p, sub, false)
    {
      modality := m;
      power := p;
      isS5Mode := false;
      if sub.Diamond? && sub.modality == m {
        power := p + sub.power;
        subformula := sub.sub;
      } else {
        subformula := sub;
      }
    }

    /** `incrementPower`: one more operator, nothing else changes. */
    method IncrementPower()
      modifies this
      ensures Value() == Diamond(old(modality), old(power) + 1, old(subformula), old(isS5Mode))
    {
      power := power + 1;
    }

    /** `toString`: the loop appends one `<m>` per unit of power. */
    method ToString(k: Foreign) returns (s: string)
      ensures s == Show(k, Value())
    {
      var ret := "";
      var i := 0;
      while i < power
        invariant 0 <= i && (i <= power || i == 0)
        invariant ret == Repeat(DiamondMark(modality), i)
      {
        RepeatSnoc(DiamondMark(modality), i);
        ret := ret + ("<" + IntToString(modality) + ">");
        i := i + 1;
      }
      s := ret + Show(k, subformula);
    }

    /** `negatedNormalForm`: the subformula is replaced by its normal form; the node itself is returned. */
    method NegatedNormalForm(k: Foreign) returns (r: Formula)
      modifies this
      ensures r == Value() == Modal.NegatedNormalForm(k, old(Value()))
      ensures modality == old(modality) && power == old(power) && isS5Mode == old(isS5Mode)
    {
      subformula := Modal.NegatedNormalForm(k, subformula);
      r := Value();
    }

    /**
      `simplify`: in S5 mode `simplifyS5`, which changes nothing in the node; otherwise the
      subformula is simplified in place, a False below gives False, a Diamond of the same
      modality below is absorbed in place, and the node itself is returned.
     */
    method Simplify(k: Foreign) returns (r: Formula, same: bool)
      requires Sound(k)
      modifies this
      ensures (r, same) == Modal.Simplify(k, old(Value()))
      ensures old(isS5Mode) ==> Value() == old(Value())
      ensures !old(isS5Mode) ==>
        var ns := Modal.Simplify(k, old(subformula)).0;
        modality == old(modality) && !isS5Mode &&
        if ns.Diamond? && ns.modality == modality then power == old(power) + ns.power && subformula == ns.sub
        else power == old(power) && subformula == ns
      ensures !old(isS5Mode) && same ==> r == Value()
    {
      if isS5Mode {
        r, same := Modal.Simplify(k, Value()).0, Modal.Simplify(k, Value()).1;
        return;
      }
      subformula := Modal.Simplify(k, subformula).0;
      if subformula == False {
        r, same := False, false;
      } else {
        if subformula.Diamond? && subformula.modality == modality {
          power := power + subformula.power;
          subformula := subformula.sub;
        }
        r, same := Value(), true;
      }
    }

    /** `modalFlatten`: flattens the subformula, then absorbs a Diamond of the same modality below. */
    method ModalFlatten(k: Foreign) returns (r: Formula)
      modifies this
      ensures r == Value() == Flatten(k, old(Value()))
      ensures modality == old(modality) && isS5Mode == old(isS5Mode)
    {
      subformula := Flatten(k, subformula);
      if subformula.Diamond? && subformula.modality == modality {
        power := power + subformula.power;
        subformula := subformula.sub;
      }
      r := Value();
    }

    /**
      `axiomSimplify`: under axiom 2 below the top, a Box below is dropped together with this
      node and nothing is changed; otherwise the subformula one level deeper, then the power clamped.
     */
    method AxiomSimplify(k: Foreign, axiom: int, depth: int) returns (r: Formula)
      modifies this
      ensures r == Modal.AxiomSimplify(k, old(Value()), axiom, depth)
      ensures axiom == 2 && depth >= 1 ==> Value() == old(Value())
      ensures !(axiom == 2 && depth >= 1) ==> r == Value()
    {
      if axiom == 2 && depth >= 1 {
        if subformula.Box? {
          r := Modal.AxiomSimplify(k, subformula.sub, axiom, depth);
        } else {
          r := Value();
        }
      } else {
        subformula := Modal.AxiomSimplify(k, subformula, axiom, depth + power);
        if depth > 0 {
          power := 1;
        } else {
          power := Min(power, 2);
        }
        r := Value();
      }
    }
  }

  /** `Box::create(ms, φ)`: the loop wraps φ in power-1 boxes from the last modality to the first. */
  method CreateBoxes(ms: seq<int>, sub: Formula) returns (f: Formula)
    ensures f == BoxChain(ms, sub)
    ensures ms == [] ==> f == sub
  {
    if |ms| == 0 {
      return sub;
    }
    f := CreateBox(ms[|ms| - 1], 1, sub);
    BoxChainOne(ms[|ms| - 1], sub);
    assert ms[|ms| - 1..] == [ms[|ms| - 1]];
    var i := |ms| - 1;
    while i > 0
      invariant 0 <= i < |ms|
      invariant f == BoxChain(ms[i..], sub)
    {
      assert ms[i - 1..][1..] == ms[i..];
      f := CreateBox(ms[i - 1], 1, f);
      i := i - 1;
    }
  }

  /** `Diamond::create(ms, φ[, isS5])`: the same loop with power-1 diamonds. */
  method CreateDiamonds(ms: seq<int>, sub: Formula, s5: bool) returns (f: Formula)
    ensures f == DiamondChain(ms, sub, s5)
    ensures ms == [] ==> f == sub
  {
    if |ms| == 0 {
      return sub;
    }
    f := CreateDiamond(ms[|ms| - 1], 1, sub, s5);
    assert ms[|ms| - 1..] == [ms[|ms| - 1]];
    assert ms[|ms| - 1..][1..] == [];
    var i := |ms| - 1;
    while i > 0
      invariant 0 <= i < |ms|
      invariant f == DiamondChain(ms[i..], sub, s5)
    {
      assert ms[i - 1..][1..] == ms[i..];
      f := CreateDiamond(ms[i - 1], 1, f, s5);
      i := i - 1;
    }
  }
}
