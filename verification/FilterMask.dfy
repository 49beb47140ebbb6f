/** Single bits of a 32-bit word, as dmx_adv.c tests and sets them. */
module Bits {
  /** 1 << i */
  function Bit(i: nat): bv32
    requires i < 32
  {
    (1 as bv32) << i
  }

  /** sec_flt_msk & (1 << i) */
  predicate Has(m: bv32, i: nat)
    requires i < 32
  {
    m & Bit(i) != 0
  }

  lemma {:induction false} BitsApart(i: nat, j: nat)
    requires i < 32 && j < 32 && i != j
    ensures Bit(i) & Bit(j) == 0
  {
  }

  lemma {:induction false} BitNonZero(i: nat)
    requires i < 32
    ensures Bit(i) != 0
  {
  }

  lemma {:induction false} OrOther(m: bv32, a: bv32, b: bv32)
    requires a & b == 0
    ensures (m | a) & b == m & b
  {
  }

  lemma {:induction false} AndOther(m: bv32, a: bv32, b: bv32)
    requires a & b == 0
    ensures (m & !a) & b == m & b
  {
  }

  lemma {:induction false} SameBit(m: bv32, a: bv32)
    ensures (m | a) & a == a
    ensures (m & !a) & a == 0
  {
  }

  lemma {:induction false} SetHere(m: bv32, i: nat)
    requires i < 32
    ensures Has(m | Bit(i), i)
  {
    BitNonZero(i);
    SameBit(m, Bit(i));
  }

  lemma {:induction false} ClearedHere(m: bv32, i: nat)
    requires i < 32
    ensures !Has(m & !Bit(i), i)
  {
    SameBit(m, Bit(i));
  }

  lemma {:induction false} SetElsewhere(m: bv32, i: nat, j: nat)
    requires i < 32 && j < 32 && i != j
    ensures Has(m | Bit(i), j) <==> Has(m, j)
  {
    BitsApart(i, j);
    OrOther(m, Bit(i), Bit(j));
  }

  lemma {:induction false} ClearedElsewhere(m: bv32, i: nat, j: nat)
    requires i < 32 && j < 32 && i != j
    ensures Has(m & !Bit(i), j) <==> Has(m, j)
  {
    BitsApart(i, j);
    AndOther(m, Bit(i), Bit(j));
  }

  /** &= ~(1 << i) takes back |= (1 << i) on a clear bit. */
  lemma {:induction false} SetThenClear(m: bv32, i: nat)
    requires i < 32 && !Has(m, i)
    ensures (m | Bit(i)) & !Bit(i) == m
  {
  }
}

/** sec_flt_msk as the 32-bit word it is, and the set of filter ids DmxState uses in its place. */
module FilterMask {
  import opened Bits
  import DmxState
  import AdvDmx

  function Members(m: bv32): set<nat> {
    set i: nat | i < 32 && Has(m, i)
  }

  /** or-ing a bit in adds one id, and-ing its complement removes one id. */
  lemma {:induction false} MembersUpdated(m: bv32, i: nat)
    requires i < 32
    ensures Members(m | Bit(i)) == Members(m) + {i}
    ensures Members(m & !Bit(i)) == Members(m) - {i}
  {
    SetHere(m, i);
    ClearedHere(m, i);
    forall j: nat | j < 32 && j != i
      ensures Has(m | Bit(i), j) <==> Has(m, j)
      ensures Has(m & !Bit(i), j) <==> Has(m, j)
    {
      SetElsewhere(m, i, j);
      ClearedElsewhere(m, i, j);
    }
  }

  /** The scan and the |= of adv_dmx_alloc_filter: the least id outside the set is added, and nothing
      happens exactly when all 32 are taken. */
  method AllocBit(m: bv32) returns (m': bv32, i: nat)
    ensures i == if DmxState.LeastUnset(Members(m), 0) < 32 then DmxState.LeastUnset(Members(m), 0) else DmxState.NO_ID
    ensures i == DmxState.NO_ID ==> m' == m && |Members(m)| == 32
    ensures i != DmxState.NO_ID ==> i < 32 && !Has(m, i) && Members(m') == Members(m) + {i}
  {
    hide Has, Bit;
    i := 0;
    while i < 32 && Has(m, i)
      invariant i <= 32 && forall j :: 0 <= j < i ==> j in Members(m)
    {
      i := i + 1;
    }
    m' := m;
    if i < 32 {
      m' := m | Bit(i);
      MembersUpdated(m, i);
    } else {
      AllBits(Members(m), 32);
      AdvDmx.CountBitsIsSize(Members(m), 32);
      i := DmxState.NO_ID;
    }
  }

  lemma {:induction false} AllBits(s: set<nat>, n: nat)
    requires forall j :: 0 <= j < n ==> j in s
    ensures AdvDmx.CountBits(s, n) == n
  {
    if n > 0 { AllBits(s, n-1); }
  }

  /** The &= of adv_dmx_free_filter. */
  method FreeBit(m: bv32, flt: nat) returns (m': bv32)
    requires flt < 32
    ensures Members(m') == Members(m) - {flt}
  {
    m' := m & !Bit(flt);
    MembersUpdated(m, flt);
  }

  /** The loop of adv_dmx_get_filter_num: the number of set bits. */
  method CountMask(m: bv32) returns (num: nat)
    ensures num == |Members(m)|
  {
    num := 0;
    for i := 0 to 32
      invariant num == AdvDmx.CountBits(Members(m), i)
    {
      if Has(m, i) {
        num := num + 1;
      }
    }
    AdvDmx.CountBitsIsSize(Members(m), 32);
  }

  /** Any sequence of allocations and frees does to the word what it does to the set. */
  datatype MaskOp = Take | Drop(flt: nat)

  function MaskStep(m: bv32, op: MaskOp): bv32 {
    match op
    case Take =>
      var i := DmxState.LeastUnset(Members(m), 0);
      if i < 32 then m | Bit(i) else m
    case Drop(flt) => if flt < 32 then m & !Bit(flt) else m
  }

  function SetStep(s: set<nat>, op: MaskOp): set<nat> {
    match op
    case Take =>
      var i := DmxState.LeastUnset(s, 0);
      if i < 32 then s + {i} else s
    case Drop(flt) => s - {flt}
  }

  function MaskRun(m: bv32, ops: seq<MaskOp>): bv32
    decreases |ops|
  {
    if ops == [] then m else MaskRun(MaskStep(m, ops[0]), ops[1..])
  }

  function SetRun(s: set<nat>, ops: seq<MaskOp>): set<nat>
    decreases |ops|
  {
    if ops == [] then s else SetRun(SetStep(s, ops[0]), ops[1..])
  }

  lemma {:induction false} StepRefinesSet(m: bv32, op: MaskOp)
    ensures Members(MaskStep(m, op)) == SetStep(Members(m), op)
  {
    hide Has, Bit;
    match op
    case Take =>
      var i := DmxState.LeastUnset(Members(m), 0);
      if i < 32 { MembersUpdated(m, i); }
    case Drop(flt) =>
      if flt < 32 { MembersUpdated(m, flt); } else { assert Members(m) - {flt} == Members(m); }
  }

  lemma {:induction false} MaskRefinesSet(m: bv32, ops: seq<MaskOp>)
    ensures Members(MaskRun(m, ops)) == SetRun(Members(m), ops)
    decreases |ops|
  {
    hide Members, MaskStep, SetStep;
    if ops != [] {
      StepRefinesSet(m, ops[0]);
      MaskRefinesSet(MaskStep(m, ops[0]), ops[1..]);
    }
  }
}
