/** Runs of dev_alloc, dev_register and dev_free over hld_dev.c. */
module DeviceRuns {
  import opened RegistryState
  import opened DeviceGraph

  datatype Op = Alloc(info: Info) | Reg(d: nat) | Fre(d: nat)

  /** Callers pass devices that dev_alloc has returned and dev_free has not. */
  predicate Callable(g: Graph, op: Op) {
    op.Alloc? || Live(g, op.d)
  }

  /** One call, where the list is s. */
  function Apply(g: Graph, s: seq<nat>, op: Op): Graph
    requires Callable(g, op)
  {
    match op
    case Alloc(info) => Allocate(g, s, info)
    case Reg(d) => Register(g, s, d)
    case Fre(d) => Free(g, s, d)
  }

  /** A call in state g gives h; where g holds no proper list, the searches may not even end and h is anything. */
  ghost predicate Next(g: Graph, op: Op, h: Graph) {
    Callable(g, op) && forall s :: ListIs(g, s) ==> h == Apply(g, s, op)
  }

  ghost predicate Run(gs: seq<Graph>, ops: seq<Op>) {
    |gs| == |ops| + 1 && forall i :: 0 <= i < |ops| ==> Next(gs[i], ops[i], gs[i + 1])
  }

  /** The call is no free, or a safe one. */
  ghost predicate Safe(g: Graph, op: Op) {
    op.Fre? ==> op.d < |g.next| && exists s :: ListIs(g, s) && FreeSafe(g, s, op.d)
  }

  lemma {:induction false} NextIs(g: Graph, s: seq<nat>, op: Op)
    requires ListIs(g, s) && Callable(g, op)
    ensures Next(g, op, Apply(g, s, op))
  {
    hide Chain, UniqueNames, InfosOf, Apply;
    forall t | ListIs(g, t)
      ensures t == s
    {
      ChainDetermines(g, g.base, s, t);
    }
  }

  /** Exactly the safe calls keep a proper list. */
  lemma {:induction false} NextOkIff(g: Graph, op: Op, h: Graph)
    requires ListOk(g) && Next(g, op, h)
    ensures ListOk(h) <==> Safe(g, op)
  {
    hide Chain, UniqueNames, InfosOf, Allocate, Register, Free, FreeSafe, ListIs;
    var s :| ListIs(g, s);
    match op
    case Alloc(info) => AllocateIs(g, s, info);
    case Reg(d) => RegisterIs(g, s, d);
    case Fre(d) =>
      FreeOkIff(g, s, d);
      forall t | ListIs(g, t)
        ensures t == s
      {
        OnlyList(g, s, t);
      }
  }

  lemma {:induction false} OnlyList(g: Graph, s: seq<nat>, t: seq<nat>)
    requires ListIs(g, s) && ListIs(g, t)
    ensures s == t
  {
    ChainDetermines(g, g.base, s, t);
  }

  /** Over any run from a proper list, every list stays proper exactly when every free of the run is safe. */
  lemma {:induction false} RunOkIff(gs: seq<Graph>, ops: seq<Op>)
    requires Run(gs, ops) && ListOk(gs[0])
    ensures (forall i :: 0 <= i < |gs| ==> ListOk(gs[i]))
            <==> (forall i :: 0 <= i < |ops| ==> Safe(gs[i], ops[i]))
  {
    hide ListOk, Next, Safe;
    if forall i :: 0 <= i < |gs| ==> ListOk(gs[i]) {
      forall i | 0 <= i < |ops|
        ensures Safe(gs[i], ops[i])
      {
        assert ListOk(gs[i]) && ListOk(gs[i + 1]);
        NextOkIff(gs[i], ops[i], gs[i + 1]);
      }
    }
    if forall i :: 0 <= i < |ops| ==> Safe(gs[i], ops[i]) {
      forall i | 0 <= i < |gs|
        ensures ListOk(gs[i])
      {
        SafeSoFar(gs, ops, i);
      }
    }
  }

  lemma {:induction false} SafeSoFar(gs: seq<Graph>, ops: seq<Op>, i: nat)
    requires Run(gs, ops) && ListOk(gs[0]) && i < |gs|
    requires forall i :: 0 <= i < |ops| ==> Safe(gs[i], ops[i])
    ensures ListOk(gs[i])
  {
    hide ListOk, Next, Safe;
    if i > 0 {
      SafeSoFar(gs, ops, i - 1);
      NextOkIff(gs[i-1], ops[i-1], gs[i]);
    }
  }

  // ----- frees a caller can check by dev_get_by_name -----

  /** dev_get_by_name(d->name) returns d or NULL. */
  predicate OwnName(g: Graph, s: seq<nat>, op: Op) {
    op.Fre? ==> Namesake(g, s, op.d) == |s| || s[Namesake(g, s, op.d)] == op.d
  }

  /** The list a call should leave: registrations append new names, frees take out their own device. */
  function Intended(g: Graph, s: seq<nat>, op: Op): seq<nat> {
    match op
    case Alloc(_) => s
    case Reg(d) => if Namesake(g, s, d) == |s| then s + [d] else s
    case Fre(d) => Promised(s, d)
  }

  lemma {:induction false} OwnNameIntended(g: Graph, s: seq<nat>, op: Op, h: Graph)
    requires ListIs(g, s) && Next(g, op, h) && OwnName(g, s, op)
    ensures ListIs(h, Intended(g, s, op))
  {
    hide Chain, UniqueNames, InfosOf, Allocate, Register, Free, ListIs, Promised;
    match op
    case Alloc(info) => AllocateIs(g, s, info);
    case Reg(d) => RegisterIs(g, s, d);
    case Fre(d) => AsPromisedIff(g, s, d);
  }

  /** While nothing is freed whose name belongs to another listed device, every list of the run is the intended
      one of the previous. */
  lemma {:induction false} RunIntended(gs: seq<Graph>, ops: seq<Op>, ss: seq<seq<nat>>)
    requires Run(gs, ops) && |ss| == |gs| && ListIs(gs[0], ss[0])
    requires forall i :: 0 <= i < |ops| ==> OwnName(gs[i], ss[i], ops[i])
    requires forall i :: 0 <= i < |ops| ==> ss[i + 1] == Intended(gs[i], ss[i], ops[i])
    ensures forall i :: 0 <= i < |gs| ==> ListIs(gs[i], ss[i])
  {
    hide ListIs, Intended, OwnName;
    var k := 0;
    while k < |ops|
      invariant k <= |ops|
      invariant forall i :: 0 <= i <= k ==> ListIs(gs[i], ss[i])
    {
      OwnNameIntended(gs[k], ss[k], ops[k], gs[k + 1]);
      k := k + 1;
    }
  }

  // ----- two runs in which devices that fell off the list come back -----

  ghost predicate Reaches(g: Graph, ops: seq<Op>, h: Graph) {
    exists gs :: Run(gs, ops) && gs[0] == g && gs[|ops|] == h
  }

  lemma {:induction false} Stay(g: Graph)
    ensures Reaches(g, [], g)
  {
    assert Run([g], []);
  }

  lemma {:induction false} Then(g: Graph, ops: seq<Op>, h: Graph, s: seq<nat>, op: Op)
    requires Reaches(g, ops, h) && ListIs(h, s) && Callable(h, op)
    ensures Reaches(g, ops + [op], Apply(h, s, op))
  {
    hide ListIs, Apply, Next;
    var gs :| Run(gs, ops) && gs[0] == g && gs[|ops|] == h;
    NextIs(h, s, op);
    var gs', ops' := gs + [Apply(h, s, op)], ops + [op];
    forall i | 0 <= i < |ops'|
      ensures Next(gs'[i], ops'[i], gs'[i + 1])
    {
      if i < |ops| { assert Next(gs[i], ops[i], gs[i + 1]); }
    }
    assert Run(gs', ops');
  }

  predicate NameAt(g: Graph, s: seq<nat>, i: nat, name: string) {
    && i <= |s| && (i < |s| ==> InfoAt(g, s[i]).name == name)
    && forall j :: 0 <= j < i ==> InfoAt(g, s[j]).name != name
  }

  lemma {:induction false} Found(g: Graph, s: seq<nat>, i: nat, name: string)
    requires NameAt(g, s, i, name)
    ensures FindName(InfosOf(g, s), name) == i
  {
    hide InfoAt;
  }

  lemma {:induction false} ThenAlloc(ops: seq<Op>, h: Graph, s: seq<nat>, info: Info, ops': seq<Op>, h': Graph)
    requires Reaches(NONE, ops, h) && ListIs(h, s) && NameAt(h, s, |s|, info.name) && ops' == ops + [Alloc(info)]
    requires h'.base == h.base && h'.next == h.next + [Nil] && h'.infos == h.infos + [info] && h'.freed == h.freed
    ensures Reaches(NONE, ops', h') && ListIs(h', s)
  {
    hide ListIs, Reaches, NameAt;
    Found(h, s, |s|, info.name);
    AllocateIs(h, s, info);
    Then(NONE, ops, h, s, Alloc(info));
    assert h' == Allocate(h, s, info);
  }

  lemma {:induction false} ThenReg(ops: seq<Op>, h: Graph, s: seq<nat>, d: nat, ops': seq<Op>, h': Graph, s': seq<nat>)
    requires Reaches(NONE, ops, h) && ListIs(h, s) && Live(h, d) && NameAt(h, s, |s|, InfoAt(h, d).name)
    requires ops' == ops + [Reg(d)] && s' == s + [d] && (s != [] ==> s[|s|-1] < |h.next|)
    requires h'.base == if s == [] then To(d) else h.base
    requires h'.next == (if s == [] then h.next else h.next[s[|s|-1] := To(d)])[d := Nil]
    requires h'.infos == h.infos && h'.freed == h.freed
    ensures Reaches(NONE, ops', h') && ListIs(h', s')
  {
    hide Reaches, NameAt, ListIs, InfoAt;
    Found(h, s, |s|, InfoAt(h, d).name);
    RegisterIs(h, s, d);
    Then(NONE, ops, h, s, Reg(d));
    assert h' == Register(h, s, d);
  }

  lemma {:induction false} ThenRefused(ops: seq<Op>, h: Graph, s: seq<nat>, d: nat, i: nat, ops': seq<Op>)
    requires Reaches(NONE, ops, h) && ListIs(h, s) && Live(h, d) && i < |s| && NameAt(h, s, i, InfoAt(h, d).name)
    requires ops' == ops + [Reg(d)]
    ensures Reaches(NONE, ops', h)
  {
    hide Reaches, ListIs, NameAt, InfoAt;
    Found(h, s, i, InfoAt(h, d).name);
    Then(NONE, ops, h, s, Reg(d));
  }

  lemma {:induction false} ThenFree(ops: seq<Op>, h: Graph, s: seq<nat>, d: nat, i: nat, ops': seq<Op>, h': Graph)
    requires Reaches(NONE, ops, h) && ListIs(h, s) && Live(h, d) && ops' == ops + [Fre(d)]
    requires 0 < i < |s| && NameAt(h, s, i, InfoAt(h, d).name) && s[i-1] < |h.next|
    requires h'.base == h.base && h'.next == h.next[s[i-1] := h.next[d]]
    requires h'.infos == h.infos && h'.freed == h.freed + {d}
    ensures Reaches(NONE, ops', h')
  {
    hide Reaches, NameAt, ListIs, InfoAt;
    Found(h, s, i, InfoAt(h, d).name);
    Then(NONE, ops, h, s, Fre(d));
    assert h' == Free(h, s, d);
  }

  const NONE := Graph(Nil, [], [], {})

  function Dev(c: char): Info {
    Info([c], 0)
  }

  /** Four devices, of which the last has the name of the second. It is refused, and freeing it drops all
      but the first from the list; device 1 still leads to device 2. */
  const OPENING := [Alloc(Dev('a')), Alloc(Dev('b')), Alloc(Dev('c')), Alloc(Dev('b')),
                    Reg(0), Reg(1), Reg(2), Reg(3), Fre(3)]
  const FOUR := [Dev('a'), Dev('b'), Dev('c'), Dev('b')]
  const DROPPED := Graph(To(0), [Nil, To(2), Nil, Nil], FOUR, {3})

  lemma {:induction false} NoneListed()
    ensures ListIs(NONE, [])
  {
  }

  lemma {:induction false} FourAllocated()
    ensures var h := Graph(Nil, [Nil, Nil, Nil, Nil], FOUR, {});
      Reaches(NONE, OPENING[..4], h) && ListIs(h, [])
  {
    hide Reaches, ListIs;
    NoneListed();
    Stay(NONE);
    var g1 := Graph(Nil, [Nil], FOUR[..1], {});
    var g2 := Graph(Nil, [Nil, Nil], FOUR[..2], {});
    var g3 := Graph(Nil, [Nil, Nil, Nil], FOUR[..3], {});
    ThenAlloc([], NONE, [], Dev('a'), OPENING[..1], g1);
    ThenAlloc(OPENING[..1], g1, [], Dev('b'), OPENING[..2], g2);
    ThenAlloc(OPENING[..2], g2, [], Dev('c'), OPENING[..3], g3);
    ThenAlloc(OPENING[..3], g3, [], Dev('b'), OPENING[..4], Graph(Nil, [Nil, Nil, Nil, Nil], FOUR, {}));
  }

  lemma {:induction false} ThreeListed()
    ensures var h := Graph(To(0), [To(1), To(2), Nil, Nil], FOUR, {});
      Reaches(NONE, OPENING[..7], h) && ListIs(h, [0, 1, 2])
  {
    hide Reaches, ListIs;
    FourAllocated();
    var g0 := Graph(Nil, [Nil, Nil, Nil, Nil], FOUR, {});
    var g1 := Graph(To(0), [Nil, Nil, Nil, Nil], FOUR, {});
    var g2 := Graph(To(0), [To(1), Nil, Nil, Nil], FOUR, {});
    ThenReg(OPENING[..4], g0, [], 0, OPENING[..5], g1, [0]);
    ThenReg(OPENING[..5], g1, [0], 1, OPENING[..6], g2, [0, 1]);
    ThenReg(OPENING[..6], g2, [0, 1], 2, OPENING[..7], Graph(To(0), [To(1), To(2), Nil, Nil], FOUR, {}), [0, 1, 2]);
  }

  lemma {:induction false} OpeningDrops()
    ensures Reaches(NONE, OPENING, DROPPED) && ListIs(DROPPED, [0])
  {
    hide Reaches;
    ThreeListed();
    var g := Graph(To(0), [To(1), To(2), Nil, Nil], FOUR, {});
    ThenRefused(OPENING[..7], g, [0, 1, 2], 3, 1, OPENING[..8]);
    ThenFree(OPENING[..8], g, [0, 1, 2], 3, 1, OPENING, DROPPED);
    assert [0][1..] == [] && Chain(DROPPED, To(0), [0], Nil);
  }

  /** Device 2 is registered again and a new 'b' behind it; freeing device 1 then links device 2 to itself. */
  const CYCLING := [Reg(2), Alloc(Dev('b')), Reg(4), Fre(1)]
  const CYCLE := Graph(To(0), [To(2), To(2), To(2), Nil, Nil], FOUR + [Dev('b')], {3, 1})

  lemma {:induction false} CycleHappens()
    ensures Reaches(NONE, OPENING + CYCLING, CYCLE)
    ensures CYCLE.base == To(0) && CYCLE.next[0] == To(2) && CYCLE.next[2] == To(2) && !ListOk(CYCLE)
  {
    hide Reaches, ListIs;
    OpeningDrops();
    var more := OPENING + CYCLING;
    var g1 := Graph(To(0), [To(2), To(2), Nil, Nil], FOUR, {3});
    var g2 := Graph(To(0), [To(2), To(2), Nil, Nil, Nil], FOUR + [Dev('b')], {3});
    var g3 := Graph(To(0), [To(2), To(2), To(4), Nil, Nil], FOUR + [Dev('b')], {3});
    ThenReg(OPENING, DROPPED, [0], 2, more[..10], g1, [0, 2]);
    ThenAlloc(more[..10], g1, [0, 2], Dev('b'), more[..11], g2);
    ThenReg(more[..11], g2, [0, 2], 4, more[..12], g3, [0, 2, 4]);
    ThenFree(more[..12], g3, [0, 2, 4], 1, 2, more, CYCLE);
    CycleHasNoEnd();
  }

  lemma {:induction false} CycleHasNoEnd()
    ensures !ListOk(CYCLE)
  {
    if s :| ListIs(CYCLE, s) {
      ChainSplit(CYCLE, CYCLE.base, s, Nil, 1);
      NoReturn(CYCLE, 2, s[2..]);
      NoReturn(CYCLE, 2, s[1..]);
    }
  }

  /** A new 'c' and a new 'b' are registered; freeing device 1 puts the old 'c' behind the new one. */
  const REPEATING := [Alloc(Dev('c')), Reg(4), Alloc(Dev('b')), Reg(5), Fre(1)]
  const REPEATED := Graph(To(0), [To(4), To(2), Nil, Nil, To(2), Nil], FOUR + [Dev('c'), Dev('b')], {3, 1})

  lemma {:induction false} RepeatHappens()
    ensures Reaches(NONE, OPENING + REPEATING, REPEATED)
    ensures Chain(REPEATED, REPEATED.base, [0, 4, 2], Nil)
    ensures InfoAt(REPEATED, 4).name == InfoAt(REPEATED, 2).name && !ListOk(REPEATED)
  {
    hide Reaches, ListIs;
    OpeningDrops();
    var more := OPENING + REPEATING;
    var g1 := Graph(To(0), [Nil, To(2), Nil, Nil, Nil], FOUR + [Dev('c')], {3});
    var g2 := Graph(To(0), [To(4), To(2), Nil, Nil, Nil], FOUR + [Dev('c')], {3});
    var g3 := Graph(To(0), [To(4), To(2), Nil, Nil, Nil, Nil], FOUR + [Dev('c'), Dev('b')], {3});
    var g4 := Graph(To(0), [To(4), To(2), Nil, Nil, To(5), Nil], FOUR + [Dev('c'), Dev('b')], {3});
    ThenAlloc(OPENING, DROPPED, [0], Dev('c'), more[..10], g1);
    ThenReg(more[..10], g1, [0], 4, more[..11], g2, [0, 4]);
    ThenAlloc(more[..11], g2, [0, 4], Dev('b'), more[..12], g3);
    ThenReg(more[..12], g3, [0, 4], 5, more[..13], g4, [0, 4, 5]);
    ThenFree(more[..13], g4, [0, 4, 5], 1, 2, more, REPEATED);
    RepeatedList();
  }

  lemma {:induction false} RepeatedList()
    ensures Chain(REPEATED, REPEATED.base, [0, 4, 2], Nil)
    ensures InfoAt(REPEATED, 4).name == InfoAt(REPEATED, 2).name && !ListOk(REPEATED)
  {
    var s := [0, 4, 2];
    assert [2][1..] == [] && Chain(REPEATED, To(2), [2], Nil);
    assert [4, 2][1..] == [2] && Chain(REPEATED, To(4), [4, 2], Nil);
    assert s[1..] == [4, 2];
    assert InfosOf(REPEATED, s)[1].name == InfosOf(REPEATED, s)[2].name;
    if t :| ListIs(REPEATED, t) {
      ChainDetermines(REPEATED, REPEATED.base, s, t);
    }
  }
}
