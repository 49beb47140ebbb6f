/** The device list of hld_dev.c as a sequence, and its counted ids. */
module RegistryState {
  const ID_RANGE: nat := 0x10000
  const NAME_SIZE: nat := 16

  /** `kind` holds the device type in its upper half and the id in its lower half. */
  datatype Info = Info(name: string, kind: nat)

  function TypeOf(kind: nat): nat {
    kind - kind % ID_RANGE
  }

  predicate IsType(t: nat) {
    t % ID_RANGE == 0
  }

  function FindName(s: seq<Info>, name: string): (i: nat)
    ensures i <= |s|
    ensures i < |s| ==> s[i].name == name
    ensures forall j :: 0 <= j < i ==> s[j].name != name
  {
    if s == [] || s[0].name == name then 0 else 1 + FindName(s[1..], name)
  }

  function FindKind(s: seq<Info>, kind: nat): (i: nat)
    ensures i <= |s|
    ensures i < |s| ==> s[i].kind == kind
    ensures forall j :: 0 <= j < i ==> s[j].kind != kind
  {
    if s == [] || s[0].kind == kind then 0 else 1 + FindKind(s[1..], kind)
  }

  /** First device of type t from index `from` on. */
  function FindType(s: seq<Info>, from: nat, t: nat): (i: nat)
    requires from <= |s|
    ensures from <= i <= |s|
    ensures i < |s| ==> TypeOf(s[i].kind) == t
    ensures forall j :: from <= j < i ==> TypeOf(s[j].kind) != t
    decreases |s| - from
  {
    if from == |s| || TypeOf(s[from].kind) == t then from else FindType(s, from + 1, t)
  }

  /** How many devices of type t the list holds. */
  function CountType(s: seq<Info>, t: nat): (n: nat)
    ensures n <= |s|
  {
    if s == [] then 0 else CountType(s[..|s|-1], t) + if TypeOf(s[|s|-1].kind) == t then 1 else 0
  }

  lemma {:induction false} CountStep(s: seq<Info>, k: nat, t: nat)
    requires k < |s|
    ensures CountType(s[..k+1], t) == CountType(s[..k], t) + if TypeOf(s[k].kind) == t then 1 else 0
  {
    assert s[..k+1][..k] == s[..k];
  }

  /** The kind dev_alloc gives a new device: the count is kept in 16 bits. */
  function NewKind(s: seq<Info>, t: nat): nat {
    t + CountType(s, t) % ID_RANGE
  }

  function Add(s: seq<Info>, d: Info): seq<Info> {
    if FindName(s, d.name) < |s| then s else s + [d]
  }

  predicate UniqueNames(s: seq<Info>) {
    forall i, j :: 0 <= i < j < |s| ==> s[i].name != s[j].name
  }

  /** hld_dev_remove searches by name but relinks with the `next` of its argument, which leads to `tail`. */
  function Remove(s: seq<Info>, name: string, tail: seq<Info>): seq<Info> {
    var i := FindName(s, name);
    if i == |s| then s else s[..i] + tail
  }

  lemma {:induction false} AddKeepsUnique(s: seq<Info>, d: Info)
    requires UniqueNames(s)
    ensures UniqueNames(Add(s, d))
  {
  }

  lemma {:induction false} DropUnique(s: seq<Info>, i: nat)
    requires UniqueNames(s) && i < |s|
    ensures UniqueNames(s[..i] + s[i+1..])
  {
  }

  lemma {:induction false} FindUnique(s: seq<Info>, i: nat)
    requires UniqueNames(s) && i < |s|
    ensures FindName(s, s[i].name) == i
  {
  }

  // ----- counted ids -----

  /** Each device's id is the number of devices of its type before it. */
  predicate Counted(s: seq<Info>) {
    forall i :: 0 <= i < |s| ==> s[i].kind == TypeOf(s[i].kind) + CountType(s[..i], TypeOf(s[i].kind))
  }

  /** Allocating a device and registering it before the next allocation. */
  function AllocRegister(s: seq<Info>, name: string, t: nat): seq<Info> {
    Add(s, Info(name, NewKind(s, t)))
  }

  lemma {:induction false} TypePlus(t: nat, id: nat)
    requires IsType(t) && id < ID_RANGE
    ensures TypeOf(t + id) == t
  {
  }

  lemma {:induction false} NewKindParts(s: seq<Info>, t: nat)
    requires IsType(t) && CountType(s, t) < ID_RANGE
    ensures NewKind(s, t) == t + CountType(s, t) && TypeOf(NewKind(s, t)) == t
  {
  }

  lemma {:induction false} AllocKeepsCounted(s: seq<Info>, name: string, t: nat)
    requires Counted(s) && IsType(t) && CountType(s, t) < ID_RANGE
    ensures Counted(AllocRegister(s, name, t))
  {
    hide TypeOf, NewKind, CountType;
    NewKindParts(s, t);
    var r := AllocRegister(s, name, t);
    if r != s {
      assert r[..|s|] == s;
      forall i | 0 <= i < |r|
        ensures r[i].kind == TypeOf(r[i].kind) + CountType(r[..i], TypeOf(r[i].kind))
      {
        assert i < |s| ==> r[..i] == s[..i];
      }
    }
  }

  /** The id is the count in 16 bits: device number 65536 of a type gets id 0 once more. */
  lemma {:induction false} IdsWrap(s: seq<Info>, t: nat)
    requires IsType(t)
    ensures TypeOf(NewKind(s, t)) == t && NewKind(s, t) < t + 0x10000
    ensures exists q: nat :: NewKind(s, t) - t + q * 0x10000 == CountType(s, t)
    ensures CountType(s, t) == 0x10000 ==> NewKind(s, t) == t
  {
    var c := CountType(s, t);
    assert NewKind(s, t) - t + c / 0x10000 * 0x10000 == c;
    TypePlus(t, c % ID_RANGE);
  }

  datatype Request = Request(name: string, t: nat)

  function Boot(s: seq<Info>, requests: seq<Request>): seq<Info>
    decreases |requests|
  {
    if requests == [] then s else Boot(AllocRegister(s, requests[0].name, requests[0].t), requests[1..])
  }

  lemma {:induction false} CountPrefix(s: seq<Info>, i: nat, t: nat)
    requires i <= |s|
    ensures CountType(s[..i], t) <= CountType(s, t)
    ensures i < |s| && TypeOf(s[i].kind) == t ==> CountType(s[..i], t) < CountType(s, t)
    decreases |s|
  {
    if i == |s| {
      assert s[..i] == s;
    } else {
      assert s[..|s|-1][..i] == s[..i];
      CountPrefix(s[..|s|-1], i, t);
    }
  }

  /** How many devices of type t are asked for. */
  function Wanted(requests: seq<Request>, t: nat): nat {
    if requests == [] then 0 else (if requests[0].t == t then 1 else 0) + Wanted(requests[1..], t)
  }

  lemma {:induction false} CountAfterAlloc(s: seq<Info>, name: string, t0: nat, t: nat)
    requires IsType(t0) && CountType(s, t0) < ID_RANGE
    ensures CountType(AllocRegister(s, name, t0), t) <= CountType(s, t) + if t == t0 then 1 else 0
  {
    hide TypeOf;
    NewKindParts(s, t0);
    assert (s + [Info(name, NewKind(s, t0))])[..|s|] == s;
  }

  /** However many devices are allocated and registered one by one, ids count up per type, up to the
      65536 ids a type has. */
  lemma {:induction false} BootCounted(s: seq<Info>, requests: seq<Request>)
    requires Counted(s)
    requires forall t :: CountType(s, t) + Wanted(requests, t) <= ID_RANGE
    requires forall i :: 0 <= i < |requests| ==> IsType(requests[i].t)
    ensures Counted(Boot(s, requests))
    decreases |requests|
  {
    hide TypeOf, Counted;
    if requests == [] {
    } else {
      var t0, rest := requests[0].t, requests[1..];
      var s' := AllocRegister(s, requests[0].name, t0);
      assert CountType(s, t0) + Wanted(requests, t0) <= ID_RANGE;
      AllocKeepsCounted(s, requests[0].name, t0);
      forall t ensures CountType(s', t) + Wanted(rest, t) <= ID_RANGE {
        assert CountType(s, t) + Wanted(requests, t) <= ID_RANGE;
        CountAfterAlloc(s, requests[0].name, t0, t);
      }
      BootCounted(s', rest);
    }
  }

  /** With counted ids, dev_get_by_id(t, j) finds the j-th device of type t in list order... */
  lemma {:induction false} IdFindsJth(s: seq<Info>, i: nat)
    requires Counted(s) && i < |s|
    ensures FindKind(s, TypeOf(s[i].kind) + CountType(s[..i], TypeOf(s[i].kind))) == i
  {
    hide TypeOf, CountType;
    var t := TypeOf(s[i].kind);
    var f := FindKind(s, s[i].kind);
    if f < i {
      assert TypeOf(s[f].kind) == t;
      assert s[..i][..f] == s[..f];
      CountPrefix(s[..i], f, t);
    }
  }

  /** ... and exactly the ids below the number of devices of that type are found. */
  lemma {:induction false} IdFoundIffBelowCount(s: seq<Info>, t: nat, id: nat)
    requires Counted(s) && IsType(t) && id < ID_RANGE
    ensures FindKind(s, t + id) < |s| <==> id < CountType(s, t)
  {
    hide TypeOf, CountType;
    TypePlus(t, id);
    var f := FindKind(s, t + id);
    if f < |s| {
      assert TypeOf(s[f].kind) == t;
      CountPrefix(s, f, t);
    }
    if id < CountType(s, t) {
      var i := Nth(s, t, id);
    }
  }

  lemma {:induction false} Nth(s: seq<Info>, t: nat, id: nat) returns (i: nat)
    requires id < CountType(s, t)
    ensures i < |s| && TypeOf(s[i].kind) == t && CountType(s[..i], t) == id
    decreases |s|
  {
    var last := |s| - 1;
    if TypeOf(s[last].kind) == t && CountType(s[..last], t) == id {
      i := last;
    } else {
      i := Nth(s[..last], t, id);
      assert s[..last][..i] == s[..i];
    }
  }

  /** Two devices allocated before either is registered get the same id, and the next id finds none. */
  lemma {:induction false} LateRegistrationRepeatsId(a: string, b: string, t: nat)
    requires IsType(t) && a != b
    ensures var s := Add(Add([], Info(a, NewKind([], t))), Info(b, NewKind([], t)));
            |s| == 2 && s[0].kind == s[1].kind && FindKind(s, t + 1) == |s|
  {
  }

  /** After the first of two devices is freed, the next allocation repeats the id of the second. */
  lemma {:induction false} FreeThenAllocRepeatsId(a: string, b: string, t: nat)
    requires IsType(t) && a != b
    ensures var two := AllocRegister(AllocRegister([], a, t), b, t);
            two == [Info(a, t), Info(b, t + 1)]
            && Remove(two, a, two[1..]) == [Info(b, t + 1)]
            && NewKind([Info(b, t + 1)], t) == t + 1
  {
    hide TypeOf;
    NewKindParts([], t);
    CountOne(Info(a, t), t);
    NewKindParts([Info(a, t)], t);
    assert AllocRegister([], a, t) == [Info(a, t)];
    CountOne(Info(b, t + 1), t);
  }

  lemma {:induction false} CountOne(d: Info, t: nat)
    requires TypeOf(d.kind) == t
    ensures CountType([d], t) == 1
  {
    assert [d][..0] == [];
  }
}
