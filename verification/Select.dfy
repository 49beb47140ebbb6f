/** Selecting list entries by filter id: what node_get_one and its flush loops do to a sequence.
    `keys[i]` is the filter id of entry `s[i]`. */
module Select {

  /** Position of the first key equal to flt, or the length when there is none. */
  function FirstAt(keys: seq<nat>, flt: nat): (k: nat)
    ensures k <= |keys| && forall i :: 0 <= i < k ==> keys[i] != flt
    ensures k < |keys| ==> keys[k] == flt
  {
    if keys == [] || keys[0] == flt then 0 else 1 + FirstAt(keys[1..], flt)
  }

  function Without<T>(s: seq<T>, k: nat): (r: seq<T>)
    requires k < |s|
    ensures |r| == |s| - 1
  {
    s[..k] + s[k+1..]
  }

  /** Entries of one filter, in order. */
  function Picked<T>(s: seq<T>, keys: seq<nat>, flt: nat): seq<T>
    requires |s| == |keys|
  {
    if s == [] then [] else (if keys[0] == flt then [s[0]] else []) + Picked(s[1..], keys[1..], flt)
  }

  /** Entries of all other filters, in order. */
  function Skipped<T>(s: seq<T>, keys: seq<nat>, flt: nat): seq<T>
    requires |s| == |keys|
  {
    if s == [] then [] else (if keys[0] == flt then [] else [s[0]]) + Skipped(s[1..], keys[1..], flt)
  }

  /** Picking and skipping together lose nothing and duplicate nothing. */
  lemma {:induction false} SelectPartition<T>(s: seq<T>, keys: seq<nat>, flt: nat)
    requires |s| == |keys|
    ensures multiset(s) == multiset(Picked(s, keys, flt)) + multiset(Skipped(s, keys, flt))
  {
    if s != [] {
      assert s == [s[0]] + s[1..];
      SelectPartition(s[1..], keys[1..], flt);
    }
  }

  /** Picking keeps the order: what is picked from the front comes before what is picked from the back. */
  lemma {:induction false} SelectInOrder<T>(a: seq<T>, aKeys: seq<nat>, b: seq<T>, bKeys: seq<nat>, flt: nat)
    requires |a| == |aKeys| && |b| == |bKeys|
    ensures Picked(a + b, aKeys + bKeys, flt) == Picked(a, aKeys, flt) + Picked(b, bKeys, flt)
    ensures Skipped(a + b, aKeys + bKeys, flt) == Skipped(a, aKeys, flt) + Skipped(b, bKeys, flt)
  {
    if a == [] {
      assert a + b == b && aKeys + bKeys == bKeys;
    } else {
      SelectInOrder(a[1..], aKeys[1..], b, bKeys, flt);
      assert (a + b)[1..] == a[1..] + b && (aKeys + bKeys)[1..] == aKeys[1..] + bKeys;
      var mine, other := if aKeys[0] == flt then [a[0]] else [], if aKeys[0] == flt then [] else [a[0]];
      var p, q := Picked(a[1..], aKeys[1..], flt), Skipped(a[1..], aKeys[1..], flt);
      assert Picked(a, aKeys, flt) == mine + p && Picked(a + b, aKeys + bKeys, flt) == mine + (p + Picked(b, bKeys, flt));
      assert Skipped(a, aKeys, flt) == other + q && Skipped(a + b, aKeys + bKeys, flt) == other + (q + Skipped(b, bKeys, flt));
      hide Picked, Skipped;
      assert mine + (p + Picked(b, bKeys, flt)) == (mine + p) + Picked(b, bKeys, flt);
      assert other + (q + Skipped(b, bKeys, flt)) == (other + q) + Skipped(b, bKeys, flt);
    }
  }

  lemma {:induction false} NoneSelected<T>(s: seq<T>, keys: seq<nat>, flt: nat)
    requires |s| == |keys| && flt !in keys
    ensures Picked(s, keys, flt) == [] && Skipped(s, keys, flt) == s
  {
    if s != [] {
      NoneSelected(s[1..], keys[1..], flt);
    }
  }

  lemma {:induction false} AllSelected<T>(s: seq<T>, keys: seq<nat>, flt: nat)
    requires |s| == |keys| && forall i :: 0 <= i < |keys| ==> keys[i] == flt
    ensures Picked(s, keys, flt) == s && Skipped(s, keys, flt) == []
  {
    if s != [] {
      AllSelected(s[1..], keys[1..], flt);
    }
  }

  lemma {:induction false} WithoutTail<T>(s: seq<T>, k: nat)
    requires 0 < k < |s|
    ensures Without(s, k)[0] == s[0] && Without(s, k)[1..] == Without(s[1..], k-1)
  {
    assert s[..k] == [s[0]] + s[1..][..k-1];
    assert s[k+1..] == s[1..][k..];
  }

  /** One round of the flush loop: taking the first entry of the filter out keeps the rest. */
  lemma {:induction false} TakeFirst<T>(s: seq<T>, keys: seq<nat>, flt: nat)
    requires |s| == |keys| && FirstAt(keys, flt) < |keys|
    ensures var k := FirstAt(keys, flt);
      && Picked(s, keys, flt) == [s[k]] + Picked(Without(s, k), Without(keys, k), flt)
      && Skipped(s, keys, flt) == Skipped(Without(s, k), Without(keys, k), flt)
  {
    var k := FirstAt(keys, flt);
    var r, rk := Without(s, k), Without(keys, k);
    if keys[0] == flt {
      assert r == s[1..] && rk == keys[1..];
    } else {
      TakeFirst(s[1..], keys[1..], flt);
      WithoutTail(s, k);
      WithoutTail(keys, k);
    }
  }

  /** Every selected entry occurs in the source, with a key on the right side of the test. */
  lemma {:induction false} SelectMembers<T>(s: seq<T>, keys: seq<nat>, flt: nat)
    requires |s| == |keys|
    ensures forall x :: x in Picked(s, keys, flt) <==> exists i :: 0 <= i < |s| && s[i] == x && keys[i] == flt
    ensures forall x :: x in Skipped(s, keys, flt) <==> exists i :: 0 <= i < |s| && s[i] == x && keys[i] != flt
  {
    if s != [] {
      SelectMembers(s[1..], keys[1..], flt);
      forall x
        ensures x in Picked(s, keys, flt) <==> exists i :: 0 <= i < |s| && s[i] == x && keys[i] == flt
        ensures x in Skipped(s, keys, flt) <==> exists i :: 0 <= i < |s| && s[i] == x && keys[i] != flt
      {
        if i :| 0 <= i < |s| && s[i] == x && keys[i] == flt {
          assert i > 0 ==> s[1..][i-1] == x && keys[1..][i-1] == flt;
        }
        if i :| 0 <= i < |s| && s[i] == x && keys[i] != flt {
          assert i > 0 ==> s[1..][i-1] == x && keys[1..][i-1] != flt;
        }
        if i :| 0 <= i < |s[1..]| && s[1..][i] == x && keys[1..][i] == flt {
          assert s[i+1] == x && keys[i+1] == flt;
        }
        if i :| 0 <= i < |s[1..]| && s[1..][i] == x && keys[1..][i] != flt {
          assert s[i+1] == x && keys[i+1] != flt;
        }
      }
    }
  }

  lemma {:induction false} CountUpTo(k: nat, n: nat)
    ensures multiset(seq(k, i => i))[n] == if n < k then 1 else 0
  {
    if k > 0 {
      CountUpTo(k-1, n);
      assert seq(k, i => i) == seq(k-1, i => i) + [k-1];
    }
  }
}
