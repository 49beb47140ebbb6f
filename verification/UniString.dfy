/** Wide strings of ld_osd_common.c on the little-endian build. */
module UniString {
  import opened Bytes

  type Unit = u: int | 0 <= u < 0x10000

  /** Index of the first zero, or the length. */
  function Length(s: seq<int>): (n: nat)
    ensures n <= |s|
    ensures n < |s| ==> s[n] == 0
    ensures forall i :: 0 <= i < n ==> s[i] != 0
  {
    if s == [] || s[0] == 0 then 0 else 1 + Length(s[1..])
  }

  predicate Terminated(s: seq<int>) {
    Length(s) < |s|
  }

  /** Both bytes of a unit at an even offset are zero. */
  predicate ZeroPair(bytes: seq<int>, i: nat) {
    i % 2 == 0 && i + 1 < |bytes| && bytes[i] == 0 && bytes[i+1] == 0
  }

  /** First even offset with two zero bytes, from offset i on, or some offset at the end. */
  function PairLength(bytes: seq<int>, i: nat): (n: nat)
    requires i <= |bytes|
    ensures i <= n <= |bytes|
    ensures n + 1 < |bytes| ==> ZeroPair(bytes, n)
    ensures forall j :: i <= j < n ==> !ZeroPair(bytes, j)
    decreases |bytes| - i
  {
    if i + 1 >= |bytes| || ZeroPair(bytes, i) then i else PairLength(bytes, i + 1)
  }

  predicate PairTerminated(bytes: seq<int>) {
    PairLength(bytes, 0) + 1 < |bytes|
  }

  /** What ComAscStr2Uni stores for one character: `c << 8`. */
  function Widen(s: seq<Byte>): (r: seq<Unit>)
    ensures |r| == |s|
    ensures forall i :: 0 <= i < |s| ==> r[i] == Shifted(s[i])
  {
    seq(|s|, i requires 0 <= i < |s| => Shifted(s[i]))
  }

  function Shifted(b: int): (u: int)
    requires 0 <= b < 0x100
    ensures u % 256 == 0 && u / 256 == b && 0 <= u < 0x10000
    ensures u == 0 <==> b == 0
  {
    b * 256
  }

  /** The memory image of units on a little-endian machine. */
  function Memory(units: seq<Unit>): (bytes: seq<Byte>)
    ensures |bytes| == 2 * |units|
    ensures forall k :: 0 <= k < |units| ==> bytes[2*k] == units[k] % 256 && bytes[2*k+1] == units[k] / 256
  {
    if units == [] then [] else Memory(units[..|units|-1]) + [units[|units|-1] % 256, units[|units|-1] / 256]
  }

  /** ComMB16ToUINT16 for a non-null pointer to these two bytes. */
  function Mb16(first: int, second: int): (u: int)
    requires 0 <= first < 0x100 && 0 <= second < 0x100
    ensures 0 <= u < 0x10000
  {
    first * 256 + second
  }

  /** Two bytes at a time, most significant first. */
  function Decode(bytes: seq<Byte>, n: nat): seq<int>
    requires 2 * n <= |bytes|
  {
    seq(n, k requires 0 <= k < n => Mb16(bytes[2*k], bytes[2*k+1]))
  }

  // ----- the loops -----

  method ComAscStr2Uni(ascii: array?<Byte>, uni: array?<Unit>) returns (n: nat)
    requires ascii != null && uni != null ==> Terminated(ascii[..]) && Length(ascii[..]) < uni.Length
    modifies uni
    ensures ascii == null || uni == null ==> n == 0
    ensures ascii != null && uni != null ==>
              && n == Length(old(ascii[..]))
              && uni[..] == Widen(old(ascii[..n])) + [0] + old(uni[n+1..])
  {
    n := 0;
    if ascii == null || uni == null {
      return;
    }
    while ascii[n] != 0
      invariant n <= Length(ascii[..])
      invariant forall k :: 0 <= k < n ==> uni[k] == Shifted(ascii[k])
      invariant forall k :: n <= k < uni.Length ==> uni[k] == old(uni[k])
      decreases ascii.Length - n
    {
      uni[n] := Shifted(ascii[n]);
      n := n + 1;
    }
    uni[n] := 0;
  }

  method ComUniStrLen(units: array?<Unit>) returns (n: nat)
    requires units != null ==> Terminated(units[..])
    ensures n == if units == null then 0 else Length(units[..])
  {
    n := 0;
    if units == null {
      return;
    }
    while units[n] != 0
      invariant n <= Length(units[..])
      decreases units.Length - n
    {
      n := n + 1;
    }
  }

  /** Source and destination are seen as bytes and do not overlap. The loop ends only at an even
      offset, so the source's repair of an odd one is dead code. */
  method ComUniStrCopyChar(dest: array?<Byte>, src: array?<Byte>) returns (n: nat)
    requires dest != null && src != null ==>
               dest != src && PairTerminated(src[..]) && PairLength(src[..], 0) + 1 < dest.Length
    modifies dest
    ensures dest == null || src == null ==> n == 0
    ensures dest != null && src != null ==>
              && n == PairLength(src[..], 0) / 2 && PairLength(src[..], 0) % 2 == 0
              && dest[..] == src[..2*n+2] + old(dest[2*n+2..])
  {
    n := 0;
    if dest == null || src == null {
      return;
    }
    var i := 0;
    while !(src[i] == 0 && src[i+1] == 0 && i % 2 == 0)
      invariant i <= PairLength(src[..], 0)
      invariant dest[..i] == src[..i]
      invariant forall k :: i <= k < dest.Length ==> dest[k] == old(dest[k])
      decreases src.Length - i
    {
      dest[i] := src[i];
      i := i + 1;
    }
    assert ZeroPair(src[..], i);
    if i % 2 != 0 {
      assert false;
    }
    dest[i] := 0;
    dest[i+1] := 0;
    n := i / 2;
  }

  // ----- round trip -----

  /** A zero unit is exactly a pair of zero bytes: both length functions agree on every wide string. */
  lemma {:induction false} LengthsAgree(units: seq<Unit>)
    requires Terminated(units)
    ensures PairTerminated(Memory(units)) && PairLength(Memory(units), 0) == 2 * Length(units)
  {
    var n := Length(units);
    var bytes := Memory(units);
    assert bytes[2*n] == 0 && bytes[2*n+1] == 0;
    assert ZeroPair(bytes, 2 * n);
    forall j | 0 <= j < 2 * n ensures !ZeroPair(bytes, j) {
      if j % 2 == 0 {
        assert units[j/2] != 0;
        assert bytes[2*(j/2)] == units[j/2] % 256 && bytes[2*(j/2)+1] == units[j/2] / 256;
      }
    }
  }

  /** Decoding the memory image swaps the bytes of each unit. */
  lemma {:induction false} DecodeSwaps(units: seq<Unit>, n: nat, k: nat)
    requires k < n <= |units|
    ensures Decode(Memory(units), n)[k] == units[k] % 256 * 256 + units[k] / 256
  {
  }

  lemma {:induction false} WideLength(s: seq<Byte>, after: seq<Unit>)
    requires forall i :: 0 <= i < |s| ==> s[i] != 0
    ensures Length(Widen(s) + [0] + after) == |s|
  {
    var units := Widen(s) + [0] + after;
    assert units[|s|] == 0;
    forall i | 0 <= i < |s| ensures units[i] != 0 {
      assert units[i] == Shifted(s[i]);
    }
  }

  lemma {:induction false} WideDecode(s: seq<Byte>, after: seq<Unit>)
    ensures Decode(Memory(Widen(s) + [0] + after)[..2*|s|+2], |s|) == s
  {
    hide Memory;
    var units := Widen(s) + [0] + after;
    var bytes := Memory(units);
    forall k | 0 <= k < |s| ensures Decode(bytes[..2*|s|+2], |s|)[k] == s[k] {
      assert units[k] == Shifted(s[k]);
      assert bytes[2*k] == units[k] % 256 && bytes[2*k+1] == units[k] / 256;
    }
  }

  /** For every string without zero bytes: converting it, copying the memory image up to its
      terminator and decoding each unit gives the string back, and all lengths are its own. */
  lemma {:induction false} RoundTrip(s: seq<Byte>, after: seq<Unit>)
    requires forall i :: 0 <= i < |s| ==> s[i] != 0
    ensures Length(s + [0]) == |s|
    ensures var units := Widen(s) + [0] + after;
            && Length(units) == |s|
            && PairTerminated(Memory(units)) && PairLength(Memory(units), 0) == 2 * |s|
            && Decode(Memory(units)[..2*|s|+2], |s|) == s
  {
    var units := Widen(s) + [0] + after;
    WideLength(s, after);
    LengthsAgree(units);
    WideDecode(s, after);
    var ascii: seq<int> := s + [0];
    assert ascii[|s|] == 0 && forall i :: 0 <= i < |s| ==> ascii[i] == s[i];
  }
}
