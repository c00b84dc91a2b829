/** Little-endian byte strings. */
module Bytes {
  type u8 = x: nat | x < 256

  function Pow256(w: nat): nat {
    if w == 0 then 1 else 256 * Pow256(w - 1)
  }

  /** The low `w` bytes of `n`, least significant first. */
  function ToLe(n: nat, w: nat): (s: seq<u8>)
    ensures |s| == w
    decreases w
  {
    if w == 0 then [] else [n % 256] + ToLe(n / 256, w - 1)
  }

  function FromLe(s: seq<u8>): nat {
    if s == [] then 0 else s[0] + 256 * FromLe(s[1..])
  }

  /** A number that fits in `w` bytes is read back as written. */
  lemma {:induction false} LeRoundTrip(n: nat, w: nat)
    requires n < Pow256(w)
    ensures FromLe(ToLe(n, w)) == n
    decreases w
  {
    if w > 0 {
      LeRoundTrip(n / 256, w - 1);
      assert ToLe(n, w)[1..] == ToLe(n / 256, w - 1);
    }
  }

  /** Bytes further on weigh more: a string's number is its first part's plus the rest's, shifted past it. */
  lemma {:induction false} LeSplits(a: seq<u8>, b: seq<u8>)
    ensures FromLe(a + b) == FromLe(a) + Pow256(|a|) * FromLe(b)
  {
    if a == [] {
      assert a + b == b;
    } else {
      LeSplits(a[1..], b);
      assert (a + b)[1..] == a[1..] + b;
      assert 256 * (Pow256(|a| - 1) * FromLe(b)) == Pow256(|a|) * FromLe(b);
    }
  }

  lemma {:induction false} FromLeBound(s: seq<u8>)
    ensures FromLe(s) < Pow256(|s|)
  {
    if s != [] { FromLeBound(s[1..]); }
  }

  /** `data` with `bytes` written at `offset`. */
  function Spliced(data: seq<u8>, offset: nat, bytes: seq<u8>): (r: seq<u8>)
    requires offset + |bytes| <= |data|
    ensures |r| == |data|
    ensures r[offset..offset + |bytes|] == bytes
  {
    data[..offset] + bytes + data[offset + |bytes|..]
  }

  /** A write leaves every disjoint window of the buffer alone. */
  lemma SplicedElsewhere(data: seq<u8>, offset: nat, bytes: seq<u8>, lo: nat, hi: nat)
    requires offset + |bytes| <= |data| && lo <= hi <= |data|
    requires hi <= offset || offset + |bytes| <= lo
    ensures Spliced(data, offset, bytes)[lo..hi] == data[lo..hi]
  {
    var r := Spliced(data, offset, bytes);
    forall i | lo <= i < hi ensures r[i] == data[i] {}
  }
}
