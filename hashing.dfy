// The probe hash of the filter (src/main.rs:37-46): the element's 64-bit
// DefaultHasher digest, written out as 8 big-endian bytes, is fed to
// murmur3_x64_128 seeded with the probe index; the 128-bit output is cast
// to usize. Both hash primitives are library code and are injected as total
// (hence deterministic) functions; the byte encoding, the `as u32` seed cast
// and the `as usize` output cast are modelled explicitly.
module Hashing {
  import opened Errors

  const TWO_32: nat := 0x1_0000_0000
  const TWO_64: nat := 0x1_0000_0000_0000_0000

  type u8 = x: int | 0 <= x < 0x100
  type u32 = x: int | 0 <= x < 0x1_0000_0000
  type u64 = x: int | 0 <= x < 0x1_0000_0000_0000_0000
  type u128 = x: int | 0 <= x < 0x1_0000_0000_0000_0000_0000_0000_0000_0000

  /** The outcome of reading from the in-memory cursor (Rust's `io::Result<u128>`). */
  datatype Option<+V> = None | Some(value: V)

  /** The two hash primitives the filter relies on:
      `digest` is `DefaultHasher` (`element.hash(&mut hasher); hasher.finish()`),
      `murmur3` is `murmur3_x64_128(cursor over the bytes, seed)`, which may fail. */
  datatype Hasher<!T> = Hasher(digest: T -> u64, murmur3: (seq<u8>, u32) -> Option<u128>)

  function Pow256(n: nat): (r: nat)
    ensures r > 0
  {
    if n == 0 then 1 else 256 * Pow256(n - 1)
  }

  /** The n-byte big-endian representation of x, most significant byte first. */
  function BeBytes(x: nat, n: nat): (bs: seq<u8>)
    requires x < Pow256(n)
    ensures |bs| == n
  {
    if n == 0 then []
    else
      assert x / 256 < Pow256(n - 1);
      BeBytes(x / 256, n - 1) + [x % 256]
  }

  /** The value a big-endian byte string denotes. */
  function FromBeBytes(bs: seq<u8>): (x: nat)
    ensures x < Pow256(|bs|)
  {
    if bs == [] then 0
    else
      var y := FromBeBytes(bs[..|bs| - 1]);
      assert y * 256 + bs[|bs| - 1] < 256 * Pow256(|bs| - 1);
      y * 256 + bs[|bs| - 1]
  }

  lemma {:induction false} BeBytesRoundTrip(x: nat, n: nat)
    requires x < Pow256(n)
    ensures FromBeBytes(BeBytes(x, n)) == x
    decreases n
  {
    if n > 0 {
      var front := BeBytes(x / 256, n - 1);
      assert BeBytes(x, n)[..n - 1] == front;
      BeBytesRoundTrip(x / 256, n - 1);
    }
  }

  lemma Pow256Of8()
    ensures Pow256(8) == TWO_64
  {
  }

  /** `u64::to_be_bytes`. */
  function ToBeBytes(x: u64): (bs: seq<u8>)
    ensures |bs| == 8
  {
    Pow256Of8();
    BeBytes(x, 8)
  }

  /** The digest survives the byte encoding unchanged: `to_be_bytes` is
      invertible, so distinct digests give murmur3 distinct inputs. */
  lemma ToBeBytesRoundTrip(x: u64)
    ensures FromBeBytes(ToBeBytes(x)) == x
  {
    Pow256Of8();
    BeBytesRoundTrip(x, 8);
  }

  /** The hash of probe `index` of `el`: Ok with the usize-truncated murmur3
      output, or HashError when murmur3 fails. The seed is `index as u32`. */
  function Hash<T>(h: Hasher<T>, el: T, index: nat): (r: Result<nat>)
    ensures r.Ok? ==> r.value < TWO_64
    ensures r.Err? <==> h.murmur3(ToBeBytes(h.digest(el)), index % TWO_32).None?
  {
    var seed: u32 := index % TWO_32;
    match h.murmur3(ToBeBytes(h.digest(el)), seed)
    case Some(out) => Ok(out % TWO_64)
    case None => Err(HashError)
  }

  /** The `as u32` cast of the seed: probes whose indices differ by 2^32 hash alike. */
  lemma SeedTruncation<T>(h: Hasher<T>, el: T, index: nat)
    ensures Hash(h, el, index + TWO_32) == Hash(h, el, index)
  {
  }
}
