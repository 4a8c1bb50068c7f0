# Bloom filter (bloom-filter-rs) in Dafny

This project models `BloomFilter<T>` from `src/main.rs`, a Bloom filter
for set membership. It has a fixed-length `Vec<bool>` bit store
(`elements`) and a probe count (`num_hash_functions`, written k below).
- `new(size, k)` allocates `size` clear bits.
- `hash(el, i)` derives the hash of probe `i` of an element.
- `add_element(el)` sets the bit `hash(el, i) % len` for every probe `i` in `0..k`.
- `check_for(el)` reads the same bits. It answers `Ok(false)` at the first clear bit and `Ok(true)` when every bit is set.

Both operations leave through `?` with `HashError` as soon as one probe's hash fails.
`add_element` does not undo the bits it already set.

Files:
- `errors.dfy` (module `Errors`): `BloomFilterError` and `Result`.
- `hashing.dfy` (module `Hashing`): the probe hash. The element's `DefaultHasher` digest (a `u64`) is turned into 8 big-endian bytes. They go to `murmur3_x64_128` with the seed `index as u32`, and the 128-bit output is cast `as usize`. The two hash primitives are library code. They are injected as a `Hasher<T>` value holding two total functions, so they are deterministic and otherwise arbitrary. Every result below holds for any hash. The byte encoding and both casts are written out: `% 2^32` for the seed, `% 2^64` for the output (a 64-bit `usize`).
- `bloom_spec.dfy` (module `BloomSpec`): value-level meaning of insert and query on a `seq<bool>` bit store.
- `bloom_properties.dfy` (module `BloomProperties`): the Bloom-filter guarantees proved about that meaning.
  - no false negatives, for one element and for a whole batch;
  - an empty filter rejects;
  - insertion is monotone and saturation never decreases.
- `bloom_filter.dfy` (module `Bloom`): the class `BloomFilter<T>`.
  - It holds an `array<bool>` updated in place and the probe count.
  - A ghost set `inserted` records the elements whose `add_element` returned `Ok`.
  - `Valid()` says that every such element still has all its probes set.
  - `AddElement` and `CheckFor` are loops with invariants, proved against the `BloomSpec` functions.

The code does not validate `size` or `k`: a filter of size 0 or with k = 0 can be built.
In `hash % len`, a size-0 store panics (division by zero).
That `%` is reached exactly when k > 0 and probe 0 hashes successfully.
So the model accepts every `size` and `k` at construction. Insert and query require `ModuloDefined`: the store is non-empty, or no probe reaches the `%`.
A hardened filter would reject `size == 0` and `k == 0` at construction. The code does not, and the model follows the code.
Two corner cases follow from the code:
- With k = 0, every query answers `Ok(true)`.
- On an empty filter, a query answers `Err(HashError)` (not `Ok(false)`) when probe 0's hash fails.
`EmptyFilterRejects` states both for a fresh filter; for any bit store, the k = 0 case is the first ensures of `QueryMeaning`, since no probe has to be set.

Determinism of the query: `CheckFor` has no `modifies` clause, and its result equals `Query` of the current bits. Two queries with no insert in between therefore agree.

## Model

| member | source | states |
|---|---|---|
| Hashing.Hash | src/main.rs:37-46 | the probe hash is below 2^64 (the `as usize` cast), and it is `HashError` exactly when murmur3 fails on the big-endian digest bytes with seed `index mod 2^32` |
| Hashing.SeedTruncation | src/main.rs:42 | because of `index as u32`, probes `i` and `i + 2^32` have the same hash |
| Hashing.BeBytesRoundTrip | src/main.rs:40 | reading back the n-byte big-endian encoding of any x < 256^n gives x |
| Hashing.ToBeBytesRoundTrip | src/main.rs:40 | `to_be_bytes` of the 64-bit digest is 8 bytes from which the digest is recovered, so distinct digests give murmur3 distinct inputs |
| BloomSpec.FirstFailure | src/main.rs:49-50 | the probe at which `?` leaves the loop: every earlier probe hashes, and it is k or a failing probe |
| BloomSpec.Probes | src/main.rs:51-52 | every probe index `hash % len` lies in `[0, len)` |
| BloomSpec.SetBits | src/main.rs:49-53 | setting a list of positions one by one keeps the length, and a bit is set afterwards iff it was set before or is one of the positions |
| BloomSpec.AddBits | src/main.rs:48-55 | after `add_element` the length is unchanged, and bit p is set iff it was set before or some probe before the first failing hash lands on p: nothing is cleared, nothing else changes, no rollback |
| BloomSpec.AddStatus | src/main.rs:48-55 | `add_element` returns `Ok(())` iff all k probes hash, and `Err(HashError)` otherwise |
| BloomSpec.FirstClear | src/main.rs:58-62 | the first listed position on a clear bit: every earlier one is set, and it is the end of the list or a clear bit |
| BloomSpec.QueryMeaning | src/main.rs:57-65 | `Query`, the value-level meaning of `check_for`, is `Ok(true)` iff all k probes hash onto set bits; `Ok(false)` iff some probe hashes onto a clear bit after all earlier probes hashed onto set bits; `Err` iff some probe's hash fails after all earlier probes hashed onto set bits |
| BloomProperties.AddSetsAllProbes | src/main.rs:48-55 | after a successful insert, every probe of the element hashes onto a set bit |
| BloomProperties.AllProbesSetMonotone | src/main.rs:52 | an element whose probes are all set keeps them set when more bits are set |
| BloomProperties.AddAll | src/main.rs:48-55 | any series of inserts, successful or failed, keeps the length and clears no bit |
| BloomProperties.NoFalseNegatives | src/main.rs:48-65 | after a successful insert of x, followed by any further inserts, the query for x is `Ok(true)` |
| BloomProperties.NoFalseNegativesBatch | src/main.rs:48-65 | after inserting a batch, the query for each element whose own insert succeeded is `Ok(true)`, whatever the order and whatever failed around it |
| BloomProperties.EmptyFilterRejects | src/main.rs:29-65 | on a fresh all-clear store the query is `Ok(true)` when k = 0; otherwise it is `Ok(false)` when probe 0 hashes and `Err(HashError)` when it fails |
| BloomProperties.CountSetMonotone | src/main.rs:52 | a store whose set bits include another's has at least as many set bits |
| BloomProperties.SaturationMonotone | src/main.rs:48-55 | inserting elements never lowers the number of set bits |
| Bloom.BloomFilter.constructor | src/main.rs:29-35 | `new(size, k)`: a fresh store of exactly `size` clear bits and `num_hash_functions == k` |
| Bloom.BloomFilter.AddElement | src/main.rs:48-55 | updates the bit store in place to `AddBits` of the old bits and returns `AddStatus`; a successful element joins `inserted`; the soundness invariant `Valid` is kept |
| Bloom.BloomFilter.KeepsValid | src/main.rs:52 | setting the bits of one insert keeps every earlier inserted element's probes set |
| Bloom.BloomFilter.CheckFor | src/main.rs:57-65 | returns `Query` of the bits (so `QueryMeaning` applies), changes nothing, and answers `Ok(true)` for every successfully inserted element |

## Left out

- `main` (src/main.rs:67-77) is a demo driver that only constructs a filter and prints. It is I/O.
- The `Display` impl of `BloomFilterError` (src/main.rs:21-27) is string formatting only.
- The internals of `DefaultHasher` (SipHash) and `murmur3_x64_128` are library code that is not part of this model. They are the two injected functions of `Hasher<T>`, so nothing is assumed about them beyond determinism.
- The murmur3 function reads from an in-memory `Cursor`. Its possible I/O error is modelled as the `None` outcome of the injected function.
- The `PhantomData` marker (src/main.rs:14) becomes the type parameter `T`.
- The `usize` bounds on `size` and `num_hash_functions` are not modelled. They are unbounded `nat`s. Only the seed cast and the output cast, which change values, are written out.
- The division-by-zero panic on an empty store is not modelled as a behaviour. `AddElement` and `CheckFor` require `ModuloDefined`, which excludes exactly the calls that would panic.
- False-positive-rate statistics are probabilistic and use floating point. The code states nothing about them.
- Concurrency is out of scope: the filter is single-owner, and Rust's `&mut self` enforces that.
