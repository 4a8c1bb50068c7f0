// `BloomFilter<T>` (src/main.rs:11-15, 28-66): a fixed-length bit store
// updated in place by add_element and read by check_for.
module Bloom {
  import opened Errors
  import opened Hashing
  import opened BloomSpec
  import opened BloomProperties

  class BloomFilter<T> {
    /** The bit store; its length is fixed at construction. */
    const elements: array<bool>
    const numHashFunctions: nat
    /** The hash primitives behind `hash` (the Rust type binds them to T). */
    const hasher: Hasher<T>
    /** The elements whose add_element returned Ok; never stored at run time. */
    ghost var inserted: set<T>

    /** Soundness invariant: every successfully inserted element has all its probes set. */
    ghost predicate Valid()
      reads this, elements
    {
      forall x :: x in inserted ==> AllProbesSet(elements[..], hasher, x, numHashFunctions)
    }

    /** `new(size, num_hash_fns)`: size clear bits. */
    constructor (size: nat, numHashFns: nat, hasher: Hasher<T>)
      ensures Valid() && fresh(elements)
      ensures elements.Length == size && forall p :: 0 <= p < size ==> !elements[p]
      ensures numHashFunctions == numHashFns && this.hasher == hasher
      ensures inserted == {}
    {
      elements := new bool[size](_ => false);
      numHashFunctions := numHashFns;
      this.hasher := hasher;
      inserted := {};
    }

    /** `add_element(el)`: set the bit of each probe in turn; a failing hash
        returns HashError at once and leaves the bits already set. */
    method AddElement(el: T) returns (r: Result<()>)
      requires Valid()
      requires ModuloDefined(elements.Length, hasher, el, numHashFunctions)
      modifies this, elements
      ensures Valid()
      ensures elements[..] == AddBits(old(elements[..]), hasher, el, numHashFunctions)
      ensures r == AddStatus(hasher, el, numHashFunctions)
      ensures inserted == if r.Ok? then old(inserted) + {el} else old(inserted)
    {
      ghost var before := elements[..];
      ghost var j := FirstFailure(hasher, el, numHashFunctions);
      for i := 0 to numHashFunctions
        invariant i <= j
        invariant inserted == old(inserted)
        invariant forall p :: 0 <= p < elements.Length ==>
          (elements[p] <==> before[p] || exists m :: 0 <= m < i && Hash(hasher, el, m).value % elements.Length == p)
      {
        var hash := Hash(hasher, el, i);
        if hash.Err? {
          assert elements[..] == AddBits(before, hasher, el, numHashFunctions);
          KeepsValid(before, el);
          return Err(HashError);
        }
        var numEls := elements.Length;
        elements[hash.value % numEls] := true;
      }
      assert elements[..] == AddBits(before, hasher, el, numHashFunctions);
      KeepsValid(before, el);
      AddSetsAllProbes(before, hasher, el, numHashFunctions);
      inserted := inserted + {el};
      return Ok(());
    }

    /** Setting more bits keeps every earlier insert's probes set. */
    lemma KeepsValid(before: seq<bool>, el: T)
      requires ModuloDefined(|before|, hasher, el, numHashFunctions)
      requires forall x :: x in inserted ==> AllProbesSet(before, hasher, x, numHashFunctions)
      requires elements[..] == AddBits(before, hasher, el, numHashFunctions)
      ensures Valid()
    {
      forall x | x in inserted ensures AllProbesSet(elements[..], hasher, x, numHashFunctions) {
        AllProbesSetMonotone(before, elements[..], hasher, x, numHashFunctions);
      }
    }

    /** `check_for(el)`: Ok(false) at the first probe on a clear bit,
        HashError at the first failing hash, Ok(true) when every probe is set. */
    method CheckFor(el: T) returns (r: Result<bool>)
      requires ModuloDefined(elements.Length, hasher, el, numHashFunctions)
      ensures r == Query(elements[..], hasher, el, numHashFunctions)
      ensures Valid() && el in inserted ==> r == Ok(true)
    {
      QueryMeaning(elements[..], hasher, el, numHashFunctions);
      for i := 0 to numHashFunctions
        invariant AllProbesSet(elements[..], hasher, el, i)
      {
        var hash := Hash(hasher, el, i);
        if hash.Err? {
          assert AllProbesSet(elements[..], hasher, el, i) && Hash(hasher, el, i).Err?;
          return Err(HashError);
        }
        if !elements[hash.value % elements.Length] {
          assert AllProbesSet(elements[..], hasher, el, i) && ProbeClear(elements[..], hasher, el, i);
          return Ok(false);
        }
      }
      return Ok(true);
    }
  }
}
