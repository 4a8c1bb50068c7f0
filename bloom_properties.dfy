// The classic guarantees of the filter, proved of the value-level model:
// no false negatives, an empty filter rejects, saturation never decreases.
module BloomProperties {
  import opened Errors
  import opened Hashing
  import opened BloomSpec

  /** a has no set bit that b lacks. */
  predicate Below(a: seq<bool>, b: seq<bool>) {
    |a| == |b| && forall p :: 0 <= p < |a| && a[p] ==> b[p]
  }

  /** A successful insert leaves every probe of the element on a set bit. */
  lemma AddSetsAllProbes<T>(bits: seq<bool>, h: Hasher<T>, el: T, k: nat)
    requires ModuloDefined(|bits|, h, el, k)
    requires AddStatus(h, el, k).Ok?
    ensures AllProbesSet(AddBits(bits, h, el, k), h, el, k)
  {
    var r := AddBits(bits, h, el, k);
    forall i | 0 <= i < k ensures Hash(h, el, i).Ok? && |r| > 0 && r[Hash(h, el, i).value % |r|] {
      var p := Hash(h, el, i).value % |bits|;
      assert 0 <= i < FirstFailure(h, el, k) && Hash(h, el, i).value % |bits| == p;
    }
  }

  /** Probes that land on set bits still do so once more bits are set. */
  lemma AllProbesSetMonotone<T>(a: seq<bool>, b: seq<bool>, h: Hasher<T>, el: T, k: nat)
    requires Below(a, b)
    requires AllProbesSet(a, h, el, k)
    ensures AllProbesSet(b, h, el, k)
  {
  }

  /** The bit store after inserting els in order, whatever each insert returns. */
  function AddAll<T>(bits: seq<bool>, h: Hasher<T>, k: nat, els: seq<T>): (r: seq<bool>)
    requires forall i :: 0 <= i < |els| ==> ModuloDefined(|bits|, h, els[i], k)
    ensures Below(bits, r)
    decreases |els|
  {
    if els == [] then bits
    else AddAll(AddBits(bits, h, els[0], k), h, k, els[1..])
  }

  /** No false negatives: after a successful insert of x followed by any
      further inserts (successful or failed), the query for x is Ok(true). */
  lemma NoFalseNegatives<T>(bits: seq<bool>, h: Hasher<T>, k: nat, x: T, later: seq<T>)
    requires ModuloDefined(|bits|, h, x, k)
    requires AddStatus(h, x, k).Ok?
    requires forall i :: 0 <= i < |later| ==> ModuloDefined(|bits|, h, later[i], k)
    ensures Query(AddAll(AddBits(bits, h, x, k), h, k, later), h, x, k) == Ok(true)
  {
    var added := AddBits(bits, h, x, k);
    var final := AddAll(added, h, k, later);
    AddSetsAllProbes(bits, h, x, k);
    AllProbesSetMonotone(added, final, h, x, k);
    QueryMeaning(final, h, x, k);
  }

  /** No false negatives over a whole batch: every element of els whose
      insert succeeded is reported present after all of els is inserted. */
  lemma {:induction false} NoFalseNegativesBatch<T>(bits: seq<bool>, h: Hasher<T>, k: nat, els: seq<T>, n: nat)
    requires forall i :: 0 <= i < |els| ==> ModuloDefined(|bits|, h, els[i], k)
    requires n < |els|
    requires AddStatus(h, els[n], k).Ok?
    ensures Query(AddAll(bits, h, k, els), h, els[n], k) == Ok(true)
    decreases n
  {
    var next := AddBits(bits, h, els[0], k);
    assert forall i :: 0 <= i < |els[1..]| ==> ModuloDefined(|next|, h, els[1..][i], k) by {
      forall i | 0 <= i < |els[1..]| ensures ModuloDefined(|next|, h, els[1..][i], k) {
        assert els[1..][i] == els[i + 1];
      }
    }
    if n == 0 {
      NoFalseNegatives(bits, h, k, els[0], els[1..]);
    } else {
      assert els[1..][n - 1] == els[n];
      NoFalseNegativesBatch(next, h, k, els[1..], n - 1);
    }
  }

  /** A freshly created filter (every bit clear) answers Ok(false) for any
      element whose first probe hashes and Err otherwise; with no probes
      (k == 0) it answers Ok(true). */
  lemma EmptyFilterRejects<T>(size: nat, h: Hasher<T>, x: T, k: nat)
    requires ModuloDefined(size, h, x, k)
    ensures Query(seq(size, _ => false), h, x, k) ==
      if k == 0 then Ok(true) else if Hash(h, x, 0).Ok? then Ok(false) else Err(HashError)
  {
    var bits := seq(size, _ => false);
    QueryMeaning(bits, h, x, k);
    if k == 0 {
      assert AllProbesSet(bits, h, x, 0);
    } else if Hash(h, x, 0).Ok? {
      assert AllProbesSet(bits, h, x, 0) && ProbeClear(bits, h, x, 0);
    } else {
      assert AllProbesSet(bits, h, x, 0) && Hash(h, x, 0).Err?;
    }
  }

  /** The number of set bits. */
  function CountSet(bits: seq<bool>): (n: nat)
    ensures n <= |bits|
  {
    if bits == [] then 0 else CountSet(bits[..|bits| - 1]) + (if bits[|bits| - 1] then 1 else 0)
  }

  lemma {:induction false} CountSetMonotone(a: seq<bool>, b: seq<bool>)
    requires Below(a, b)
    ensures CountSet(a) <= CountSet(b)
    decreases |a|
  {
    if a != [] {
      var n := |a| - 1;
      assert Below(a[..n], b[..n]);
      CountSetMonotone(a[..n], b[..n]);
    }
  }

  /** Monotonic saturation: inserting elements never lowers the number of set bits. */
  lemma SaturationMonotone<T>(bits: seq<bool>, h: Hasher<T>, k: nat, els: seq<T>)
    requires forall i :: 0 <= i < |els| ==> ModuloDefined(|bits|, h, els[i], k)
    ensures CountSet(bits) <= CountSet(AddAll(bits, h, k, els))
  {
    CountSetMonotone(bits, AddAll(bits, h, k, els));
  }
}
