// Value-level meaning of the filter's operations on its bit store
// (src/main.rs:48-65): which probes `add_element` performs before a hash
// fails, which bits it leaves set, and what `check_for` answers.
module BloomSpec {
  import opened Errors
  import opened Hashing

  /** The first probe index in 0..k whose hash fails, or k when none does:
      the `?` on src/main.rs:50 and :59 leaves the loop at that probe. */
  function FirstFailure<T>(h: Hasher<T>, el: T, k: nat): (j: nat)
    ensures j <= k
    ensures forall i :: 0 <= i < j ==> Hash(h, el, i).Ok?
    ensures j < k ==> Hash(h, el, j).Err?
    decreases k
  {
    if k == 0 then 0
    else
      var j := FirstFailure(h, el, k - 1);
      if j < k - 1 || Hash(h, el, k - 1).Err? then j else k
  }

  /** `hash % len` is evaluated (and would divide by zero on an empty bit
      store) exactly when some probe's hash succeeds, that is when k > 0 and
      probe 0 hashes; the source demands a non-empty store in that case. */
  predicate ModuloDefined<T>(len: nat, h: Hasher<T>, el: T, k: nat) {
    len > 0 || FirstFailure(h, el, k) == 0
  }

  /** The bit positions `hash % len` of probes 0..n, every one of which hashes. */
  function Probes<T>(h: Hasher<T>, el: T, n: nat, len: nat): (ps: seq<nat>)
    requires forall i :: 0 <= i < n ==> Hash(h, el, i).Ok?
    requires len > 0 || n == 0
    ensures |ps| == n
    ensures forall i :: 0 <= i < n ==> ps[i] < len
  {
    seq(n, i requires 0 <= i < n => Hash(h, el, i).value % len)
  }

  /** Setting the bits at ps one after another, in order. */
  function SetBits(bits: seq<bool>, ps: seq<nat>): (r: seq<bool>)
    requires forall i :: 0 <= i < |ps| ==> ps[i] < |bits|
    ensures |r| == |bits|
    ensures forall p :: 0 <= p < |bits| ==> (r[p] <==> bits[p] || p in ps)
    decreases |ps|
  {
    if ps == [] then bits
    else SetBits(bits, ps[..|ps| - 1])[ps[|ps| - 1] := true]
  }

  /** The bit store after `add_element(el)`: the bits of the probes before
      the first failing hash are set, with no rollback. */
  function AddBits<T>(bits: seq<bool>, h: Hasher<T>, el: T, k: nat): (r: seq<bool>)
    requires ModuloDefined(|bits|, h, el, k)
    ensures |r| == |bits|
    ensures forall p :: 0 <= p < |bits| ==>
      (r[p] <==> bits[p] || exists i :: 0 <= i < FirstFailure(h, el, k) && Hash(h, el, i).value % |bits| == p)
  {
    var j := FirstFailure(h, el, k);
    var ps := Probes(h, el, j, |bits|);
    var r := SetBits(bits, ps);
    assert forall p :: 0 <= p < |bits| ==>
      (p in ps <==> exists i :: 0 <= i < j && Hash(h, el, i).value % |bits| == p) by {
      forall p | 0 <= p < |bits| && p in ps
        ensures exists i :: 0 <= i < j && Hash(h, el, i).value % |bits| == p
      {
        var i :| 0 <= i < |ps| && ps[i] == p;
        assert Hash(h, el, i).value % |bits| == p;
      }
      forall p, i | 0 <= p < |bits| && 0 <= i < j && Hash(h, el, i).value % |bits| == p
        ensures p in ps
      {
        assert ps[i] == p;
      }
    }
    r
  }

  /** What `add_element(el)` returns. */
  function AddStatus<T>(h: Hasher<T>, el: T, k: nat): (r: Result<()>)
    ensures r.Ok? <==> forall i :: 0 <= i < k ==> Hash(h, el, i).Ok?
  {
    if FirstFailure(h, el, k) == k then Ok(()) else Err(HashError)
  }

  /** Probes 0..k of el all hash and all land on set bits. */
  predicate AllProbesSet<T>(bits: seq<bool>, h: Hasher<T>, el: T, k: nat) {
    forall i :: 0 <= i < k ==> Hash(h, el, i).Ok? && |bits| > 0 && bits[Hash(h, el, i).value % |bits|]
  }

  /** The first of ps that lands on a clear bit, or |ps| when none does. */
  function FirstClear(bits: seq<bool>, ps: seq<nat>): (c: nat)
    requires forall i :: 0 <= i < |ps| ==> ps[i] < |bits|
    ensures c <= |ps|
    ensures forall i :: 0 <= i < c ==> bits[ps[i]]
    ensures c < |ps| ==> !bits[ps[c]]
    decreases |ps|
  {
    if ps == [] then 0
    else
      var c := FirstClear(bits, ps[..|ps| - 1]);
      if c < |ps| - 1 || !bits[ps[|ps| - 1]] then c else |ps|
  }

  /** What `check_for(el)` returns, stated without its loop: among the probes
      that hash, a clear bit wins if it comes before the first failing hash. */
  function Query<T>(bits: seq<bool>, h: Hasher<T>, el: T, k: nat): (r: Result<bool>)
    requires ModuloDefined(|bits|, h, el, k)
  {
    var j := FirstFailure(h, el, k);
    var c := FirstClear(bits, Probes(h, el, j, |bits|));
    if c < j then Ok(false) else if j < k then Err(HashError) else Ok(true)
  }

  /** Probe i of el hashes and lands on a clear bit. */
  predicate ProbeClear<T>(bits: seq<bool>, h: Hasher<T>, el: T, i: nat) {
    Hash(h, el, i).Ok? && |bits| > 0 && !bits[Hash(h, el, i).value % |bits|]
  }

  /** The three answers of the query, each characterised by the probe scan
      of src/main.rs:58-64: Ok(true) iff every probe hashes onto a set bit,
      Ok(false) iff some probe hashes onto a clear bit after all earlier
      probes hashed onto set bits, Err iff some probe's hash fails after all
      earlier probes hashed onto set bits. */
  lemma QueryMeaning<T>(bits: seq<bool>, h: Hasher<T>, el: T, k: nat)
    requires ModuloDefined(|bits|, h, el, k)
    ensures Query(bits, h, el, k) == Ok(true) <==> AllProbesSet(bits, h, el, k)
    ensures Query(bits, h, el, k) == Ok(false) <==>
      exists i :: 0 <= i < k && AllProbesSet(bits, h, el, i) && ProbeClear(bits, h, el, i)
    ensures Query(bits, h, el, k).Err? <==>
      exists i :: 0 <= i < k && AllProbesSet(bits, h, el, i) && Hash(h, el, i).Err?
  {
    var j := FirstFailure(h, el, k);
    var ps := Probes(h, el, j, |bits|);
    var c := FirstClear(bits, ps);
    assert AllProbesSet(bits, h, el, c) by {
      forall i | 0 <= i < c ensures Hash(h, el, i).Ok? && |bits| > 0 && bits[Hash(h, el, i).value % |bits|] {
        assert ps[i] == Hash(h, el, i).value % |bits|;
      }
    }
    if c < j {
      assert ps[c] == Hash(h, el, c).value % |bits|;
      assert ProbeClear(bits, h, el, c);
      forall i | c < i <= k ensures !AllProbesSet(bits, h, el, i) {
        assert !bits[Hash(h, el, c).value % |bits|];
      }
    } else if j < k {
      assert AllProbesSet(bits, h, el, j) && Hash(h, el, j).Err?;
      forall i | j < i <= k ensures !AllProbesSet(bits, h, el, i) {
        assert Hash(h, el, j).Err?;
      }
    } else {
      assert AllProbesSet(bits, h, el, k);
    }
  }
}
