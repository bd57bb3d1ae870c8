/** The batch packer: `FaviconAnalyzer.generate_batches` and the request URL of a batch. */
module Batching {
  import opened Seqs
  import opened Text

  const MAX_URL_LENGTH: int := 2200
  const BASE_URL: string := "https://favicon.yandex.net/favicon/"

  /** The request URL of a batch: the base URL followed by the domains separated by '/'. */
  function RenderUrl(batch: seq<string>): (url: string)
    ensures |batch| >= 1 ==> |url| == |BASE_URL| + SumLen(batch) + |batch| - 1
    ensures |batch| == 0 ==> url == BASE_URL
  {
    BASE_URL + Join("/", batch)
  }

  /** The running length the packer keeps for its current batch: the base URL plus, for every
      domain placed, its length and one more. For a non-empty batch it is one more than the URL's real length;
      for the empty batch it is the URL's length exactly. */
  function TrackedLength(batch: seq<string>): (n: int)
    ensures |batch| >= 1 ==> n == |RenderUrl(batch)| + 1
  {
    |BASE_URL| + SumLen(batch) + |batch|
  }

  /** The packer's test before placing domain `d` after `batch`: the tracked length plus `d`
      (and a separator when the batch is non-empty) would pass the maximum, or the batch is full. */
  predicate MustFlush(batch: seq<string>, d: string, batchSize: int) {
    TrackedLength(batch) + |d| + (if |batch| > 0 then 1 else 0) > MAX_URL_LENGTH
    || |batch| >= batchSize
  }

  /** Batch `i` was closed because the first domain of batch `i + 1` forced a flush. */
  predicate ClosedBy(batches: seq<seq<string>>, i: int, batchSize: int)
    requires 0 <= i < |batches| - 1 && batches[i + 1] != []
  {
    MustFlush(batches[i], batches[i + 1][0], batchSize)
  }

  /** Every domain after the first one of `batch` was appended without a flush. */
  predicate AppendedWithoutFlush(batch: seq<string>, batchSize: int) {
    forall j :: 0 < j < |batch| ==> !MustFlush(batch[..j], batch[j], batchSize)
  }

  /** The most domains a batch can hold: `batchSize`, or one when `batchSize` is not positive. */
  function Capacity(batchSize: int): nat {
    if batchSize >= 1 then batchSize else 1
  }

  /** A batch built by appending only when the test allowed it respects the size bound, and if it
      holds two or more domains its tracked length, hence its URL, stays within the maximum. */
  lemma {:induction false} AppendedBatchFits(batch: seq<string>, batchSize: int)
    requires AppendedWithoutFlush(batch, batchSize)
    ensures |batch| <= Capacity(batchSize)
    ensures |batch| >= 2 ==> TrackedLength(batch) <= MAX_URL_LENGTH
    ensures |batch| >= 2 ==> |RenderUrl(batch)| <= MAX_URL_LENGTH - 1
  {
    if |batch| >= 2 {
      var j := |batch| - 1;
      assert !MustFlush(batch[..j], batch[j], batchSize);
      assert SumLen(batch) == SumLen(batch[..j]) + |batch[j]|;
    }
  }

  /** What the packer's loop keeps true of the closed batches and the current one. */
  ghost predicate PackInvariant(batches: seq<seq<string>>, current: seq<string>, batchSize: int) {
    && (|batches| > 0 ==> current != [])
    && (forall i :: 0 < i < |batches| ==> batches[i] != [])
    && (forall i :: 0 <= i < |batches| - 1 ==> ClosedBy(batches, i, batchSize))
    && (|batches| > 0 ==> MustFlush(batches[|batches| - 1], current[0], batchSize))
    && (|batches| > 0 && batches[0] != [] ==> !MustFlush([], batches[0][0], batchSize))
    && (batches == [] && current != [] ==> !MustFlush([], current[0], batchSize))
    && (forall i :: 0 <= i < |batches| ==> AppendedWithoutFlush(batches[i], batchSize))
    && AppendedWithoutFlush(current, batchSize)
  }

  /** Line 68-73 when the test fires: the current batch is closed and the domain starts a new one. */
  lemma FlushStep(batches: seq<seq<string>>, current: seq<string>, d: string, batchSize: int)
    requires PackInvariant(batches, current, batchSize)
    requires batches == [] || current != []
    requires MustFlush(current, d, batchSize)
    ensures PackInvariant(batches + [current], [d], batchSize)
  {
    var b' := batches + [current];
    assert forall i :: 0 <= i < |batches| ==> b'[i] == batches[i];
    forall i | 0 <= i < |b'| - 1
      ensures ClosedBy(b', i, batchSize)
    {
      if i == |b'| - 2 {
        assert b'[i] == batches[i] && b'[i + 1] == current;
      } else {
        assert ClosedBy(batches, i, batchSize);
      }
    }
  }

  /** Line 73-74 when the test does not fire: the domain joins the current batch. */
  lemma AppendStep(batches: seq<seq<string>>, current: seq<string>, d: string, batchSize: int)
    requires PackInvariant(batches, current, batchSize)
    requires !MustFlush(current, d, batchSize)
    ensures PackInvariant(batches, current + [d], batchSize)
  {
    var c' := current + [d];
    assert c'[..|current|] == current;
    forall j | 0 < j < |c'|
      ensures !MustFlush(c'[..j], c'[j], batchSize)
    {
      if j < |current| {
        assert c'[..j] == current[..j];
      }
    }
  }

  lemma LengthStep(batch: seq<string>, d: string)
    ensures TrackedLength(batch + [d]) == TrackedLength(batch) + |d| + 1
  {
    assert (batch + [d])[..|batch|] == batch;
  }

  lemma PrefixStep<T>(s: seq<T>, k: nat)
    requires k < |s|
    ensures s[..k + 1] == s[..k] + [s[k]]
  {
  }

  /** What `generate_batches` produces from the list `valid` of accepted domains:
      the batches read in order give back `valid`; only the first batch can be empty and the last
      is not; a batch was closed only because its successor's first domain forced a flush; and
      every domain joined its batch only when the flush test let it (the first domain of the first
      batch included). */
  ghost predicate GreedyPacking(valid: seq<string>, batches: seq<seq<string>>, batchSize: int) {
    && Flatten(batches) == valid
    && (forall i :: 0 < i < |batches| ==> batches[i] != [])
    && (|batches| > 0 ==> batches[|batches| - 1] != [])
    && (forall i :: 0 <= i < |batches| - 1 ==> ClosedBy(batches, i, batchSize))
    && (|batches| > 0 && batches[0] != [] ==> !MustFlush([], batches[0][0], batchSize))
    && (forall i :: 0 <= i < |batches| ==> AppendedWithoutFlush(batches[i], batchSize))
  }

  /** After the last domain: line 76-77 appends the current batch when it is non-empty. */
  lemma FinishPacking(valid: seq<string>, batches: seq<seq<string>>, current: seq<string>, batchSize: int)
    requires PackInvariant(batches, current, batchSize)
    requires Flatten(batches) + current == valid
    requires valid == [] ==> batches == [] && current == []
    requires valid != [] ==> current != []
    ensures GreedyPacking(valid, if current == [] then batches else batches + [current], batchSize)
  {
    if current != [] {
      var out := batches + [current];
      FlattenAppend(batches, current);
      assert forall i :: 0 <= i < |batches| ==> out[i] == batches[i];
      forall i | 0 <= i < |out| - 1
        ensures ClosedBy(out, i, batchSize)
      {
        if i == |out| - 2 {
          assert out[i + 1] == current;
        } else {
          assert ClosedBy(batches, i, batchSize);
        }
      }
    }
  }

  /** The state of the packer after the first `k` accepted domains. */
  ghost predicate Packed(valid: seq<string>, k: nat, batches: seq<seq<string>>, current: seq<string>,
                         currentLength: int, batchSize: int) {
    && k <= |valid|
    && Flatten(batches) + current == valid[..k]
    && (k == 0 ==> batches == [] && current == [])
    && (k > 0 ==> current != [])
    && currentLength == TrackedLength(current)
    && PackInvariant(batches, current, batchSize)
  }

  /** Whether the domain `d` closes the current batch (line 66-68). */
  predicate FlushesAt(current: seq<string>, currentLength: int, d: string, batchSize: int) {
    currentLength + |d| + (if |current| > 0 then 1 else 0) > MAX_URL_LENGTH || |current| >= batchSize
  }

  /** One turn of the loop at line 64-74, on either side of the flush test, taking the packer from
      `batches`, `current` to `batches'`, `current'`. */
  lemma PackStep(valid: seq<string>, k: nat, batches: seq<seq<string>>, current: seq<string>,
                 currentLength: int, batchSize: int,
                 batches': seq<seq<string>>, current': seq<string>, currentLength': int)
    requires Packed(valid, k, batches, current, currentLength, batchSize) && k < |valid|
    requires FlushesAt(current, currentLength, valid[k], batchSize) ==>
               batches' == batches + [current] && current' == [valid[k]] &&
               currentLength' == |BASE_URL| + |valid[k]| + 1
    requires !FlushesAt(current, currentLength, valid[k], batchSize) ==>
               batches' == batches && current' == current + [valid[k]] &&
               currentLength' == currentLength + |valid[k]| + 1
    ensures Packed(valid, k + 1, batches', current', currentLength', batchSize)
  {
    var d := valid[k];
    PrefixStep(valid, k);
    if FlushesAt(current, currentLength, d, batchSize) {
      FlushStep(batches, current, d, batchSize);
      FlattenAppend(batches, current);
      LengthStep([], d);
      assert [] + [d] == [d];
      assert Flatten(batches + [current]) + [d] == valid[..k + 1];
    } else {
      AppendStep(batches, current, d, batchSize);
      LengthStep(current, d);
      assert Flatten(batches) + (current + [d]) == valid[..k + 1];
    }
  }

  /** `generate_batches`: keep the domains the validator accepts (`get_tld`, a parameter here),
      then pack them greedily, left to right. */
  method GenerateBatches(domains: seq<string>, batchSize: int, isValid: string -> bool)
    returns (batches: seq<seq<string>>)
    ensures GreedyPacking(Filter(domains, isValid), batches, batchSize)
  {
    var valid := Filter(domains, isValid);
    batches := [];
    var current: seq<string> := [];
    var currentLength := |BASE_URL|;
    var k := 0;
    while k < |valid|
      invariant Packed(valid, k, batches, current, currentLength, batchSize)
    {
      ghost var (batches0, current0, currentLength0) := (batches, current, currentLength);
      var domain := valid[k];
      var needed := currentLength + |domain| + (if |current| > 0 then 1 else 0);
      if needed > MAX_URL_LENGTH || |current| >= batchSize {
        batches := batches + [current];
        current := [];
        currentLength := |BASE_URL|;
      }
      current := current + [domain];
      currentLength := currentLength + |domain| + (if |current| > 0 then 1 else 0);
      PackStep(valid, k, batches0, current0, currentLength0, batchSize, batches, current, currentLength);
      k := k + 1;
    }
    assert valid[..k] == valid;
    FinishPacking(valid, batches, current, batchSize);
    if |current| > 0 {
      batches := batches + [current];
    }
  }

  /** The size and URL-length bounds: at most `batchSize` domains per batch (one when
      `batchSize` is not positive); a batch of two or more domains has a URL shorter than the
      maximum. Only a single-domain batch can exceed it. */
  lemma PackingBounds(valid: seq<string>, batches: seq<seq<string>>, batchSize: int)
    requires GreedyPacking(valid, batches, batchSize)
    ensures batches == [] <==> valid == []
    ensures forall i :: 0 <= i < |batches| ==> |batches[i]| <= Capacity(batchSize)
    ensures forall i :: 0 <= i < |batches| && |batches[i]| >= 2 ==>
              |RenderUrl(batches[i])| <= MAX_URL_LENGTH - 1
  {
    forall i | 0 <= i < |batches|
      ensures |batches[i]| <= Capacity(batchSize)
      ensures |batches[i]| >= 2 ==> |RenderUrl(batches[i])| <= MAX_URL_LENGTH - 1
    {
      AppendedBatchFits(batches[i], batchSize);
    }
    if |batches| > 0 {
      FlattenHead(batches);
    }
  }

  /** The first batch is empty exactly when there is a first accepted domain and, placed into the
      empty batch, it already fails the test: its URL alone would pass the maximum, or `batchSize`
      is not positive. */
  lemma PackingEmptyFirst(valid: seq<string>, batches: seq<seq<string>>, batchSize: int)
    requires GreedyPacking(valid, batches, batchSize)
    ensures (|batches| > 0 && batches[0] == []) <==>
            (valid != [] && (|BASE_URL| + |valid[0]| > MAX_URL_LENGTH || batchSize <= 0))
  {
    if |batches| > 0 {
      FlattenHead(batches);
      if batches[0] == [] {
        assert ClosedBy(batches, 0, batchSize);
      }
      assert MustFlush([], valid[0], batchSize) <==>
             |BASE_URL| + |valid[0]| > MAX_URL_LENGTH || batchSize <= 0;
    }
  }

  /** The first domain of the flattened list comes from the first non-empty of the first two batches. */
  lemma {:induction false} FlattenHead(batches: seq<seq<string>>)
    requires |batches| >= 1
    requires forall i :: 0 < i < |batches| ==> batches[i] != []
    requires batches[|batches| - 1] != []
    ensures Flatten(batches) != []
    ensures Flatten(batches)[0] == if batches[0] != [] then batches[0][0] else batches[1][0]
  {
    var init := batches[..|batches| - 1];
    assert Flatten(batches) == Flatten(init) + batches[|batches| - 1];
    if |batches| > 2 || (|batches| == 2 && batches[0] != []) {
      FlattenHead(init);
      assert init[0] == batches[0];
      assert |batches| > 2 ==> init[1] == batches[1];
    } else if |batches| == 2 {
      assert Flatten(init) == Flatten(init[..0]) + init[0];
      assert init[0] == [];
    }
  }
}
