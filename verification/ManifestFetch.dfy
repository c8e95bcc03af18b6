/**
 Fetching the live manifests of a release in batches: every batch starts its fetches
 together, and the next batch waits until all of them have stored their result.
 */
module ManifestFetch {
  import opened Wrappers
  import opened Manifests
  import opened Gathering
  import ResourceTree

  type DesiredOrLive = ResourceTree.DesiredOrLive

  /** What the cluster answers for one desired manifest. */
  datatype Answer = Found(live: Manifest) | StatusError(code: int) | OtherError

  /** On an error the desired manifest stands in, marked and with the status code if there is one. */
  function ManifestData(desired: Manifest, answer: Answer): DesiredOrLive {
    match answer
    case Found(live) => ResourceTree.DesiredOrLive(live, false, 0)
    case StatusError(code) => ResourceTree.DesiredOrLive(desired, true, code)
    case OtherError => ResourceTree.DesiredOrLive(desired, true, 0)
  }

  /** Fetch `k` is in batch `k / batchSize`, and no batch stores a result before one ahead of it. */
  predicate BatchByBatch(calls: seq<nat>, batchSize: nat)
    requires batchSize >= 1
  {
    forall p, q :: 0 <= p < q < |calls| ==> calls[p] / batchSize <= calls[q] / batchSize
  }

  /** All the fetches listed are in a batch before this one. */
  predicate Before(calls: seq<nat>, batchSize: nat, batch: int)
    requires batchSize >= 1
  {
    forall p :: 0 <= p < |calls| ==> calls[p] / batchSize < batch
  }

  lemma {:induction false} TimesGrows(x: int, y: int, batchSize: nat)
    ensures x < y ==> x * batchSize + batchSize <= y * batchSize
    decreases y - x
  {
    var before := y - 1;
    if before <= x {
    } else {
      TimesGrows(x, before, batchSize);
    }
    assert (before + 1) * batchSize == before * batchSize + batchSize;
  }

  lemma {:induction false} BatchOf(batch: nat, batchSize: nat, j: nat)
    requires j < batchSize
    ensures (batch * batchSize + j) / batchSize == batch
  {
    var k := batch * batchSize + j;
    assert k == k / batchSize * batchSize + k % batchSize;
    TimesGrows(k / batchSize, batch, batchSize);
    TimesGrows(batch, k / batchSize, batchSize);
  }

  /**
   The batched loop.  Which fetch of a batch stores its result next is left open, so the
   contract holds for every order; `calls` lists the fetches in the order they stored.
   */
  method GetDesiredOrLiveManifests(desired: seq<Manifest>, answers: seq<Answer>, configuredBatchSize: int)
    returns (slots: array<Option<DesiredOrLive>>, calls: seq<nat>)
    requires |answers| == |desired|
    requires configuredBatchSize >= 1 || |desired| == 0
    ensures fresh(slots) && slots.Length == |desired|
    ensures forall k: nat :: k < |desired| ==> slots[k] == Some(ManifestData(desired[k], answers[k]))
    ensures EachOnce(calls, |desired|)
    ensures configuredBatchSize >= 1 ==> BatchByBatch(calls, configuredBatchSize)
  {
    var total := |desired|;
    slots := new Option<DesiredOrLive>[total](_ => None);
    calls := [];
    var batchSize := configuredBatchSize;
    var i := 0;
    ghost var batch: nat := 0;
    assert (i, batchSize) == AfterRounds(total, configuredBatchSize, batch);
    while i < total
      invariant 0 <= i <= total
      invariant (i, batchSize) == AfterRounds(total, configuredBatchSize, batch)
      invariant i < total ==> batchSize == configuredBatchSize && i == batch * configuredBatchSize
      invariant forall k: nat :: k < i ==> slots[k] == Some(ManifestData(desired[k], answers[k]))
      invariant EachOnce(calls, i)
      invariant configuredBatchSize >= 1 ==>
                  BatchByBatch(calls, configuredBatchSize) && Before(calls, configuredBatchSize, batch)
      decreases total - i
    {
      var remaining := total - i;
      if remaining < batchSize {
        batchSize := remaining;
      }
      calls := FetchBatch(desired, answers, slots, i, batchSize, configuredBatchSize, batch, calls);
      i, batch := i + batchSize, batch + 1;
    }
  }

  /** One batch: the fetches not yet stored, in any order, each into its own slot. */
  method FetchBatch(desired: seq<Manifest>, answers: seq<Answer>, slots: array<Option<DesiredOrLive>>,
                    i: nat, batchSize: nat, ghost configured: nat, ghost batch: nat, calls: seq<nat>)
    returns (more: seq<nat>)
    requires |answers| == |desired| == slots.Length && i + batchSize <= slots.Length
    requires 0 < batchSize <= configured
    requires forall k: nat :: k < i ==> slots[k] == Some(ManifestData(desired[k], answers[k]))
    requires EachOnce(calls, i) && i == batch * configured
    requires BatchByBatch(calls, configured) && Before(calls, configured, batch)
    modifies slots
    ensures forall k: nat :: k < i + batchSize ==> slots[k] == Some(ManifestData(desired[k], answers[k]))
    ensures forall k :: i + batchSize <= k < slots.Length ==> slots[k] == old(slots[k])
    ensures EachOnce(more, i + batchSize)
    ensures BatchByBatch(more, configured) && Before(more, configured, batch + 1)
  {
    more := calls;
    var running: set<nat> := {};
    for j := 0 to batchSize
      invariant forall x: nat :: x in running <==> x < j
    {
      running := running + {j};
    }
    while running != {}
      invariant forall j: nat :: j in running ==> j < batchSize
      invariant forall k: nat :: k < i ==> slots[k] == Some(ManifestData(desired[k], answers[k]))
      invariant forall k: nat :: i <= k < i + batchSize && (k - i) !in running ==>
                  slots[k] == Some(ManifestData(desired[k], answers[k]))
      invariant forall k :: i + batchSize <= k < slots.Length ==> slots[k] == old(slots[k])
      invariant forall p, q :: 0 <= p < q < |more| ==> more[p] != more[q]
      invariant forall p :: 0 <= p < |more| ==> more[p] < i + batchSize
      invariant forall p :: 0 <= p < |more| && more[p] >= i ==> (more[p] - i) !in running
      invariant forall k: nat :: k < i + batchSize && (k < i || (k - i) !in running) ==> k in more
      invariant BatchByBatch(more, configured) && Before(more, configured, batch + 1)
      decreases running
    {
      var j :| j in running;
      BatchOf(batch, configured, j);
      slots[i + j] := Some(ManifestData(desired[i + j], answers[i + j]));
      more := more + [i + j];
      assert more[|more| - 1] == i + j;
      running := running - {j};
    }
  }

  // ---------- Termination ----------

  /** The loop's index and batch size after `k` rounds over `n` manifests. */
  function AfterRounds(n: nat, batchSize: int, k: nat): (int, int) {
    if k == 0 then (0, batchSize)
    else
      var (i, b) := AfterRounds(n, batchSize, k - 1);
      if i >= n then (i, b)
      else
        var size := if n - i < b then n - i else b;
        (i + size, size)
  }

  lemma {:induction false} RoundsAdvance(n: nat, batchSize: int, k: nat)
    ensures batchSize >= 1 ==> AfterRounds(n, batchSize, k).0 >= if k < n then k else n
    ensures batchSize >= 1 && AfterRounds(n, batchSize, k).0 < n ==> AfterRounds(n, batchSize, k).1 == batchSize
    ensures batchSize <= 0 ==> AfterRounds(n, batchSize, k).0 <= 0 && AfterRounds(n, batchSize, k).1 == batchSize
  {
    if k == 0 {
    } else {
      RoundsAdvance(n, batchSize, k - 1);
    }
  }

  /** The loop ends exactly when there is nothing to fetch or the batch size is positive. */
  lemma {:induction false} LoopEndsIff(n: nat, batchSize: int)
    ensures (exists k: nat :: AfterRounds(n, batchSize, k).0 >= n) <==> n == 0 || batchSize >= 1
  {
    RoundsAdvance(n, batchSize, n);
    forall k: nat ensures batchSize <= 0 ==> AfterRounds(n, batchSize, k).0 <= 0 {
      RoundsAdvance(n, batchSize, k);
    }
    if n == 0 {
      assert AfterRounds(n, batchSize, 0).0 >= n;
    }
  }
}
