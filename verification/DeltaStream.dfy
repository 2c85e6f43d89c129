/** Successive deltas of an append-only log, each limited to its newest items. */
module DeltaStream {

  /** The items from a position on; none if the list is shorter. */
  function From<T>(items: seq<T>, start: nat): seq<T> {
    if start <= |items| then items[start..] else []
  }

  /** The last items, at most `cap` of them. */
  function Newest<T>(items: seq<T>, cap: nat): seq<T> {
    if |items| <= cap then items else items[|items| - cap..]
  }

  function Delta<T>(items: seq<T>, start: nat, cap: nat): seq<T> {
    Newest(From(items, start), cap)
  }

  /** What a client that has seen `start` items receives from successive states of one log. */
  function Deltas<T>(start: nat, logs: seq<seq<T>>, cap: nat): (deltas: seq<seq<T>>)
    ensures |deltas| == |logs|
    decreases |logs|
  {
    if logs == [] then [] else [Delta(logs[0], start, cap)] + Deltas(|logs[0]|, logs[1..], cap)
  }

  ghost predicate AppendOnly<T>(start: nat, logs: seq<seq<T>>)
    decreases |logs|
  {
    logs != [] ==>
      && start <= |logs[0]|
      && (|logs| > 1 ==> logs[0] <= logs[1])
      && AppendOnly(|logs[0]|, logs[1..])
  }

  function Before<T>(start: nat, logs: seq<seq<T>>, k: nat): nat
    requires k < |logs|
  {
    if k == 0 then start else |logs[k - 1]|
  }

  /** The first position the k-th poll delivers. */
  function Low<T>(start: nat, logs: seq<seq<T>>, cap: nat, k: nat): int
    requires k < |logs|
  {
    if |logs[k]| - Before(start, logs, k) <= cap then Before(start, logs, k) else |logs[k]| - cap
  }

  /** Each poll delivers exactly the newest min(cap, new) items, in order. */
  lemma {:induction false} DeltaIsNewest<T>(start: nat, logs: seq<seq<T>>, cap: nat, k: nat)
    requires AppendOnly(start, logs) && k < |logs|
    ensures Before(start, logs, k) <= Low(start, logs, cap, k) <= |logs[k]|
    ensures Deltas(start, logs, cap)[k] == logs[k][Low(start, logs, cap, k)..]
    decreases k
  {
    if k > 0 {
      DeltaIsNewest(|logs[0]|, logs[1..], cap, k - 1);
      assert Before(|logs[0]|, logs[1..], k - 1) == Before(start, logs, k);
    }
  }

  lemma {:induction false} LogsGrow<T>(start: nat, logs: seq<seq<T>>, j: nat, k: nat)
    requires AppendOnly(start, logs) && j <= k < |logs|
    ensures logs[j] <= logs[k] && start <= |logs[j]|
    decreases |logs|
  {
    if 0 < j {
      LogsGrow(|logs[0]|, logs[1..], j - 1, k - 1);
    } else if 0 < k {
      LogsGrow(|logs[0]|, logs[1..], 0, k - 1);
      assert logs[1..][0] == logs[1];
    }
  }

  /** The stretch of the final log that the k-th poll delivers. */
  lemma DeliversStretch<T>(start: nat, logs: seq<seq<T>>, cap: nat, k: nat)
    requires AppendOnly(start, logs) && k < |logs|
    ensures var final := logs[|logs| - 1];
      && 0 <= Low(start, logs, cap, k) <= |logs[k]| <= |final|
      && Deltas(start, logs, cap)[k] == final[Low(start, logs, cap, k)..|logs[k]|]
  {
    DeltaIsNewest(start, logs, cap, k);
    LogsGrow(start, logs, k, |logs| - 1);
    var final, low := logs[|logs| - 1], Low(start, logs, cap, k);
    assert final[..|logs[k]|] == logs[k];
    assert logs[k][low..] == final[low..|logs[k]|];
  }

  /** Each poll delivers the newest items beyond the last seen, and no position of the log is delivered twice. */
  ghost predicate DeliveredOnce<T>(start: nat, logs: seq<seq<T>>, delivered: seq<seq<T>>, cap: nat) {
    && |delivered| == |logs|
    && (forall k :: 0 <= k < |logs| ==>
          var final := logs[|logs| - 1];
          && 0 <= Low(start, logs, cap, k) <= |logs[k]| <= |final|
          && delivered[k] == final[Low(start, logs, cap, k)..|logs[k]|])
    && (forall j, k :: 0 <= j < k < |logs| ==> |logs[j]| <= Low(start, logs, cap, k))
  }

  lemma DeltasDeliverOnce<T>(start: nat, logs: seq<seq<T>>, cap: nat)
    requires AppendOnly(start, logs)
    ensures DeliveredOnce(start, logs, Deltas(start, logs, cap), cap)
  {
    forall k | 0 <= k < |logs|
      ensures var final := logs[|logs| - 1];
        && 0 <= Low(start, logs, cap, k) <= |logs[k]| <= |final|
        && Deltas(start, logs, cap)[k] == final[Low(start, logs, cap, k)..|logs[k]|]
    {
      DeliversStretch(start, logs, cap, k);
    }
    forall j, k | 0 <= j < k < |logs| ensures |logs[j]| <= Low(start, logs, cap, k) {
      StartsAfter(start, logs, cap, j, k);
    }
  }

  lemma StartsAfter<T>(start: nat, logs: seq<seq<T>>, cap: nat, j: nat, k: nat)
    requires AppendOnly(start, logs) && j < k < |logs|
    ensures |logs[j]| <= Low(start, logs, cap, k)
  {
    DeltaIsNewest(start, logs, cap, k);
    LogsGrow(start, logs, j, k - 1);
  }

  function Flatten<T>(parts: seq<seq<T>>): seq<T> {
    if parts == [] then [] else parts[0] + Flatten(parts[1..])
  }

  /** No poll finds more new items than it may deliver. */
  ghost predicate WithinCap<T>(start: nat, logs: seq<seq<T>>, cap: nat)
    decreases |logs|
  {
    logs != [] ==> |logs[0]| - start <= cap && WithinCap(|logs[0]|, logs[1..], cap)
  }

  /** Then the concatenated deltas are the whole log. */
  lemma {:induction false} DeltasAddUp<T>(start: nat, logs: seq<seq<T>>, cap: nat)
    requires logs != [] && AppendOnly(start, logs) && WithinCap(start, logs, cap)
    ensures |logs[|logs| - 1]| >= start && Flatten(Deltas(start, logs, cap)) == logs[|logs| - 1][start..]
    decreases |logs|
  {
    var rest, d := logs[1..], Deltas(start, logs, cap);
    var final := logs[|logs| - 1];
    LogsGrow(start, logs, 0, |logs| - 1);
    assert d[1..] == Deltas(|logs[0]|, rest, cap) && d[0] == logs[0][start..];
    if rest != [] {
      DeltasAddUp(|logs[0]|, rest, cap);
      Glue(logs[0], final, start);
    }
  }

  lemma Glue<T>(part: seq<T>, whole: seq<T>, start: nat)
    requires start <= |part| && part <= whole
    ensures part[start..] + whole[|part|..] == whole[start..]
  {
  }
}
