/**
 * The batch watcher (`wait_batch`): which observations of the projects wake the caller, and what it must remember from
 * one call to the next to report every restart and every change once.
 */
module Watcher {
  import opened Collections
  import opened Ordering

  datatype Lease = Lease(id: Option<string>, version: Option<int>)

  /** An observation; `server`, `repoKey`, `instance`, `action`, `lease` and `error` may be absent from it. */
  datatype Snapshot = Snapshot(key: Option<string>, server: Option<string>, repoKey: Option<string>,
                               instance: Option<string>, disposition: string, action: Option<string>,
                               lease: Option<Lease>, error: Option<string>)

  datatype Fingerprint = Fingerprint(instance: Option<string>, disposition: string, action: Option<string>,
                                     leaseId: Option<string>, error: Option<string>)

  function FingerprintOf(x: Snapshot): Fingerprint {
    Fingerprint(x.instance, x.disposition, x.action, if x.lease.Some? then x.lease.value.id else None, x.error)
  }

  datatype Mark = Mark(fingerprint: Fingerprint, instance: Option<string>, leaseVersion: Option<int>)

  /** What the state file holds. */
  type Marks = map<string, Mark>

  datatype Event = Event(key: Option<string>, name: string)

  const RESTARTED := "server_restarted"

  function TextOf(x: Option<string>, absent: string): string { if x.Some? then x.value else absent }

  function StateKey(x: Snapshot): string {
    TextOf(x.server, "") + "/" + TextOf(x.repoKey, TextOf(x.key, "None"))
  }

  function OldInstance(marks: Marks, k: string): Option<string> { if k in marks then marks[k].instance else None }

  predicate IsRestart(marks: Marks, x: Snapshot) {
    var known := OldInstance(marks, StateKey(x));
    Truthy(known) && known != x.instance && Truthy(x.instance)
  }

  predicate IsChange(marks: Marks, x: Snapshot) {
    && x.disposition != "active"
    && (StateKey(x) in marks ==> marks[StateKey(x)].fingerprint != FingerprintOf(x))
  }

  function EventsOf(marks: Marks, x: Snapshot): seq<Event> {
    if IsRestart(marks, x) then [Event(x.key, RESTARTED)]
    else if IsChange(marks, x) then [Event(x.key, x.disposition)]
    else []
  }

  function Marked(marks: Marks, x: Snapshot): Marks {
    var k := StateKey(x);
    var instance := if Truthy(x.instance) then x.instance else OldInstance(marks, k);
    marks[k := Mark(FingerprintOf(x), instance, if x.lease.Some? then x.lease.value.version else None)]
  }

  function After(marks: Marks, xs: seq<Snapshot>): Marks {
    if xs == [] then marks else Marked(After(marks, xs[..|xs| - 1]), xs[|xs| - 1])
  }

  function Reported(marks: Marks, xs: seq<Snapshot>): seq<Event> {
    if xs == [] then []
    else Reported(marks, xs[..|xs| - 1]) + EventsOf(After(marks, xs[..|xs| - 1]), xs[|xs| - 1])
  }

  // ----- the snapshots a call returns -----

  datatype Observation = Observation(index: nat, snapshot: Snapshot)

  function Latest(observed: seq<Observation>, i: nat): Option<Snapshot> {
    if observed == [] then None
    else if observed[|observed| - 1].index == i then Some(observed[|observed| - 1].snapshot)
    else Latest(observed[..|observed| - 1], i)
  }

  /** The latest snapshot of each of the first n projects that has one, in the order of the catalog. */
  function LatestOf(observed: seq<Observation>, n: nat): seq<Snapshot> {
    if n == 0 then []
    else
      var x := Latest(observed, n - 1);
      LatestOf(observed, n - 1) + if x.Some? then [x.value] else []
  }

  function Silent(observed: seq<Observation>, n: nat): seq<nat> {
    if n == 0 then []
    else Silent(observed, n - 1) + if Latest(observed, n - 1).None? then [n - 1] else []
  }

  ghost predicate Tracks(observed: seq<Observation>, snapshots: map<nat, Snapshot>) {
    forall p: nat :: Latest(observed, p) == if p in snapshots then Some(snapshots[p]) else None
  }

  function Snapshots(observed: seq<Observation>): seq<Snapshot> {
    seq(|observed|, i requires 0 <= i < |observed| => observed[i].snapshot)
  }

  datatype Report = Report(events: seq<Event>, snapshots: seq<Snapshot>, pending: seq<nat>, timedOut: bool)

  /** One turn of the loop. */
  method Consume(marks: Marks, events: seq<Event>, x: Snapshot) returns (marks': Marks, events': seq<Event>)
    ensures marks' == Marked(marks, x)
    ensures events' == events + EventsOf(marks, x)
  {
    events' := events;
    var k := StateKey(x);
    var old' := OldInstance(marks, k);
    if Truthy(old') && old' != x.instance && Truthy(x.instance) {
      events' := events' + [Event(x.key, RESTARTED)];
    } else if x.disposition != "active" && (k in marks ==> marks[k].fingerprint != FingerprintOf(x)) {
      events' := events' + [Event(x.key, x.disposition)];
    }
    marks' := marks[k := Mark(FingerprintOf(x), if Truthy(x.instance) then x.instance else old',
                              if x.lease.Some? then x.lease.value.version else None)];
  }

  class StateFile {
    var marks: Marks

    constructor ()
      ensures marks == map[]
    {
      marks := map[];
    }

    /**
     * One call for `projects` clients: `observed` is what it took from the queue before it returned. The state is kept
     * in memory until the end and written once.
     */
    method WaitBatch(projects: nat, observed: seq<Observation>) returns (report: Report)
      requires forall i :: 0 <= i < |observed| ==> observed[i].index < projects
      modifies this
      ensures marks == After(old(marks), Snapshots(observed))
      ensures report.events == Reported(old(marks), Snapshots(observed))
      ensures report.timedOut <==> report.events == []
      ensures report.snapshots == LatestOf(observed, projects)
      ensures report.pending == Silent(observed, projects)
    {
      var state := marks;
      var events: seq<Event> := [];
      var snapshots: map<nat, Snapshot> := map[];
      for i := 0 to |observed|
        invariant state == After(old(marks), Snapshots(observed[..i]))
        invariant events == Reported(old(marks), Snapshots(observed[..i]))
        invariant Tracks(observed[..i], snapshots)
      {
        var x := observed[i].snapshot;
        SnapshotsOneMore(observed, i);
        OneMore(old(marks), Snapshots(observed[..i]), x);
        LatestOneMore(observed, i);
        snapshots := snapshots[observed[i].index := x];
        state, events := Consume(state, events, x);
      }
      assert observed[..|observed|] == observed;
      var shown, pending := Summarize(projects, observed, snapshots);
      marks := state;
      report := Report(events, shown, pending, events == []);
    }
  }

  method Summarize(projects: nat, ghost observed: seq<Observation>, snapshots: map<nat, Snapshot>)
    returns (shown: seq<Snapshot>, pending: seq<nat>)
    requires Tracks(observed, snapshots)
    ensures shown == LatestOf(observed, projects) && pending == Silent(observed, projects)
  {
    shown, pending := [], [];
    for p := 0 to projects
      invariant shown == LatestOf(observed, p) && pending == Silent(observed, p)
    {
      if p in snapshots {
        shown := shown + [snapshots[p]];
      } else {
        pending := pending + [p];
      }
    }
  }

  lemma SnapshotsOneMore(observed: seq<Observation>, i: nat)
    requires i < |observed|
    ensures Snapshots(observed[..i + 1]) == Snapshots(observed[..i]) + [observed[i].snapshot]
    ensures Snapshots(observed[..i + 1])[..i] == Snapshots(observed[..i])
  {
  }

  lemma LatestOneMore(observed: seq<Observation>, i: nat)
    requires i < |observed|
    ensures forall p: nat :: Latest(observed[..i + 1], p) ==
                             if observed[i].index == p then Some(observed[i].snapshot) else Latest(observed[..i], p)
  {
    var next := observed[..i + 1];
    assert next[..|next| - 1] == observed[..i] && next[|next| - 1] == observed[i];
    forall p: nat
      ensures Latest(next, p) == if observed[i].index == p then Some(observed[i].snapshot) else Latest(observed[..i], p)
    {
    }
  }

  lemma OneMore(marks: Marks, xs: seq<Snapshot>, x: Snapshot)
    ensures After(marks, xs + [x]) == Marked(After(marks, xs), x)
    ensures Reported(marks, xs + [x]) == Reported(marks, xs) + EventsOf(After(marks, xs), x)
  {
  }

  // ----- several calls are one -----

  /** Taking A, writing the state, and taking B in a later call reports what taking A and B in one call reports. */
  lemma {:induction false} CallsCompose(marks: Marks, a: seq<Snapshot>, b: seq<Snapshot>)
    ensures After(marks, a + b) == After(After(marks, a), b)
    ensures Reported(marks, a + b) == Reported(marks, a) + Reported(After(marks, a), b)
  {
    if b == [] {
      assert a + b == a;
    } else {
      var init, x := b[..|b| - 1], b[|b| - 1];
      CallsCompose(marks, a, init);
      assert (a + b)[..|a + b| - 1] == a + init && (a + b)[|a + b| - 1] == x;
      Associate(Reported(marks, a), Reported(After(marks, a), init), EventsOf(After(marks, a + init), x));
    }
  }

  function Flatten(calls: seq<seq<Snapshot>>): seq<Snapshot> {
    if calls == [] then [] else Flatten(calls[..|calls| - 1]) + calls[|calls| - 1]
  }

  /** The events of each of several calls in a row, appended. */
  function ReportedByCalls(marks: Marks, calls: seq<seq<Snapshot>>): seq<Event> {
    if calls == [] then []
    else
      ReportedByCalls(marks, calls[..|calls| - 1]) +
      Reported(After(marks, Flatten(calls[..|calls| - 1])), calls[|calls| - 1])
  }

  /** However the observations are cut into calls, the event stream is the same. */
  lemma {:induction false} CuttingIsInvisible(marks: Marks, calls: seq<seq<Snapshot>>)
    ensures ReportedByCalls(marks, calls) == Reported(marks, Flatten(calls))
  {
    if calls != [] {
      CuttingIsInvisible(marks, calls[..|calls| - 1]);
      CallsCompose(marks, Flatten(calls[..|calls| - 1]), calls[|calls| - 1]);
    }
  }

  // ----- what is remembered, told from the history alone -----

  /** The last instance given for k, whatever was observed since. */
  function LastKnown(marks: Marks, xs: seq<Snapshot>, k: string): Option<string> {
    if xs == [] then OldInstance(marks, k)
    else
      var x := xs[|xs| - 1];
      if StateKey(x) == k && Truthy(x.instance) then x.instance else LastKnown(marks, xs[..|xs| - 1], k)
  }

  /** The fingerprint of the last observation of k. */
  function LastFingerprint(marks: Marks, xs: seq<Snapshot>, k: string): Option<Fingerprint> {
    if xs == [] then (if k in marks then Some(marks[k].fingerprint) else None)
    else if StateKey(xs[|xs| - 1]) == k then Some(FingerprintOf(xs[|xs| - 1]))
    else LastFingerprint(marks, xs[..|xs| - 1], k)
  }

  lemma {:induction false} MarksRemember(marks: Marks, xs: seq<Snapshot>, k: string)
    ensures OldInstance(After(marks, xs), k) == LastKnown(marks, xs, k)
    ensures LastFingerprint(marks, xs, k) ==
            if k in After(marks, xs) then Some(After(marks, xs)[k].fingerprint) else None
  {
    if xs != [] {
      MarksRemember(marks, xs[..|xs| - 1], k);
    }
  }

  /**
   * After any history an observation reports a restart exactly if the instance it gives differs from the last one
   * known; otherwise its disposition, exactly if that is not active and the last observation of the project differs.
   */
  lemma ReportsExactly(marks: Marks, xs: seq<Snapshot>, x: Snapshot)
    ensures
      var known := LastKnown(marks, xs, StateKey(x));
      EventsOf(After(marks, xs), x) ==
      if Truthy(known) && Truthy(x.instance) && known != x.instance then [Event(x.key, RESTARTED)]
      else if x.disposition != "active" && LastFingerprint(marks, xs, StateKey(x)) != Some(FingerprintOf(x))
      then [Event(x.key, x.disposition)]
      else []
  {
  }

  ghost predicate NoInstance(xs: seq<Snapshot>, k: string) {
    forall i :: 0 <= i < |xs| && StateKey(xs[i]) == k ==> !Truthy(xs[i].instance)
  }

  lemma {:induction false} KnownAcrossGap(marks: Marks, xs: seq<Snapshot>, gap: seq<Snapshot>, k: string)
    requires NoInstance(gap, k)
    ensures LastKnown(marks, xs + gap, k) == LastKnown(marks, xs, k)
  {
    if gap == [] {
      assert xs + gap == xs;
    } else {
      var init := gap[..|gap| - 1];
      assert forall i :: 0 <= i < |init| ==> init[i] == gap[i];
      KnownAcrossGap(marks, xs, init, k);
      assert (xs + gap)[..|xs + gap| - 1] == xs + init;
    }
  }

  /** A restart is noticed across any number of observations without an instance, and nothing else is taken for one. */
  lemma RestartSeenAcrossGap(marks: Marks, xs: seq<Snapshot>, before: Snapshot, gap: seq<Snapshot>, x: Snapshot)
    requires StateKey(before) == StateKey(x) && Truthy(before.instance) && Truthy(x.instance)
    requires NoInstance(gap, StateKey(x))
    ensures IsRestart(After(marks, xs + [before] + gap), x) <==> before.instance != x.instance
  {
    KnownAcrossGap(marks, xs + [before], gap, StateKey(x));
    assert (xs + [before])[..|xs|] == xs;
    MarksRemember(marks, xs + [before] + gap, StateKey(x));
  }

  ghost predicate Unseen(xs: seq<Snapshot>, k: string) {
    forall i :: 0 <= i < |xs| ==> StateKey(xs[i]) != k
  }

  lemma {:induction false} MarkKept(marks: Marks, xs: seq<Snapshot>, k: string)
    requires Unseen(xs, k) && k in marks
    ensures k in After(marks, xs) && After(marks, xs)[k] == marks[k]
  {
    if xs != [] {
      var init := xs[..|xs| - 1];
      assert forall i :: 0 <= i < |init| ==> init[i] == xs[i];
      MarkKept(marks, init, k);
    }
  }

  /** Seeing the same snapshot again reports nothing, whatever was seen of other projects in between. */
  lemma RepeatIsSilent(marks: Marks, xs: seq<Snapshot>, x: Snapshot, others: seq<Snapshot>)
    requires Unseen(others, StateKey(x))
    ensures Reported(After(marks, xs + [x] + others), [x]) == []
    ensures After(marks, xs + [x] + others + [x]) == After(marks, xs + [x] + others)
  {
    var seen := After(marks, xs + [x] + others);
    assert (xs + [x])[..|xs|] == xs;
    CallsCompose(marks, xs + [x], others);
    MarkKept(After(marks, xs + [x]), others, StateKey(x));
    assert [x][..0] == [];
    assert EventsOf(seen, x) == [];
    assert (xs + [x] + others + [x])[..|xs + [x] + others|] == xs + [x] + others;
    assert Marked(seen, x) == seen;
  }

  /** Two observations in which nothing changed that a watcher is to be told. */
  predicate ShowTheSame(x: Snapshot, y: Snapshot) {
    && x.instance == y.instance && x.disposition == y.disposition && x.action == y.action && x.error == y.error
    && match (x.lease, y.lease)
       case (Some(a), Some(b)) => a.id == b.id
       case (Some(a), None) => a.id == None
       case (None, Some(b)) => b.id == None
       case (None, None) => true
  }

  lemma FingerprintsTell(x: Snapshot, y: Snapshot)
    ensures FingerprintOf(x) == FingerprintOf(y) <==> ShowTheSame(x, y)
  {
  }

  predicate Given(x: Option<string>) {
    x != None && x != Some("")
  }

  /** The instance a project is known by after an observation. */
  function KnownAfter(before: Snapshot, earlier: Option<string>): Option<string> {
    if Given(before.instance) then before.instance else earlier
  }

  function SecondReport(before: Snapshot, known: Option<string>, x: Snapshot): seq<Event> {
    if Given(known) && Given(x.instance) && known != x.instance then [Event(x.key, "server_restarted")]
    else if x.disposition != "active" && !ShowTheSame(before, x) then [Event(x.key, x.disposition)]
    else []
  }

  lemma MarkReports(marks: Marks, before: Snapshot, x: Snapshot, seen: Marks)
    requires StateKey(before) == StateKey(x) && StateKey(x) in seen
    requires seen[StateKey(x)] == Marked(marks, before)[StateKey(x)]
    ensures EventsOf(seen, x) == SecondReport(before, KnownAfter(before, OldInstance(marks, StateKey(x))), x)
  {
    FingerprintsTell(before, x);
  }

  /**
   * What the second of two successive observations of a project reports, whatever was seen before and of other
   * projects in between: a restart if it gives another instance than the last one known; else its disposition, exactly
   * if that is not active and the instance, disposition, action, lease id or error differs from the first observation.
   */
  lemma NextLookReports(marks: Marks, xs: seq<Snapshot>, before: Snapshot, others: seq<Snapshot>, x: Snapshot)
    requires StateKey(before) == StateKey(x) && Unseen(others, StateKey(x))
    ensures Reported(After(marks, xs + [before] + others), [x]) ==
            SecondReport(before, KnownAfter(before, LastKnown(marks, xs, StateKey(x))), x)
  {
    OneMore(marks, xs, before);
    CallsCompose(marks, xs + [before], others);
    MarkKept(After(marks, xs + [before]), others, StateKey(x));
    MarksRemember(marks, xs, StateKey(x));
    MarkReports(After(marks, xs), before, x, After(marks, xs + [before] + others));
    OneMore(After(marks, xs + [before] + others), [], x);
    assert [] + [x] == [x];
  }

  /** What the state file holds of a project after its last observation. */
  lemma MarkHolds(marks: Marks, xs: seq<Snapshot>, x: Snapshot, others: seq<Snapshot>)
    requires Unseen(others, StateKey(x))
    ensures var after := After(marks, xs + [x] + others);
      && StateKey(x) in after
      && after[StateKey(x)].instance == KnownAfter(x, LastKnown(marks, xs, StateKey(x)))
      && match x.lease
         case Some(lease) => after[StateKey(x)].leaseVersion == lease.version
         case None => after[StateKey(x)].leaseVersion == None
  {
    OneMore(marks, xs, x);
    MarksRemember(marks, xs, StateKey(x));
    CallsCompose(marks, xs + [x], others);
    MarkKept(After(marks, xs + [x]), others, StateKey(x));
  }

  /** Observations of different servers or repositories never share a mark, if no repository key has a slash. */
  lemma ProjectsKeptApart(x: Snapshot, y: Snapshot)
    requires x.server.Some? && y.server.Some? && x.repoKey.Some? && y.repoKey.Some?
    requires '/' !in x.repoKey.value && '/' !in y.repoKey.value
    ensures StateKey(x) == StateKey(y) <==> x.server == y.server && x.repoKey == y.repoKey
  {
    LastSlash(x.server.value, x.repoKey.value, y.server.value, y.repoKey.value);
  }

  lemma LastSlash(a: string, b: string, c: string, d: string)
    requires '/' !in b && '/' !in d
    ensures a + "/" + b == c + "/" + d <==> a == c && b == d
  {
    var s, t := a + "/" + b, c + "/" + d;
    if s == t {
      assert s[|a|] == '/' && t[|c|] == '/';
      assert forall i :: |c| < i < |t| ==> t[i] == d[i - |c| - 1];
      assert forall i :: |a| < i < |s| ==> s[i] == b[i - |a| - 1];
      assert |a| == |c|;
      assert a == s[..|a|] && c == t[..|c|] && b == s[|a| + 1..] && d == t[|c| + 1..];
    }
  }

  // ----- every change of instance is reported once -----

  /** The instances given for k, oldest first, starting with the one already known. */
  function KnownInstances(marks: Marks, xs: seq<Snapshot>, k: string): seq<Option<string>> {
    if xs == [] then (if Truthy(OldInstance(marks, k)) then [OldInstance(marks, k)] else [])
    else
      var x := xs[|xs| - 1];
      KnownInstances(marks, xs[..|xs| - 1], k) + if StateKey(x) == k && Truthy(x.instance) then [x.instance] else []
  }

  function Changes<T(==)>(ys: seq<T>): nat {
    if |ys| < 2 then 0 else Changes(ys[..|ys| - 1]) + if ys[|ys| - 2] != ys[|ys| - 1] then 1 else 0
  }

  function Restarts(marks: Marks, xs: seq<Snapshot>, k: string): nat {
    if xs == [] then 0
    else
      var x := xs[|xs| - 1];
      var init := xs[..|xs| - 1];
      Restarts(marks, init, k) + if StateKey(x) == k && IsRestart(After(marks, init), x) then 1 else 0
  }

  lemma {:induction false} LastKnownIsLast(marks: Marks, xs: seq<Snapshot>, k: string)
    ensures Truthy(LastKnown(marks, xs, k)) <==> KnownInstances(marks, xs, k) != []
    ensures Truthy(LastKnown(marks, xs, k)) ==>
              LastKnown(marks, xs, k) == KnownInstances(marks, xs, k)[|KnownInstances(marks, xs, k)| - 1]
  {
    if xs != [] {
      LastKnownIsLast(marks, xs[..|xs| - 1], k);
    }
  }

  lemma ChangesOneMore<T>(ys: seq<T>, y: T)
    ensures Changes(ys + [y]) == Changes(ys) + if ys != [] && ys[|ys| - 1] != y then 1 else 0
  {
    assert (ys + [y])[..|ys|] == ys;
  }

  lemma RestartAgainstLast(marks: Marks, xs: seq<Snapshot>, x: Snapshot)
    ensures
      var known := KnownInstances(marks, xs, StateKey(x));
      IsRestart(After(marks, xs), x) <==> Truthy(x.instance) && known != [] && known[|known| - 1] != x.instance
  {
    LastKnownIsLast(marks, xs, StateKey(x));
    MarksRemember(marks, xs, StateKey(x));
  }

  /** The restarts reported for a project are exactly the changes in the instances it gave. */
  lemma {:induction false} RestartsAreChanges(marks: Marks, xs: seq<Snapshot>, k: string)
    ensures Restarts(marks, xs, k) == Changes(KnownInstances(marks, xs, k))
  {
    if xs != [] {
      var init, x := xs[..|xs| - 1], xs[|xs| - 1];
      RestartsAreChanges(marks, init, k);
      if StateKey(x) == k {
        RestartAgainstLast(marks, init, x);
        ChangesOneMore(KnownInstances(marks, init, k), x.instance);
      }
      assert KnownInstances(marks, init, k) + [] == KnownInstances(marks, init, k);
    }
  }

  // ----- the snapshots returned -----

  /** Every project is shown or pending, and shown exactly if something was observed of it. */
  lemma {:induction false} ShownOrPending(observed: seq<Observation>, n: nat)
    ensures |LatestOf(observed, n)| + |Silent(observed, n)| == n
    ensures forall p: nat :: p in Silent(observed, n) <==> p < n && Latest(observed, p).None?
  {
    if n > 0 {
      ShownOrPending(observed, n - 1);
    }
  }

  ghost predicate LastOf(observed: seq<Observation>, p: nat, i: nat) {
    && i < |observed| && observed[i].index == p
    && forall j :: i < j < |observed| ==> observed[j].index != p
  }

  /** The snapshot shown for a project is its last observation. */
  lemma {:induction false} LatestIsLast(observed: seq<Observation>, p: nat)
    ensures Latest(observed, p).None? <==> forall i :: 0 <= i < |observed| ==> observed[i].index != p
    ensures forall i :: 0 <= i < |observed| && LastOf(observed, p, i) ==>
              Latest(observed, p) == Some(observed[i].snapshot)
  {
    if observed != [] {
      var init := observed[..|observed| - 1];
      assert forall i :: 0 <= i < |init| ==> init[i] == observed[i];
      LatestIsLast(init, p);
      forall i | 0 <= i < |observed| && LastOf(observed, p, i)
        ensures Latest(observed, p) == Some(observed[i].snapshot)
      {
        if i < |init| {
          assert observed[|init|].index != p;
          assert LastOf(init, p, i);
        }
      }
    }
  }
}
