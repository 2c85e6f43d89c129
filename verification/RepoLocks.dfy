/**
 * The multi-repository guard of Admin mutations (`_run_repo_admin_mutation`): the record locks in the order of the
 * sorted roots, then the maintenance lanes, then the body; everything is released on every exit.
 */
module RepoLocks {
  import opened Filtering
  import opened Ordering
  import opened RepoRoots

  datatype Phase = Acquiring | Entering | InBody | Exiting | Done

  /**
   * The maintenance lane of a root in the activity component of one runtime. The runtime is selected anew by each call
   * for each root, so two calls need not meet in one component.
   */
  datatype Lane = Lane(component: string, root: Root)

  /**
   * A thread in the guard: the records it locks and the lanes it enters, both in order and possibly with repetitions,
   * how many of each it has entered, and where it is.
   */
  datatype Thread = Thread(locks: seq<string>, lanes: seq<Lane>, locked: nat, entered: nat, phase: Phase)

  datatype State = State(threads: seq<Thread>, lockHolder: map<string, nat>, laneHolder: map<Lane, nat>)

  datatype Move =
    | AcquireLock(t: nat)
    | EnterLane(t: nat, admitted: bool)
    | StartBody(t: nat, interlocksOk: bool)
    | LeaveBody(t: nat)
    | ReleaseOne(t: nat)

  /** Any threads, none of them holding anything yet. */
  function Start(locks: seq<seq<string>>, lanes: seq<seq<Lane>>): State
    requires |locks| == |lanes|
  {
    State(seq(|locks|, i requires 0 <= i < |locks| => Thread(locks[i], lanes[i], 0, 0, Acquiring)), map[], map[])
  }

  function Set(s: State, t: nat, th: Thread): State
    requires t < |s.threads|
  {
    s.(threads := s.threads[t := th])
  }

  predicate HeldByOther<K(==)>(holder: map<K, nat>, k: K, t: nat) { k in holder && holder[k] != t }

  /** What is left when the last of `count` entries is given back: an entry made twice is still held. */
  function Drop<K(==)>(holder: map<K, nat>, names: seq<K>, count: nat): map<K, nat>
    requires 0 < count <= |names|
  {
    if names[count - 1] in names[..count - 1] then holder else holder - {names[count - 1]}
  }

  predicate Blocked(s: State, t: nat) {
    t < |s.threads|
    && s.threads[t].phase == Acquiring && s.threads[t].locked < |s.threads[t].locks|
    && HeldByOther(s.lockHolder, s.threads[t].locks[s.threads[t].locked], t)
  }

  /**
   * One step; a blocked or misplaced move changes nothing. Locks and lanes can be entered again by their holder.
   * Entering a lane never waits: a conflict raises.
   */
  function Step(s: State, m: Move): State {
    if m.t >= |s.threads| then s
    else
      var th := s.threads[m.t];
      match m
      case AcquireLock(t) =>
        if th.phase != Acquiring || Blocked(s, t) then s
        else if th.locked == |th.locks| then Set(s, t, th.(phase := Entering))
        else if th.locked < |th.locks| then
          Set(s, t, th.(locked := th.locked + 1)).(lockHolder := s.lockHolder[th.locks[th.locked] := t])
        else s
      case EnterLane(t, admitted) =>
        if th.phase != Entering || th.entered >= |th.lanes| then s
        else if !admitted || HeldByOther(s.laneHolder, th.lanes[th.entered], t) then Set(s, t, th.(phase := Exiting))
        else Set(s, t, th.(entered := th.entered + 1)).(laneHolder := s.laneHolder[th.lanes[th.entered] := t])
      case StartBody(t, interlocksOk) =>
        if th.phase != Entering || th.entered != |th.lanes| then s
        else Set(s, t, th.(phase := if interlocksOk then InBody else Exiting))
      case LeaveBody(t) =>
        if th.phase != InBody then s else Set(s, t, th.(phase := Exiting))
      case ReleaseOne(t) =>
        if th.phase != Exiting then s
        else if 0 < th.entered <= |th.lanes| then
          Set(s, t, th.(entered := th.entered - 1)).(laneHolder := Drop(s.laneHolder, th.lanes, th.entered))
        else if 0 < th.locked <= |th.locks| then
          Set(s, t, th.(locked := th.locked - 1)).(lockHolder := Drop(s.lockHolder, th.locks, th.locked))
        else Set(s, t, th.(phase := Done))
  }

  function Run(s: State, moves: seq<Move>): State {
    if moves == [] then s else Step(Run(s, moves[..|moves| - 1]), moves[|moves| - 1])
  }

  // ----- the invariant -----

  /** Whom a lock belongs to is what the threads' own progress says. */
  ghost predicate HoldsExactly<K>(holder: map<K, nat>, names: seq<K>, count: nat, t: nat) {
    && count <= |names|
    && (forall i :: 0 <= i < count ==> names[i] in holder && holder[names[i]] == t)
    && (forall r :: r in holder && holder[r] == t ==> r in names[..count])
  }

  ghost predicate ThreadOk(s: State, t: nat)
    requires t < |s.threads|
  {
    var th := s.threads[t];
    && HoldsExactly(s.lockHolder, th.locks, th.locked, t)
    && HoldsExactly(s.laneHolder, th.lanes, th.entered, t)
    && (th.phase == Acquiring ==> th.entered == 0)
    && (th.phase == Entering || th.phase == InBody ==> th.locked == |th.locks|)
    && (th.phase == InBody ==> th.entered == |th.lanes|)
    && (th.phase == Done ==> th.locked == 0 && th.entered == 0)
  }

  ghost predicate Inv(s: State) {
    && (forall t :: 0 <= t < |s.threads| ==> ThreadOk(s, t))
    && (forall r :: r in s.lockHolder ==> s.lockHolder[r] < |s.threads|)
    && (forall r :: r in s.laneHolder ==> s.laneHolder[r] < |s.threads|)
  }

  lemma TakeKeepsOthers<K>(holder: map<K, nat>, names: seq<K>, count: nat, u: nat, r: K, t: nat)
    requires HoldsExactly(holder, names, count, u) && u != t && !HeldByOther(holder, r, t)
    ensures HoldsExactly(holder[r := t], names, count, u)
  {
  }

  lemma TakeNext<K>(holder: map<K, nat>, names: seq<K>, count: nat, t: nat)
    requires HoldsExactly(holder, names, count, t) && count < |names| && !HeldByOther(holder, names[count], t)
    ensures HoldsExactly(holder[names[count] := t], names, count + 1, t)
  {
    assert names[..count + 1] == names[..count] + [names[count]];
  }

  lemma DropKeepsOthers<K>(holder: map<K, nat>, names: seq<K>, count: nat, u: nat, dropped: seq<K>, n: nat, t: nat)
    requires HoldsExactly(holder, names, count, u) && u != t
    requires HoldsExactly(holder, dropped, n, t) && 0 < n
    ensures HoldsExactly(Drop(holder, dropped, n), names, count, u)
  {
  }

  lemma DropLast<K>(holder: map<K, nat>, names: seq<K>, count: nat, t: nat)
    requires HoldsExactly(holder, names, count, t) && 0 < count
    ensures HoldsExactly(Drop(holder, names, count), names, count - 1, t)
  {
    assert names[..count] == names[..count - 1] + [names[count - 1]];
    forall i | 0 <= i < count - 1
      ensures names[i] in Drop(holder, names, count)
    {
      assert names[i] in names[..count - 1];
    }
  }

  /** The lists a thread came with. */
  ghost predicate SameWork(s: State, s': State) {
    && |s'.threads| == |s.threads|
    && forall i :: 0 <= i < |s.threads| ==>
         s'.threads[i].locks == s.threads[i].locks && s'.threads[i].lanes == s.threads[i].lanes
  }

  lemma StepKeepsWork(s: State, m: Move)
    ensures SameWork(s, Step(s, m))
  {
  }

  lemma {:induction false} ThreadsKeepTheirs(s: State, moves: seq<Move>)
    ensures SameWork(s, Run(s, moves))
  {
    if moves != [] {
      ThreadsKeepTheirs(s, moves[..|moves| - 1]);
      StepKeepsWork(Run(s, moves[..|moves| - 1]), moves[|moves| - 1]);
    }
  }

  /** A step in which the thread takes or gives back nothing. */
  lemma QuietKeepsInv(s: State, t: nat, th: Thread)
    requires Inv(s) && t < |s.threads| && th == s.threads[t].(phase := th.phase)
    requires th.phase == Acquiring ==> th.entered == 0
    requires th.phase == Entering || th.phase == InBody ==> th.locked == |th.locks|
    requires th.phase == InBody ==> th.entered == |th.lanes|
    requires th.phase == Done ==> th.locked == 0 && th.entered == 0
    ensures Inv(Set(s, t, th))
  {
    forall u | 0 <= u < |s.threads| ensures ThreadOk(Set(s, t, th), u) {
      assert ThreadOk(s, u);
    }
  }

  lemma LockKeepsInv(s: State, t: nat)
    requires Inv(s) && t < |s.threads| && s.threads[t].phase == Acquiring
    requires s.threads[t].locked < |s.threads[t].locks| && !Blocked(s, t)
    ensures Inv(Step(s, AcquireLock(t)))
  {
    var s' := Step(s, AcquireLock(t));
    var th := s.threads[t];
    assert ThreadOk(s, t);
    TakeNext(s.lockHolder, th.locks, th.locked, t);
    forall u | 0 <= u < |s'.threads| ensures ThreadOk(s', u) {
      assert ThreadOk(s, u);
      if u != t {
        TakeKeepsOthers(s.lockHolder, s.threads[u].locks, s.threads[u].locked, u, th.locks[th.locked], t);
      }
    }
  }

  lemma LaneKeepsInv(s: State, t: nat)
    requires Inv(s) && t < |s.threads| && s.threads[t].phase == Entering
    requires s.threads[t].entered < |s.threads[t].lanes|
    requires !HeldByOther(s.laneHolder, s.threads[t].lanes[s.threads[t].entered], t)
    ensures Inv(Step(s, EnterLane(t, true)))
  {
    var s' := Step(s, EnterLane(t, true));
    var th := s.threads[t];
    assert ThreadOk(s, t);
    TakeNext(s.laneHolder, th.lanes, th.entered, t);
    forall u | 0 <= u < |s'.threads| ensures ThreadOk(s', u) {
      assert ThreadOk(s, u);
      if u != t {
        TakeKeepsOthers(s.laneHolder, s.threads[u].lanes, s.threads[u].entered, u, th.lanes[th.entered], t);
      }
    }
  }

  lemma ReleaseLaneKeepsInv(s: State, t: nat)
    requires Inv(s) && t < |s.threads| && s.threads[t].phase == Exiting && 0 < s.threads[t].entered
    ensures Inv(Step(s, ReleaseOne(t)))
  {
    var s' := Step(s, ReleaseOne(t));
    var th := s.threads[t];
    assert ThreadOk(s, t);
    DropLast(s.laneHolder, th.lanes, th.entered, t);
    forall u | 0 <= u < |s'.threads| ensures ThreadOk(s', u) {
      assert ThreadOk(s, u);
      if u != t {
        DropKeepsOthers(s.laneHolder, s.threads[u].lanes, s.threads[u].entered, u, th.lanes, th.entered, t);
      }
    }
  }

  lemma ReleaseLockKeepsInv(s: State, t: nat)
    requires Inv(s) && t < |s.threads| && s.threads[t].phase == Exiting
    requires s.threads[t].entered == 0 && 0 < s.threads[t].locked
    ensures Inv(Step(s, ReleaseOne(t)))
  {
    var s' := Step(s, ReleaseOne(t));
    var th := s.threads[t];
    assert ThreadOk(s, t);
    DropLast(s.lockHolder, th.locks, th.locked, t);
    forall u | 0 <= u < |s'.threads| ensures ThreadOk(s', u) {
      assert ThreadOk(s, u);
      if u != t {
        DropKeepsOthers(s.lockHolder, s.threads[u].locks, s.threads[u].locked, u, th.locks, th.locked, t);
      }
    }
  }

  lemma StepKeepsInv(s: State, m: Move)
    requires Inv(s)
    ensures Inv(Step(s, m))
  {
    if m.t < |s.threads| && Step(s, m) != s {
      var th := s.threads[m.t];
      assert ThreadOk(s, m.t);
      match m
      case AcquireLock(t) =>
        if th.locked < |th.locks| {
          LockKeepsInv(s, t);
        } else {
          QuietKeepsInv(s, t, th.(phase := Entering));
        }
      case EnterLane(t, admitted) =>
        if admitted && !HeldByOther(s.laneHolder, th.lanes[th.entered], t) {
          LaneKeepsInv(s, t);
        } else {
          QuietKeepsInv(s, t, th.(phase := Exiting));
        }
      case StartBody(t, ok) => QuietKeepsInv(s, t, th.(phase := if ok then InBody else Exiting));
      case LeaveBody(t) => QuietKeepsInv(s, t, th.(phase := Exiting));
      case ReleaseOne(t) =>
        if 0 < th.entered {
          ReleaseLaneKeepsInv(s, t);
        } else if 0 < th.locked {
          ReleaseLockKeepsInv(s, t);
        } else {
          QuietKeepsInv(s, t, th.(phase := Done));
        }
    }
  }

  lemma {:induction false} EveryRunKeepsInv(s: State, moves: seq<Move>)
    requires Inv(s)
    ensures Inv(Run(s, moves)) && |Run(s, moves).threads| == |s.threads|
  {
    if moves != [] {
      EveryRunKeepsInv(s, moves[..|moves| - 1]);
      StepKeepsInv(Run(s, moves[..|moves| - 1]), moves[|moves| - 1]);
      StepKeepsWork(Run(s, moves[..|moves| - 1]), moves[|moves| - 1]);
    }
  }

  lemma StartInv(locks: seq<seq<string>>, lanes: seq<seq<Lane>>)
    requires |locks| == |lanes|
    ensures Inv(Start(locks, lanes))
  {
  }

  lemma ReachedInv(locks: seq<seq<string>>, lanes: seq<seq<Lane>>, moves: seq<Move>)
    requires |locks| == |lanes|
    ensures
      var s := Run(Start(locks, lanes), moves);
      && Inv(s) && |s.threads| == |locks|
      && forall t :: 0 <= t < |locks| ==> s.threads[t].locks == locks[t] && s.threads[t].lanes == lanes[t]
  {
    StartInv(locks, lanes);
    EveryRunKeepsInv(Start(locks, lanes), moves);
    ThreadsKeepTheirs(Start(locks, lanes), moves);
  }

  // ----- one thread, statement by statement -----

  datatype Outcome =
    | RuntimeUnavailable(root: Root)
    | MaintenanceConflict(root: Root)
    | RecoveryInterlock(root: Root)
    | BodyResult

  /** A runtime can be selected for the root, and nobody else is in its lane there. */
  predicate Admitted(runtimes: map<Root, string>, free: set<Lane>, r: Root) {
    r in runtimes && Lane(runtimes[r], r) in free
  }

  /** The lanes of these roots, each in the component of the runtime selected for it. */
  ghost predicate EntersLanes(runtimes: map<Root, string>, roots: seq<Root>, lanes: seq<Lane>) {
    && |lanes| == |roots|
    && forall i :: 0 <= i < |roots| ==> roots[i] in runtimes && lanes[i] == Lane(runtimes[roots[i]], roots[i])
  }

  /** The exit stack of one call of `_run_repo_admin_mutation` that has no lock to wait for. */
  class AdminGuard {
    var locks: seq<string>
    var lanes: seq<Lane>

    constructor ()
      ensures locks == [] && lanes == []
    {
      locks, lanes := [], [];
    }

    /**
     * `call` are the roots and those with a record under the `registry`, `runtimes` the activity component of the
     * runtime selected for each root that has one, `free` the maintenance lanes nobody else is in, and `clear` the
     * roots whose recovery interlock is clear. `atBody` reports what was held when the body ran.
     */
    method RunMutation(registry: Option<string>, call: Call, runtimes: map<Root, string>, free: set<Lane>,
                       clear: set<Root>)
      returns (outcome: Outcome, atBody: Option<(seq<string>, seq<Lane>)>)
      requires locks == [] && lanes == []
      modifies this
      ensures locks == [] && lanes == []
      ensures outcome == BodyResult <==> forall r :: r in call.roots ==> Admitted(runtimes, free, r) && r in clear
      ensures outcome == BodyResult <==> atBody.Some?
      ensures atBody.Some? ==>
                atBody.value.0 == LockList(registry, call) && EntersLanes(runtimes, call.roots, atBody.value.1)
      ensures outcome.RuntimeUnavailable? || outcome.MaintenanceConflict? ==>
                exists i :: 0 <= i < |call.roots| && call.roots[i] == outcome.root
                  && !Admitted(runtimes, free, call.roots[i])
                  && (outcome.RuntimeUnavailable? <==> call.roots[i] !in runtimes)
                  && forall k :: 0 <= k < i ==> Admitted(runtimes, free, call.roots[k])
      ensures outcome.RecoveryInterlock? ==>
                && outcome.root in call.roots && outcome.root !in clear
                && forall r :: r in call.roots ==> Admitted(runtimes, free, r)
    {
      atBody := None;
      EnterLocks(registry, call);
      outcome := EnterLanes(call.roots, runtimes, free);
      if outcome != BodyResult {
        UnwindAll();
        return;
      }
      for i := 0 to |call.roots|
        invariant EntersLanes(runtimes, call.roots, lanes) && locks == LockList(registry, call)
        invariant forall k :: 0 <= k < i ==> call.roots[k] in clear
      {
        if call.roots[i] !in clear {
          assert call.roots[i] in call.roots;
          outcome := RecoveryInterlock(call.roots[i]);
          UnwindAll();
          return;
        }
      }
      atBody := Some((locks, lanes));
      UnwindAll();
    }

    method EnterLocks(registry: Option<string>, call: Call)
      requires locks == []
      modifies this`locks
      ensures locks == LockList(registry, call)
    {
      for i := 0 to |call.roots|
        invariant locks == Collect(LockOf(registry, call.found), call.roots[..i])
      {
        CollectOneMore(LockOf(registry, call.found), call.roots[..i], call.roots[i]);
        assert call.roots[..i + 1] == call.roots[..i] + [call.roots[i]];
        var name := RecordName(registry, call.roots[i]);
        if call.roots[i] in call.found && name.Some? {
          locks := locks + [name.value];
        }
      }
      assert call.roots[..|call.roots|] == call.roots;
    }

    /** Ends with the first root that has no runtime or whose lane is taken. */
    method EnterLanes(roots: seq<Root>, runtimes: map<Root, string>, free: set<Lane>) returns (outcome: Outcome)
      requires lanes == []
      modifies this`lanes
      ensures outcome == BodyResult <==> forall r :: r in roots ==> Admitted(runtimes, free, r)
      ensures outcome == BodyResult ==> EntersLanes(runtimes, roots, lanes)
      ensures outcome != BodyResult ==>
                exists i :: 0 <= i < |roots| && !Admitted(runtimes, free, roots[i])
                  && outcome == (if roots[i] !in runtimes then RuntimeUnavailable(roots[i])
                                 else MaintenanceConflict(roots[i]))
                  && forall k :: 0 <= k < i ==> Admitted(runtimes, free, roots[k])
    {
      for i := 0 to |roots|
        invariant EntersLanes(runtimes, roots[..i], lanes)
        invariant forall k :: 0 <= k < i ==> Admitted(runtimes, free, roots[k])
      {
        if roots[i] !in runtimes {
          assert roots[i] in roots;
          return RuntimeUnavailable(roots[i]);
        }
        var lane := Lane(runtimes[roots[i]], roots[i]);
        if lane !in free {
          assert roots[i] in roots && !Admitted(runtimes, free, roots[i]);
          return MaintenanceConflict(roots[i]);
        }
        lanes := lanes + [lane];
        assert roots[..i + 1] == roots[..i] + [roots[i]];
      }
      assert roots[..|roots|] == roots;
      outcome := BodyResult;
    }

    /** Leaving the stack releases the lanes, then the locks, last entered first. */
    method UnwindAll()
      modifies this
      ensures locks == [] && lanes == []
    {
      while lanes != []
        decreases |lanes|
      {
        lanes := lanes[..|lanes| - 1];
      }
      while locks != []
        invariant lanes == []
        decreases |locks|
      {
        locks := locks[..|locks| - 1];
      }
    }
  }
}
