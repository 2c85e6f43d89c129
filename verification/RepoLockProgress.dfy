/** Threads in the guard of `_run_repo_admin_mutation`: who can go on, for how long, and whether all can finish. */
module RepoLockProgress {
  import opened Collections
  import opened Ordering
  import opened RepoLocks
  import opened RepoLockLaws
  import opened RepoLockCircles

  // ----- how long a thread can go on -----

  /** The steps a thread still has before it, if it is never refused. */
  function Work(th: Thread): int {
    match th.phase
    case Acquiring => |th.locks| - th.locked + |th.locks| + 2 * |th.lanes| + 4
    case Entering => |th.lanes| - th.entered + |th.locks| + |th.lanes| + 3
    case InBody => |th.locks| + |th.lanes| + 2
    case Exiting => th.locked + th.entered + 1
    case Done => 0
  }

  function TotalWork(threads: seq<Thread>): int {
    if threads == [] then 0 else TotalWork(threads[..|threads| - 1]) + Work(threads[|threads| - 1])
  }

  lemma {:induction false} WorkReplaced(threads: seq<Thread>, t: nat, th: Thread)
    requires t < |threads|
    ensures TotalWork(threads[t := th]) == TotalWork(threads) - Work(threads[t]) + Work(th)
  {
    var n := |threads| - 1;
    if t == n {
      assert threads[t := th][..n] == threads[..n];
    } else {
      assert threads[t := th][..n] == threads[..n][t := th];
      WorkReplaced(threads[..n], t, th);
    }
  }

  lemma {:induction false} WorkIsNatural(threads: seq<Thread>)
    requires forall i :: 0 <= i < |threads| ==> Work(threads[i]) >= 0
    ensures TotalWork(threads) >= 0
  {
    if threads != [] {
      WorkIsNatural(threads[..|threads| - 1]);
    }
  }

  lemma NaturalTotal(s: State)
    requires Inv(s)
    ensures TotalWork(s.threads) >= 0
  {
    forall i | 0 <= i < |s.threads| ensures Work(s.threads[i]) >= 0 {
      assert ThreadOk(s, i);
    }
    WorkIsNatural(s.threads);
  }

  lemma StepWorks(s: State, m: Move)
    requires Inv(s) && Step(s, m) != s
    ensures TotalWork(Step(s, m).threads) < TotalWork(s.threads)
  {
    assert ThreadOk(s, m.t);
    var th' := Step(s, m).threads[m.t];
    assert Step(s, m).threads == s.threads[m.t := th'];
    WorkReplaced(s.threads, m.t, th');
  }

  function EffectiveMoves(s: State, moves: seq<Move>): nat {
    if moves == [] then 0
    else
      var init, last := moves[..|moves| - 1], moves[|moves| - 1];
      EffectiveMoves(s, init) + if Step(Run(s, init), last) != Run(s, init) then 1 else 0
  }

  /** However the threads interleave, they make no more moves than there is work at the start. */
  lemma {:induction false} MovesAreBounded(s: State, moves: seq<Move>)
    requires Inv(s)
    ensures EffectiveMoves(s, moves) + TotalWork(Run(s, moves).threads) <= TotalWork(s.threads)
    ensures EffectiveMoves(s, moves) <= TotalWork(s.threads)
  {
    if moves != [] {
      var init, last := moves[..|moves| - 1], moves[|moves| - 1];
      MovesAreBounded(s, init);
      EveryRunKeepsInv(s, init);
      if Step(Run(s, init), last) != Run(s, init) {
        StepWorks(Run(s, init), last);
      }
    }
    EveryRunKeepsInv(s, moves);
    NaturalTotal(Run(s, moves));
  }

  // ----- who can go on -----

  function FirstNaturals(n: nat): (xs: set<nat>)
    ensures |xs| == n && forall x: nat :: x in xs <==> x < n
  {
    if n == 0 then {} else FirstNaturals(n - 1) + {n - 1}
  }

  lemma BoundedDistinct(xs: seq<nat>, n: nat)
    requires Distinct(xs) && forall i :: 0 <= i < |xs| ==> xs[i] < n
    ensures |xs| <= n
  {
    var members := set x | x in xs;
    DistinctCardinality(xs);
    assert members <= FirstNaturals(n);
    SubsetCardinality(members, FirstNaturals(n));
  }

  function OwnMove(th: Thread, t: nat): Move {
    match th.phase
    case Acquiring => AcquireLock(t)
    case Entering => if th.entered < |th.lanes| then EnterLane(t, true) else StartBody(t, true)
    case InBody => LeaveBody(t)
    case _ => ReleaseOne(t)
  }

  lemma UnblockedMoves(s: State, t: nat)
    requires Inv(s) && t < |s.threads| && s.threads[t].phase != Done && !Blocked(s, t)
    ensures Step(s, OwnMove(s.threads[t], t)) != s
  {
    assert ThreadOk(s, t);
    assert Step(s, OwnMove(s.threads[t], t)).threads[t] != s.threads[t];
  }

  /** Threads of which each waits for the next. */
  ghost predicate WaitingChain(s: State, chain: seq<nat>) {
    && chain != [] && Distinct(chain)
    && (forall i :: 0 <= i < |chain| ==> chain[i] < |s.threads|)
    && (forall i :: 0 <= i < |chain| - 1 ==> WaitsFor(s, chain[i], chain[i + 1]))
  }

  lemma ChainCloses(s: State, chain: seq<nat>, u: nat)
    requires WaitingChain(s, chain) && WaitsFor(s, chain[|chain| - 1], u) && u in chain
    ensures exists ring :: CircularWait(s, ring)
  {
    var i :| 0 <= i < |chain| && chain[i] == u;
    var ring := chain[i..];
    forall k | 0 <= k < |ring| ensures WaitsFor(s, ring[k], ring[After(k, |ring|)]) {
      assert k + 1 < |ring| ==> WaitsFor(s, chain[i + k], chain[i + k + 1]);
    }
    assert CircularWait(s, ring);
  }

  /** Following who waits for whom ends at a thread that can move, unless it closes a circle. */
  lemma {:induction false} FollowWaits(s: State, chain: seq<nat>) returns (m: Move)
    requires Inv(s) && WaitingChain(s, chain) && s.threads[chain[|chain| - 1]].phase != Done
    requires forall ring :: !CircularWait(s, ring)
    ensures m.t < |s.threads| && Step(s, m) != s
    decreases |s.threads| - |chain|
  {
    BoundedDistinct(chain, |s.threads|);
    var t := chain[|chain| - 1];
    if !Blocked(s, t) {
      UnblockedMoves(s, t);
      m := OwnMove(s.threads[t], t);
    } else {
      var u := s.lockHolder[Awaited(s, t)];
      WaitingHolds(s, t, u);
      assert ThreadOk(s, u);
      assert u in chain ==> exists ring :: CircularWait(s, ring) by {
        if u in chain {
          ChainCloses(s, chain, u);
        }
      }
      BoundedDistinct(chain + [u], |s.threads|);
      m := FollowWaits(s, chain + [u]);
    }
  }

  /** As long as a thread is inside and none wait in a circle, some thread can move. */
  lemma SomebodyCanMove(s: State, t: nat) returns (m: Move)
    requires Inv(s) && t < |s.threads| && s.threads[t].phase != Done
    requires forall ring :: !CircularWait(s, ring)
    ensures m.t < |s.threads| && Step(s, m) != s
  {
    m := FollowWaits(s, [t]);
  }

  // ----- whether all can finish -----

  lemma CircleStays(s: State, ring: seq<nat>, m: Move)
    requires Inv(s) && CircularWait(s, ring)
    ensures CircularWait(Step(s, m), ring)
  {
    forall i | 0 <= i < |ring| ensures WaitsFor(Step(s, m), ring[i], ring[After(i, |ring|)]) {
      var u := ring[After(i, |ring|)];
      assert WaitsFor(s, ring[i], u) && WaitsFor(s, u, ring[After(After(i, |ring|), |ring|)]);
      WaitOutlasts(s, ring[i], u, m);
    }
  }

  /** A wait for a thread that itself waits lasts through every step. */
  lemma WaitOutlasts(s: State, t: nat, u: nat, m: Move)
    requires Inv(s) && WaitsFor(s, t, u) && Blocked(s, u)
    ensures WaitsFor(Step(s, m), t, u)
  {
    if m.t < |s.threads| && m.t != u {
      assert ThreadOk(s, m.t);
    }
  }

  lemma {:induction false} CircleForever(s: State, ring: seq<nat>, moves: seq<Move>)
    requires Inv(s) && CircularWait(s, ring)
    ensures CircularWait(Run(s, moves), ring)
  {
    if moves != [] {
      CircleForever(s, ring, moves[..|moves| - 1]);
      EveryRunKeepsInv(s, moves[..|moves| - 1]);
      CircleStays(Run(s, moves[..|moves| - 1]), ring, moves[|moves| - 1]);
    }
  }

  lemma {:induction false} RunInParts(s: State, a: seq<Move>, b: seq<Move>)
    ensures Run(s, a + b) == Run(Run(s, a), b)
  {
    if b == [] {
      assert a + b == a;
    } else {
      assert (a + b)[..|a + b| - 1] == a + b[..|b| - 1];
      RunInParts(s, a, b[..|b| - 1]);
    }
  }

  ghost predicate AllDone(s: State) { forall t :: 0 <= t < |s.threads| ==> s.threads[t].phase == Done }

  lemma {:induction false} AllFinish(start: State, moves: seq<Move>) returns (more: seq<Move>)
    requires Inv(start) && forall ms, ring :: !CircularWait(Run(start, ms), ring)
    ensures moves <= more && AllDone(Run(start, more))
    decreases TotalWork(Run(start, moves).threads)
  {
    EveryRunKeepsInv(start, moves);
    var s := Run(start, moves);
    NaturalTotal(s);
    if AllDone(s) {
      more := moves;
    } else {
      var t :| 0 <= t < |s.threads| && s.threads[t].phase != Done;
      var m := SomebodyCanMove(s, t);
      StepWorks(s, m);
      OneMore(start, moves, m);
      EveryRunKeepsInv(start, moves + [m]);
      NaturalTotal(Run(start, moves + [m]));
      more := AllFinish(start, moves + [m]);
    }
  }

  /** Wherever a run has got to, it can go on until every thread has left the guard. */
  ghost predicate AlwaysFinishes(locks: seq<seq<string>>, lanes: seq<seq<Lane>>)
    requires |locks| == |lanes|
  {
    forall moves :: CanFinish(Start(locks, lanes), moves)
  }

  ghost predicate CanFinish(start: State, moves: seq<Move>) {
    exists more :: moves <= more && AllDone(Run(start, more))
  }

  /** All threads can always still finish exactly if their lists of locks are not tangled. */
  lemma FinishIff(locks: seq<seq<string>>, lanes: seq<seq<Lane>>)
    requires |locks| == |lanes|
    ensures AlwaysFinishes(locks, lanes) <==> !Tangled(locks)
  {
    var start := Start(locks, lanes);
    StartInv(locks, lanes);
    CircularWaitIff(locks, lanes);
    if Tangled(locks) {
      var moves, ring :| CircularWait(Run(start, moves), ring);
      EveryRunKeepsInv(start, moves);
      forall more | moves <= more ensures !AllDone(Run(start, more)) {
        RunInParts(start, moves, more[|moves|..]);
        assert moves + more[|moves|..] == more;
        CircleForever(Run(start, moves), ring, more[|moves|..]);
        assert WaitsFor(Run(start, more), ring[0], ring[After(0, |ring|)]);
      }
      assert !CanFinish(start, moves);
    } else {
      forall moves ensures CanFinish(start, moves) {
        var more := AllFinish(start, moves);
      }
    }
  }
}
