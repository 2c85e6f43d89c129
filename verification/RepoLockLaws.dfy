/**
 * What the guard of `_run_repo_admin_mutation` promises over every interleaving of any number of threads: what a body
 * holds, and which bodies exclude each other.
 */
module RepoLockLaws {
  import opened RepoRoots
  import opened RepoLocks

  /** The body runs only with every lock and every lane held by its own thread. */
  lemma BodyHoldsEverything(locks: seq<seq<string>>, lanes: seq<seq<Lane>>, moves: seq<Move>, t: nat)
    requires |locks| == |lanes| && t < |locks|
    ensures
      var s := Run(Start(locks, lanes), moves);
      && |s.threads| == |locks|
      && (s.threads[t].phase == InBody ==>
            && (forall r :: r in locks[t] ==> r in s.lockHolder && s.lockHolder[r] == t)
            && (forall l :: l in lanes[t] ==> l in s.laneHolder && s.laneHolder[l] == t))
  {
    ReachedInv(locks, lanes, moves);
    assert ThreadOk(Run(Start(locks, lanes), moves), t);
  }

  ghost predicate Together(locks: seq<seq<string>>, lanes: seq<seq<Lane>>, moves: seq<Move>, t: nat, u: nat)
    requires |locks| == |lanes|
  {
    var s := Run(Start(locks, lanes), moves);
    t < |s.threads| && u < |s.threads| && s.threads[t].phase == InBody && s.threads[u].phase == InBody
  }

  /** Nothing is in both lists. */
  ghost predicate Apart<T>(xs: seq<T>, ys: seq<T>) {
    forall x :: x in xs ==> x !in ys
  }

  /** So two threads that share a record lock, or a lane of one component, are never in their bodies together. */
  lemma BodiesExclude(locks: seq<seq<string>>, lanes: seq<seq<Lane>>, moves: seq<Move>, t: nat, u: nat)
    requires |locks| == |lanes| && t < |locks| && u < |locks| && t != u
    requires Together(locks, lanes, moves, t, u)
    ensures Apart(locks[t], locks[u]) && Apart(lanes[t], lanes[u])
  {
    BodyHoldsEverything(locks, lanes, moves, t);
    BodyHoldsEverything(locks, lanes, moves, u);
  }

  /** Nobody else holds what the thread has still to enter. */
  ghost predicate Free(s: State, t: nat) {
    && t < |s.threads| && s.threads[t].phase in {Acquiring, Entering, InBody}
    && var th := s.threads[t];
    && (forall i :: th.locked <= i < |th.locks| ==> !HeldByOther(s.lockHolder, th.locks[i], t))
    && (forall i :: th.entered <= i < |th.lanes| ==> !HeldByOther(s.laneHolder, th.lanes[i], t))
  }

  function Inside(th: Thread): Thread {
    th.(locked := |th.locks|, entered := |th.lanes|, phase := InBody)
  }

  function NextInside(th: Thread, t: nat): Move {
    if th.phase == Acquiring then AcquireLock(t)
    else if th.entered < |th.lanes| then EnterLane(t, true)
    else StartBody(t, true)
  }

  function StepsInside(th: Thread): int {
    (if th.phase == Acquiring then 2 else if th.phase == Entering then 1 else 0)
    + |th.locks| - th.locked + |th.lanes| - th.entered
  }

  /** One step of a thread nobody stands in the way of. */
  lemma FreeStep(s: State, t: nat)
    requires Inv(s) && Free(s, t) && s.threads[t].phase != InBody
    ensures
      var s' := Step(s, NextInside(s.threads[t], t));
      var th, th' := s.threads[t], s'.threads[t];
      && s'.threads == s.threads[t := th'] && Free(s', t) && Inside(th') == Inside(th)
      && 0 <= StepsInside(th') < StepsInside(th)
  {
    assert ThreadOk(s, t);
  }

  lemma OneMore(start: State, moves: seq<Move>, m: Move)
    ensures Run(start, moves + [m]) == Step(Run(start, moves), m)
  {
    assert (moves + [m])[..|moves|] == moves;
  }

  /** A thread nobody stands in the way of can go on into its body while all others stand still. */
  lemma {:induction false} GoInside(start: State, moves: seq<Move>, t: nat) returns (more: seq<Move>)
    requires Inv(start) && Free(Run(start, moves), t)
    ensures Run(start, more).threads == Run(start, moves).threads[t := Inside(Run(start, moves).threads[t])]
    decreases StepsInside(Run(start, moves).threads[t])
  {
    EveryRunKeepsInv(start, moves);
    var s := Run(start, moves);
    assert ThreadOk(s, t);
    if s.threads[t].phase == InBody {
      more := moves;
    } else {
      var m := NextInside(s.threads[t], t);
      FreeStep(s, t);
      OneMore(start, moves, m);
      more := GoInside(start, moves + [m], t);
    }
  }

  lemma OnlyOneInside(locks: seq<seq<string>>, lanes: seq<seq<Lane>>, moves: seq<Move>, t: nat, u: nat)
    requires |locks| == |lanes| && t < |locks| && u < |locks| && t != u
    requires
      var start := Start(locks, lanes);
      Run(start, moves).threads == start.threads[t := Inside(start.threads[t])]
    requires Apart(locks[t], locks[u]) && Apart(lanes[t], lanes[u])
    ensures Free(Run(Start(locks, lanes), moves), u)
  {
    var s := Run(Start(locks, lanes), moves);
    ReachedInv(locks, lanes, moves);
    forall r | r in s.lockHolder ensures r in locks[t] {
      assert ThreadOk(s, s.lockHolder[r]);
    }
    forall l | l in s.laneHolder ensures l in lanes[t] {
      assert ThreadOk(s, s.laneHolder[l]);
    }
  }

  /** Two threads can be in their bodies together exactly if they share no record lock and no lane. */
  lemma BodiesMeetIff(locks: seq<seq<string>>, lanes: seq<seq<Lane>>, t: nat, u: nat)
    requires |locks| == |lanes| && t < |locks| && u < |locks| && t != u
    ensures (exists moves :: Together(locks, lanes, moves, t, u)) <==>
            Apart(locks[t], locks[u]) && Apart(lanes[t], lanes[u])
  {
    if exists moves :: Together(locks, lanes, moves, t, u) {
      var moves :| Together(locks, lanes, moves, t, u);
      BodiesExclude(locks, lanes, moves, t, u);
    }
    if Apart(locks[t], locks[u]) && Apart(lanes[t], lanes[u]) {
      StartInv(locks, lanes);
      var start := Start(locks, lanes);
      var first := GoInside(start, [], t);
      OnlyOneInside(locks, lanes, first, t, u);
      var both := GoInside(start, first, u);
      assert Together(locks, lanes, both, t, u);
    }
  }

  /**
   * One call guards a repository before it has a runtime record, in the lane of the Admin runtime; while its body runs
   * the repository is loaded, and another call takes the record lock and the lane of the loaded runtime. Both bodies
   * run on the same root.
   */
  lemma LoadingLetsTwoBodiesMeet(name: string, root: Root) returns (moves: seq<Move>)
    ensures Together([[], [name]], [[Lane("admin", root)], [Lane("loaded", root)]], moves, 0, 1)
  {
    var locks, lanes := [[], [name]], [[Lane("admin", root)], [Lane("loaded", root)]];
    BodiesMeetIff(locks, lanes, 0, 1);
    moves :| Together(locks, lanes, moves, 0, 1);
  }

  /** A thread that has left, by any exit, holds no lock and no lane. */
  lemma ExitReleasesAll(locks: seq<seq<string>>, lanes: seq<seq<Lane>>, moves: seq<Move>, t: nat)
    requires |locks| == |lanes|
    requires var s := Run(Start(locks, lanes), moves); t < |s.threads| && s.threads[t].phase == Done
    ensures
      var s := Run(Start(locks, lanes), moves);
      && (forall r :: r in s.lockHolder ==> s.lockHolder[r] != t)
      && (forall l :: l in s.laneHolder ==> s.laneHolder[l] != t)
  {
    ReachedInv(locks, lanes, moves);
    assert ThreadOk(Run(Start(locks, lanes), moves), t);
  }
}
