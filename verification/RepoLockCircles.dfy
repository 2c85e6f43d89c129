/** Exactly when threads in the guard of `_run_repo_admin_mutation` can come to wait for each other in a circle. */
module RepoLockCircles {
  import opened Ordering
  import opened RepoRoots
  import opened RepoLocks
  import opened RepoLockLaws

  function Awaited(s: State, t: nat): string
    requires Blocked(s, t)
  {
    s.threads[t].locks[s.threads[t].locked]
  }

  predicate WaitsFor(s: State, t: nat, u: nat) {
    Blocked(s, t) && s.lockHolder[Awaited(s, t)] == u
  }

  function After(i: nat, n: nat): nat { if i + 1 < n then i + 1 else 0 }

  ghost predicate CircularWait(s: State, ring: seq<nat>) {
    && ring != []
    && forall i :: 0 <= i < |ring| ==> WaitsFor(s, ring[i], ring[After(i, |ring|)])
  }

  /** A circle can be cut down until no thread occurs in it twice. */
  lemma {:induction false} SimpleRing(s: State, ring: seq<nat>) returns (simple: seq<nat>)
    requires CircularWait(s, ring)
    ensures CircularWait(s, simple) && Distinct(simple)
    decreases |ring|
  {
    if Distinct(ring) {
      simple := ring;
    } else {
      var i, j :| 0 <= i < j < |ring| && ring[i] == ring[j];
      var part := ring[i..j];
      forall k | 0 <= k < |part| ensures WaitsFor(s, part[k], part[After(k, |part|)]) {
        assert WaitsFor(s, ring[i + k], ring[After(i + k, |ring|)]);
      }
      simple := SimpleRing(s, part);
    }
  }

  /**
   * Threads of the ring can each have entered so many locks that the entered ones are all different and each of them
   * next wants one that the following thread has.
   */
  ghost predicate Tangle(locks: seq<seq<string>>, ring: seq<nat>, at: seq<nat>) {
    && |ring| == |at| >= 2 && Distinct(ring)
    && (forall i :: 0 <= i < |ring| ==> ring[i] < |locks| && at[i] < |locks[ring[i]]|)
    && (forall i, j :: 0 <= i < j < |ring| ==> Apart(locks[ring[i]][..at[i]], locks[ring[j]][..at[j]]))
    && (forall i :: 0 <= i < |ring| ==> WantsNext(locks, ring, at, i))
  }

  ghost predicate WantsNext(locks: seq<seq<string>>, ring: seq<nat>, at: seq<nat>, i: nat)
    requires |ring| == |at| && i < |ring|
    requires forall k :: 0 <= k < |ring| ==> ring[k] < |locks| && at[k] < |locks[ring[k]]|
  {
    var j := After(i, |ring|);
    locks[ring[i]][at[i]] in locks[ring[j]][..at[j]]
  }

  /** The locks a thread has entered. */
  function Entered(s: State, t: nat): seq<string> {
    if t < |s.threads| && s.threads[t].locked <= |s.threads[t].locks| then s.threads[t].locks[..s.threads[t].locked]
    else []
  }

  /** What a thread waits for, the thread it waits for has entered. */
  lemma WaitingHolds(s: State, t: nat, u: nat)
    requires Inv(s) && WaitsFor(s, t, u)
    ensures u < |s.threads| && u != t && Awaited(s, t) in Entered(s, u)
  {
    assert ThreadOk(s, u);
  }

  lemma HeldApart(s: State, t: nat, u: nat)
    requires Inv(s) && t < |s.threads| && u < |s.threads| && t != u
    ensures Apart(Entered(s, t), Entered(s, u))
  {
    assert ThreadOk(s, t) && ThreadOk(s, u);
  }

  function Progress(s: State, ring: seq<nat>): seq<nat>
    requires forall i :: 0 <= i < |ring| ==> ring[i] < |s.threads|
  {
    seq(|ring|, i requires 0 <= i < |ring| => s.threads[ring[i]].locked)
  }

  lemma WaitingWants(s: State, t: nat, u: nat)
    requires Inv(s) && WaitsFor(s, t, u)
    ensures t < |s.threads| && u < |s.threads| && t != u
    ensures s.threads[t].locked < |s.threads[t].locks| && s.threads[u].locked <= |s.threads[u].locks|
    ensures s.threads[t].locks[s.threads[t].locked] in s.threads[u].locks[..s.threads[u].locked]
  {
    WaitingHolds(s, t, u);
    assert ThreadOk(s, u);
  }

  /** A circle without repetition shows a tangle of what its threads have entered. */
  lemma RingIsTangle(locks: seq<seq<string>>, s: State, ring: seq<nat>) returns (at: seq<nat>)
    requires Inv(s) && CircularWait(s, ring) && Distinct(ring)
    requires |s.threads| == |locks| && forall t :: 0 <= t < |locks| ==> s.threads[t].locks == locks[t]
    ensures Tangle(locks, ring, at)
  {
    var n := |ring|;
    forall i | 0 <= i < n
      ensures ring[i] < |locks| && s.threads[ring[i]].locked < |locks[ring[i]]| && ring[i] != ring[After(i, n)]
    {
      assert WaitsFor(s, ring[i], ring[After(i, n)]);
      WaitingWants(s, ring[i], ring[After(i, n)]);
    }
    assert ring[0] != ring[After(0, n)];
    at := Progress(s, ring);
    forall i, j | 0 <= i < j < n ensures Apart(locks[ring[i]][..at[i]], locks[ring[j]][..at[j]]) {
      HeldApart(s, ring[i], ring[j]);
    }
    forall i | 0 <= i < n ensures WantsNext(locks, ring, at, i) {
      assert WaitsFor(s, ring[i], ring[After(i, n)]);
      WaitingWants(s, ring[i], ring[After(i, n)]);
    }
  }

  lemma CircleIsTangle(locks: seq<seq<string>>, lanes: seq<seq<Lane>>, moves: seq<Move>, ring: seq<nat>)
    returns (simple: seq<nat>, at: seq<nat>)
    requires |locks| == |lanes| && CircularWait(Run(Start(locks, lanes), moves), ring)
    ensures Tangle(locks, simple, at)
  {
    ReachedInv(locks, lanes, moves);
    simple := SimpleRing(Run(Start(locks, lanes), moves), ring);
    at := RingIsTangle(locks, Run(Start(locks, lanes), moves), simple);
  }

  /** A thread can enter its first p locks while all others stand still, if nobody else holds any of them. */
  lemma {:induction false} AcquireUpTo(start: State, moves: seq<Move>, t: nat, p: nat) returns (more: seq<Move>)
    requires Inv(start)
    requires
      var s := Run(start, moves);
      && t < |s.threads| && s.threads[t].phase == Acquiring && s.threads[t].locked <= p <= |s.threads[t].locks|
      && forall i :: 0 <= i < p ==> !HeldByOther(s.lockHolder, s.threads[t].locks[i], t)
    ensures Run(start, more).threads == Run(start, moves).threads[t := Run(start, moves).threads[t].(locked := p)]
    decreases p - Run(start, moves).threads[t].locked
  {
    var s := Run(start, moves);
    if s.threads[t].locked == p {
      more := moves;
    } else {
      OneMore(start, moves, AcquireLock(t));
      more := AcquireUpTo(start, moves + [AcquireLock(t)], t, p);
    }
  }

  /** The first n threads of the ring have entered their locks, and nobody else any. */
  ghost predicate EnteredFirst(locks: seq<seq<string>>, s: State, ring: seq<nat>, at: seq<nat>, n: nat) {
    && |s.threads| == |locks| && |ring| == |at| && n <= |ring|
    && (forall t :: 0 <= t < |locks| ==> s.threads[t].phase == Acquiring && s.threads[t].locks == locks[t])
    && (forall i :: 0 <= i < |ring| ==> ring[i] < |locks| && s.threads[ring[i]].locked == if i < n then at[i] else 0)
    && (forall t :: 0 <= t < |locks| && t !in ring ==> s.threads[t].locked == 0)
  }

  lemma NobodyElseHolds(locks: seq<seq<string>>, s: State, ring: seq<nat>, at: seq<nat>, n: nat, k: nat)
    requires Inv(s) && Tangle(locks, ring, at) && EnteredFirst(locks, s, ring, at, n) && n < |ring| && k < at[n]
    ensures !HeldByOther(s.lockHolder, locks[ring[n]][k], ring[n])
  {
    var r := locks[ring[n]][k];
    assert r in locks[ring[n]][..at[n]];
    forall u | 0 <= u < |s.threads| && u != ring[n] ensures r !in Entered(s, u) {
      if u in ring {
        var i :| 0 <= i < |ring| && ring[i] == u;
        assert i < n ==> Entered(s, u) == locks[ring[i]][..at[i]];
      }
    }
    assert r in s.lockHolder ==> ThreadOk(s, s.lockHolder[r]);
  }

  lemma EnterOneMore(locks: seq<seq<string>>, start: State, moves: seq<Move>, ring: seq<nat>, at: seq<nat>, n: nat)
    returns (more: seq<Move>)
    requires Inv(start) && Inv(Run(start, moves)) && Tangle(locks, ring, at) && n < |ring|
    requires EnteredFirst(locks, Run(start, moves), ring, at, n)
    ensures EnteredFirst(locks, Run(start, more), ring, at, n + 1)
  {
    var s := Run(start, moves);
    var t := ring[n];
    var wanted := s.threads[t].locks;
    forall k | 0 <= k < |wanted| && k < at[n] ensures !HeldByOther(s.lockHolder, wanted[k], t) {
      NobodyElseHolds(locks, s, ring, at, n, k);
    }
    more := AcquireUpTo(start, moves, t, at[n]);
    EnteredOneMore(locks, s, Run(start, more), ring, at, n);
  }

  lemma EnteredOneMore(locks: seq<seq<string>>, s: State, s': State, ring: seq<nat>, at: seq<nat>, n: nat)
    requires Tangle(locks, ring, at) && n < |ring| && EnteredFirst(locks, s, ring, at, n)
    requires s'.threads == s.threads[ring[n] := s.threads[ring[n]].(locked := at[n])]
    ensures EnteredFirst(locks, s', ring, at, n + 1)
  {
    assert forall i :: 0 <= i < |ring| && i != n ==> ring[i] != ring[n];
  }

  lemma {:induction false} EnterRing(locks: seq<seq<string>>, lanes: seq<seq<Lane>>, ring: seq<nat>, at: seq<nat>,
                                     n: nat)
    returns (moves: seq<Move>)
    requires |locks| == |lanes| && Tangle(locks, ring, at) && n <= |ring|
    ensures EnteredFirst(locks, Run(Start(locks, lanes), moves), ring, at, n)
  {
    if n == 0 {
      moves := [];
    } else {
      var before := EnterRing(locks, lanes, ring, at, n - 1);
      ReachedInv(locks, lanes, before);
      StartInv(locks, lanes);
      moves := EnterOneMore(locks, Start(locks, lanes), before, ring, at, n - 1);
    }
  }

  lemma TangleIsCircle(locks: seq<seq<string>>, lanes: seq<seq<Lane>>, ring: seq<nat>, at: seq<nat>)
    returns (moves: seq<Move>)
    requires |locks| == |lanes| && Tangle(locks, ring, at)
    ensures CircularWait(Run(Start(locks, lanes), moves), ring)
  {
    moves := EnterRing(locks, lanes, ring, at, |ring|);
    ReachedInv(locks, lanes, moves);
    var s := Run(Start(locks, lanes), moves);
    forall i | 0 <= i < |ring| ensures WaitsFor(s, ring[i], ring[After(i, |ring|)]) {
      var j := After(i, |ring|);
      assert WantsNext(locks, ring, at, i);
      assert ThreadOk(s, ring[j]) && ring[i] != ring[j];
    }
  }

  ghost predicate CanCircle(locks: seq<seq<string>>, lanes: seq<seq<Lane>>)
    requires |locks| == |lanes|
  {
    exists moves, ring :: CircularWait(Run(Start(locks, lanes), moves), ring)
  }

  ghost predicate Tangled(locks: seq<seq<string>>) {
    exists ring, at :: Tangle(locks, ring, at)
  }

  /** Threads can come to wait in a circle exactly if their lists of locks are tangled. */
  lemma CircularWaitIff(locks: seq<seq<string>>, lanes: seq<seq<Lane>>)
    requires |locks| == |lanes|
    ensures CanCircle(locks, lanes) <==> Tangled(locks)
  {
    if CanCircle(locks, lanes) {
      var moves, ring :| CircularWait(Run(Start(locks, lanes), moves), ring);
      var simple, at := CircleIsTangle(locks, lanes, moves, ring);
    }
    if Tangled(locks) {
      var ring, at :| Tangle(locks, ring, at);
      var moves := TangleIsCircle(locks, lanes, ring, at);
    }
  }

  // ----- when names keep the order of the roots -----

  lemma {:induction false} WantsClimb(locks: seq<seq<string>>, ring: seq<nat>, at: seq<nat>, i: nat)
    requires Tangle(locks, ring, at) && 0 < i < |ring|
    requires forall t :: 0 <= t < |locks| ==> Ascending(locks[t])
    ensures StringLt(locks[ring[0]][at[0]], locks[ring[i]][at[i]])
  {
    WantClimbs(locks, ring, at, i - 1);
    if i > 1 {
      WantsClimb(locks, ring, at, i - 1);
      StringLtTransitive(locks[ring[0]][at[0]], locks[ring[i - 1]][at[i - 1]], locks[ring[i]][at[i]]);
    }
  }

  lemma WantClimbs(locks: seq<seq<string>>, ring: seq<nat>, at: seq<nat>, i: nat)
    requires Tangle(locks, ring, at) && i < |ring|
    requires forall t :: 0 <= t < |locks| ==> Ascending(locks[t])
    ensures
      var j := After(i, |ring|);
      StringLt(locks[ring[i]][at[i]], locks[ring[j]][at[j]])
  {
    assert WantsNext(locks, ring, at, i);
    var j := After(i, |ring|);
    var k :| 0 <= k < at[j] && locks[ring[j]][k] == locks[ring[i]][at[i]];
  }

  /** Lists in ascending order are never tangled. */
  lemma AscendingIsUntangled(locks: seq<seq<string>>)
    requires forall t :: 0 <= t < |locks| ==> Ascending(locks[t])
    ensures !Tangled(locks)
  {
    if Tangled(locks) {
      var ring, at :| Tangle(locks, ring, at);
      var last := |ring| - 1;
      WantsClimb(locks, ring, at, last);
      WantClimbs(locks, ring, at, last);
      StringLeAntisymmetric(locks[ring[0]][at[0]], locks[ring[last]][at[last]]);
    }
  }

  function LockLists(registry: Option<string>, calls: seq<Call>): seq<seq<string>> {
    seq(|calls|, i requires 0 <= i < |calls| => LockList(registry, calls[i]))
  }

  /**
   * If no root has a name with surrounding white space, no circular wait is ever reached, whatever the threads guard
   * and however they interleave.
   */
  lemma NoCircularWait(registry: Option<string>, calls: seq<Call>, lanes: seq<seq<Lane>>, moves: seq<Move>,
                       ring: seq<nat>)
    requires |calls| == |lanes|
    requires forall i :: 0 <= i < |calls| ==> Ascending(calls[i].roots) && PlainNames(registry, calls[i])
    ensures !CircularWait(Run(Start(LockLists(registry, calls), lanes), moves), ring)
  {
    PlainIsUntangled(registry, calls);
    CircularWaitIff(LockLists(registry, calls), lanes);
  }

  lemma PlainIsUntangled(registry: Option<string>, calls: seq<Call>)
    requires forall i :: 0 <= i < |calls| ==> Ascending(calls[i].roots) && PlainNames(registry, calls[i])
    ensures !Tangled(LockLists(registry, calls))
  {
    forall i | 0 <= i < |calls| ensures Ascending(LockLists(registry, calls)[i]) {
      PlainLocksAscend(registry, calls[i]);
    }
    AscendingIsUntangled(LockLists(registry, calls));
  }
}
