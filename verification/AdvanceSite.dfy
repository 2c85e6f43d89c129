/** One uninterrupted `advance` over the shared lock and receipt, statement by statement, as a run of the protocol. */
module AdvanceSite {
  import opened Ordering
  import opened Frontier
  import opened FrontierLaws
  import opened AdvanceProtocol

  /** A snapshot with the disposition to advance always has an action. */
  lemma AdvanceCarriesAction(d: Driver, r: Reading)
    requires Observe(d, r).disposition == Advance
    ensures Admits(Observe(d, r))
  {
  }

  /** The receipt says that the outcome of a POST is open: neither absent nor accepted. */
  predicate OutcomeOpen(receipt: Option<Receipt>) {
    receipt.Some? && !receipt.value.status.Accepted?
  }

  /** The reading is complete and the decider wants to advance. */
  predicate Admitted(d: Driver, r: Reading) {
    r.Complete? && Answer(d, r.snapshot).disposition == Disposition.Advance
  }

  /** Nothing that matters changed between the two readings. */
  predicate Agree(d: Driver, first: Reading, second: Reading) {
    && first.Complete? && second.Complete?
    && first.liveInstance == second.liveInstance
    && Answer(d, first.snapshot) == Answer(d, second.snapshot)
    && first.snapshot.lease == second.snapshot.lease
    && (d.execution ==> first.snapshot.coordinatorState == second.snapshot.coordinatorState)
  }

  lemma AgreeIff(d: Driver, first: Reading, second: Reading)
    requires Observe(d, first).disposition == Disposition.Advance
    ensures Admitted(d, first) && Admits(Observe(d, first))
    ensures SameFrontier(Observe(d, first), Observe(d, second)) <==> Agree(d, first, second)
  {
    AdvanceCarriesAction(d, first);
  }

  lemma AdmittedIff(d: Driver, r: Reading)
    ensures Observe(d, r).disposition == Disposition.Advance <==> Admitted(d, r)
  {
  }

  lemma Then(start: State, moves: seq<Move>, s: State, m: Move) returns (next: seq<Move>)
    requires s == Run(start, moves)
    ensures Next(s, m) == Run(start, next)
  {
    next := moves + [m];
    assert next[..|moves|] == moves;
  }

  lemma LockingRun(s: State, d: Driver) returns (t: State, moves: seq<Move>)
    requires s.holder == None && d !in s.stages
    ensures t == Run(s, moves) && t.holder == Some(d) && t.receipt == s.receipt
    ensures d in t.stages && t.stages[d].Locked? && Posts(t.log) == Posts(s.log)
  {
    moves := Then(s, [], s, TakeLock(d));
    t := Next(s, TakeLock(d));
    assert t.log == s.log + [Took(d)];
    Extend(s.log, Took(d));
  }

  lemma LookingRun(start: State, moves: seq<Move>, s: State, d: Driver, first: Reading)
    returns (t: State, next: seq<Move>)
    requires s == Run(start, moves) && d in s.stages && s.stages[d].Locked?
    ensures t == Run(start, next) && t.holder == s.holder && t.receipt == s.receipt
    ensures d in t.stages && Posts(t.log) == Posts(s.log)
    ensures t.stages[d].Seen? && t.stages[d].before == first
  {
    next := Then(start, moves, s, LookFirst(d, first));
    Extend(s.log, Looked(d, first));
    t := Next(s, LookFirst(d, first));
  }

  lemma IntentRun(start: State, moves: seq<Move>, s: State, d: Driver) returns (t: State, next: seq<Move>)
    requires s == Run(start, moves) && d in s.stages && s.stages[d].Confirmed?
    requires Admits(Observe(d, s.stages[d].before))
    ensures t == Run(start, next) && t.holder == s.holder && d in t.stages && t.stages[d].Recorded?
    ensures t.receipt == Some(t.stages[d].intent) && t.stages[d].intent == Intent(d, Observe(d, s.stages[d].before))
    ensures Posts(t.log) == Posts(s.log)
  {
    next := Then(start, moves, s, WriteIntent(d));
    t := Next(s, WriteIntent(d));
    Extend(s.log, Wrote(d, t.receipt.value));
  }

  lemma PostRun(start: State, moves: seq<Move>, s: State, d: Driver) returns (t: State, next: seq<Move>)
    requires s == Run(start, moves) && d in s.stages && s.stages[d].Recorded?
    ensures t == Run(start, next) && t.holder == s.holder && d in t.stages && t.stages[d].Sent?
    ensures t.receipt == s.receipt && t.stages[d].intent == s.stages[d].intent
    ensures Posts(t.log) == Posts(s.log) + [s.stages[d].intent.body]
  {
    next := Then(start, moves, s, SendPost(d));
    t := Next(s, SendPost(d));
    Extend(s.log, Posted(d, s.stages[d].intent.body));
  }

  /** The two durable steps of a POST: its intent, then the request. */
  lemma SendingRun(start: State, moves: seq<Move>, s: State, d: Driver) returns (t: State, next: seq<Move>)
    requires s == Run(start, moves) && d in s.stages && s.stages[d].Confirmed?
    requires Admits(Observe(d, s.stages[d].before))
    ensures t == Run(start, next) && t.holder == s.holder && d in t.stages && t.stages[d].Sent?
    ensures t.receipt == Some(t.stages[d].intent) && t.stages[d].intent == Intent(d, Observe(d, s.stages[d].before))
    ensures Posts(t.log) == Posts(s.log) + [t.stages[d].intent.body]
  {
    t, next := IntentRun(start, moves, s, d);
    t, next := PostRun(start, next, t, d);
  }

  lemma AnswerRun(start: State, moves: seq<Move>, s: State, d: Driver, result: string)
    returns (t: State, next: seq<Move>)
    requires s == Run(start, moves) && d in s.stages && s.stages[d].Sent?
    ensures t == Run(start, next) && t.holder == s.holder && d in t.stages && t.stages[d].Settling?
    ensures Posts(t.log) == Posts(s.log)
    ensures t.stages[d].final == s.stages[d].intent.(status := Accepted(result))
  {
    next := Then(start, moves, s, Reply(d, Some(result)));
    t := Next(s, Reply(d, Some(result)));
    Extend(s.log, Acknowledged(d));
  }

  lemma FailureRun(start: State, moves: seq<Move>, s: State, d: Driver) returns (t: State, next: seq<Move>)
    requires s == Run(start, moves) && d in s.stages && s.stages[d].Sent?
    ensures t == Run(start, next) && t.holder == s.holder && d in t.stages && t.stages[d].PostFailed?
    ensures t.log == s.log && t.stages[d].intent == s.stages[d].intent
  {
    next := Then(start, moves, s, Reply(d, None));
    t := Next(s, Reply(d, None));
  }

  lemma AftermathRun(start: State, moves: seq<Move>, s: State, d: Driver, later: Reading)
    returns (t: State, next: seq<Move>)
    requires s == Run(start, moves) && d in s.stages && s.stages[d].PostFailed?
    ensures t == Run(start, next) && t.holder == s.holder && d in t.stages && t.stages[d].Settling?
    ensures Posts(t.log) == Posts(s.log)
    ensures t.stages[d].final == s.stages[d].intent.(status := Uncertain(Observe(d, later)))
  {
    next := Then(start, moves, s, LookAfterFailure(d, later));
    t := Next(s, LookAfterFailure(d, later));
    Extend(s.log, Looked(d, later));
  }

  /** The answer, or the look around after a failure. */
  lemma ReplyRun(start: State, moves: seq<Move>, s: State, d: Driver, reply: Option<string>, later: Reading)
    returns (t: State, next: seq<Move>)
    requires s == Run(start, moves) && d in s.stages && s.stages[d].Sent?
    ensures t == Run(start, next) && t.holder == s.holder && d in t.stages && t.stages[d].Settling?
    ensures Posts(t.log) == Posts(s.log)
    ensures t.stages[d].final == s.stages[d].intent.(status :=
              if reply.Some? then Accepted(reply.value) else Uncertain(Observe(d, later)))
  {
    if reply.Some? {
      t, next := AnswerRun(start, moves, s, d, reply.value);
    } else {
      t, next := FailureRun(start, moves, s, d);
      t, next := AftermathRun(start, next, t, d, later);
    }
  }

  /** The recorded result. */
  lemma RecordingRun(start: State, moves: seq<Move>, s: State, d: Driver) returns (t: State, next: seq<Move>)
    requires s == Run(start, moves) && d in s.stages && s.stages[d].Settling?
    ensures t == Run(start, next) && t.holder == s.holder && d in t.stages && t.stages[d].Leaving?
    ensures t.receipt == Some(s.stages[d].final) && Posts(t.log) == Posts(s.log)
  {
    next := Then(start, moves, s, WriteResult(d));
    t := Next(s, WriteResult(d));
    Extend(s.log, Wrote(d, s.stages[d].final));
  }

  lemma CheckRun(start: State, moves: seq<Move>, s: State, d: Driver) returns (t: State, next: seq<Move>)
    requires s == Run(start, moves) && d in s.stages && s.stages[d].Seen?
    ensures t == Run(start, next) && t.holder == s.holder && t.receipt == s.receipt && t.log == s.log && d in t.stages
    ensures if Held(s.receipt) || !Admits(Observe(d, s.stages[d].before)) then t.stages[d].Leaving?
            else t.stages[d].Cleared? && t.stages[d].before == s.stages[d].before
  {
    next := Then(start, moves, s, CheckReceipt(d));
    t := Next(s, CheckReceipt(d));
  }

  lemma ConfirmRun(start: State, moves: seq<Move>, s: State, d: Driver, second: Reading)
    returns (t: State, next: seq<Move>)
    requires s == Run(start, moves) && d in s.stages && s.stages[d].Cleared?
    ensures t == Run(start, next) && t.holder == s.holder && t.receipt == s.receipt && d in t.stages
    ensures Posts(t.log) == Posts(s.log)
    ensures if SameFrontier(Observe(d, s.stages[d].before), Observe(d, second))
            then t.stages[d].Confirmed? && t.stages[d].before == s.stages[d].before
            else t.stages[d].Leaving?
  {
    next := Then(start, moves, s, LookSecond(d, second));
    t := Next(s, LookSecond(d, second));
    Extend(s.log, Looked(d, second));
  }

  lemma LeavingRun(start: State, moves: seq<Move>, s: State, d: Driver) returns (t: State, next: seq<Move>)
    requires s == Run(start, moves) && d in s.stages && s.stages[d].Leaving?
    ensures t == Run(start, next) && t.holder == None && t.receipt == s.receipt && Posts(t.log) == Posts(s.log)
  {
    next := Then(start, moves, s, Leave(d));
    t := Next(s, Leave(d));
    Extend(s.log, Released(d));
  }

  /** What one attempt ends with; Refused is the error of a lock that another process holds. */
  datatype Result = Refused | Finished(outcome: Outcome)

  class Site {
    var holder: Option<Driver>
    var receipt: Option<Receipt>
    ghost var state: State

    ghost predicate Valid()
      reads this
    {
      Inv(state) && holder == state.holder && receipt == state.receipt
    }

    constructor ()
      ensures Valid() && state == INITIAL
    {
      holder, receipt := None, None;
      state := INITIAL;
    }

    /**
     * `advance` when nothing interrupts it. `first`, `second` and `later` are what its three possible snapshots read,
     * `reply` is the POST's answer, None when the request raises.
     */
    method Advance(d: Driver, first: Reading, second: Reading, reply: Option<string>, later: Reading)
      returns (result: Result, ghost moves: seq<Move>)
      requires Valid() && d !in state.stages
      modifies this
      ensures Valid() && state == Run(old(state), moves)
      ensures result == Refused <==> old(holder).Some?
      ensures result == Refused ==> receipt == old(receipt) && state == old(state)
      ensures result.Finished? ==> holder == None
      ensures result == Finished(HeldUncertain) <==> old(holder) == None && OutcomeOpen(old(receipt))
      ensures result == Finished(NotAdmitted) <==>
                old(holder) == None && !OutcomeOpen(old(receipt)) && !Admitted(d, first)
      ensures result == Finished(FrontierChanged) <==>
                old(holder) == None && !OutcomeOpen(old(receipt)) && Admitted(d, first) && !Agree(d, first, second)
      ensures result == Finished(AcceptedOutcome) <==>
                && old(holder) == None && !OutcomeOpen(old(receipt)) && Admitted(d, first) && Agree(d, first, second)
                && reply.Some?
      ensures result == Finished(AcceptedOutcome) || result == Finished(UncertainOutcome) ==>
                && Admitted(d, first) && Answer(d, first.snapshot).action.Some?
                && var body := Answer(d, first.snapshot).action.value;
                && Posts(state.log) == Posts(old(state).log) + [body]
                && receipt == Some(Receipt(
                     if reply.Some? then Accepted(reply.value) else Uncertain(Observe(d, later)),
                     Some(first.liveInstance), body, d.reviewed))
      ensures result != Finished(AcceptedOutcome) && result != Finished(UncertainOutcome) ==>
                receipt == old(receipt) && Posts(state.log) == Posts(old(state).log)
    {
      if holder.Some? {
        return Refused, [];
      }
      holder := Some(d);
      var before := Observe(d, first);
      ghost var t;
      t, moves := LockingRun(state, d);
      t, moves := LookingRun(state, moves, t, d, first);
      var outcome;
      AdmittedIff(d, first);
      if before.disposition == Disposition.Advance {
        AgreeIff(d, first, second);
      }
      t, moves := CheckRun(state, moves, t, d);
      if Held(receipt) {
        outcome := HeldUncertain;
      } else if before.disposition != Disposition.Advance {
        outcome := NotAdmitted;
      } else {
        var current := Observe(d, second);
        t, moves := ConfirmRun(state, moves, t, d, second);
        if !SameFrontier(before, current) {
          outcome := FrontierChanged;
        } else {
          var intent := Intent(d, before);
          receipt := Some(intent);
          t, moves := SendingRun(state, moves, t, d);
          if reply.None? {
            intent := intent.(status := Uncertain(Observe(d, later)));
            outcome := UncertainOutcome;
          } else {
            intent := intent.(status := Accepted(reply.value));
            outcome := AcceptedOutcome;
          }
          t, moves := ReplyRun(state, moves, t, d, reply, later);
          receipt := Some(intent);
          t, moves := RecordingRun(state, moves, t, d);
        }
      }
      t, moves := LeavingRun(state, moves, t, d);
      holder := None;
      EveryRunKeepsInv(state, moves);
      state := t;
      result := Finished(outcome);
    }
  }
}
