/**
 * `Client.advance` of `scripts/batch_preparation.py` as a step system: any number of drivers share one identity,
 * one lock file and one durable receipt, and may crash between any two steps.
 */
module AdvanceProtocol {
  import opened Ordering
  import opened Frontier
  import opened FrontierLaws

  /** One process running `advance`, with the phase it was started in. */
  datatype Driver = Driver(id: nat, execution: bool, reviewed: Option<string>)

  /** What the requests of one `snapshot()` call returned. */
  datatype Reading =
    | Broken(instance: Option<string>, lease: Option<Lease>, coordinatorState: Option<CoordinatorState>)
    | Dormant(dormantInstance: string)
    | Complete(liveInstance: string, snapshot: Snapshot)

  datatype Observation = Observation(
    instance: Option<string>, disposition: Disposition, action: Option<Action>,
    coordinatorState: Option<CoordinatorState>, lease: Option<Lease>)

  function Answer(d: Driver, s: Snapshot): Verdict {
    if d.execution then DecideExecution(s, d.reviewed) else Decide(s)
  }

  /** The dict `snapshot()` returns: the decider's answer, or a hold when anything could not be read. */
  function Observe(d: Driver, r: Reading): Observation {
    match r
    case Broken(i, l, c) => Observation(i, Unavailable, None, c, l)
    case Dormant(i) => Observation(Some(i), NotLoaded, None, None, None)
    case Complete(i, s) =>
      Observation(Some(i), Answer(d, s).disposition, Answer(d, s).action,
                  if d.execution then s.coordinatorState else None, s.lease)
  }

  datatype ReceiptStatus = Posting | Uncertain(observed: Observation) | Accepted(result: string)

  datatype Receipt = Receipt(status: ReceiptStatus, instance: Option<string>, body: Action, reviewed: Option<string>)

  predicate Held(r: Option<Receipt>) {
    r.Some? && (r.value.status.Posting? || r.value.status.Uncertain?)
  }

  predicate Admits(o: Observation) {
    o.disposition == Advance && o.action.Some?
  }

  /** The second snapshot still shows the frontier the first one admitted. */
  predicate SameFrontier(before: Observation, current: Observation) {
    && current.instance == before.instance && current.action == before.action && current.disposition == Advance
    && current.coordinatorState == before.coordinatorState && current.lease == before.lease
  }

  function Intent(d: Driver, before: Observation): Receipt
    requires Admits(before)
  {
    Receipt(Posting, before.instance, before.action.value, d.reviewed)
  }

  datatype Outcome = HeldUncertain | NotAdmitted | FrontierChanged | UncertainOutcome | AcceptedOutcome

  /** What happened so far at this identity; reads and writes are recorded with the driver that made them. */
  datatype Event =
    | Took(d: Driver)
    | Looked(d: Driver, reading: Reading)
    | Wrote(d: Driver, receipt: Receipt)
    | Posted(d: Driver, body: Action)
    | Acknowledged(d: Driver)
    | Released(d: Driver)

  /** Where a driver is inside `with locked(...)`; the numbers are positions in the event log. */
  datatype Stage =
    | Locked(took: nat)
    | Seen(took: nat, first: nat, before: Reading)
    | Cleared(took: nat, first: nat, before: Reading)
    | Confirmed(took: nat, first: nat, before: Reading, second: nat, current: Reading)
    | Recorded(took: nat, first: nat, before: Reading, second: nat, current: Reading, written: nat, intent: Receipt)
    | Sent(took: nat, intent: Receipt)
    | PostFailed(took: nat, intent: Receipt)
    | Settling(took: nat, final: Receipt)
    | Leaving(took: nat, outcome: Outcome)

  datatype State = State(holder: Option<Driver>, receipt: Option<Receipt>, stages: map<Driver, Stage>, log: seq<Event>)

  const INITIAL := State(None, None, map[], [])

  datatype Move =
    | TakeLock(d: Driver)
    | LookFirst(d: Driver, reading: Reading)
    | CheckReceipt(d: Driver)
    | LookSecond(d: Driver, reading: Reading)
    | WriteIntent(d: Driver)
    | SendPost(d: Driver)
    | Reply(d: Driver, result: Option<string>)
    | LookAfterFailure(d: Driver, reading: Reading)
    | WriteResult(d: Driver)
    | Leave(d: Driver)
    | Crash(d: Driver)

  predicate At(s: State, d: Driver) {
    d in s.stages
  }

  function Log(s: State, e: Event): State {
    s.(log := s.log + [e])
  }

  function Goto(s: State, d: Driver, stage: Stage): State {
    s.(stages := s.stages[d := stage])
  }

  /** Leaving `with locked(...)`, normally, by an exception or because the process died, frees the lock. */
  function Exit(s: State, d: Driver): State {
    Log(s.(holder := None, stages := s.stages - {d}), Released(d))
  }

  /** One atomic step; a move that is not the driver's next one changes nothing. */
  function Next(s: State, m: Move): State {
    match m
    case TakeLock(d) =>
      if At(s, d) || s.holder.Some? then s  // LOCK_NB raises
      else Goto(Log(s, Took(d)), d, Locked(|s.log|)).(holder := Some(d))
    case LookFirst(d, r) =>
      if At(s, d) && s.stages[d].Locked? then Goto(Log(s, Looked(d, r)), d, Seen(s.stages[d].took, |s.log|, r)) else s
    case CheckReceipt(d) =>
      if At(s, d) && s.stages[d].Seen? then
        var p := s.stages[d];
        if Held(s.receipt) then Goto(s, d, Leaving(p.took, HeldUncertain))
        else if !Admits(Observe(d, p.before)) then Goto(s, d, Leaving(p.took, NotAdmitted))
        else Goto(s, d, Cleared(p.took, p.first, p.before))
      else s
    case LookSecond(d, r) =>
      if At(s, d) && s.stages[d].Cleared? then
        var p := s.stages[d];
        var t := Log(s, Looked(d, r));
        if !SameFrontier(Observe(d, p.before), Observe(d, r)) then Goto(t, d, Leaving(p.took, FrontierChanged))
        else Goto(t, d, Confirmed(p.took, p.first, p.before, |s.log|, r))
      else s
    case WriteIntent(d) =>
      if At(s, d) && s.stages[d].Confirmed? && Admits(Observe(d, s.stages[d].before)) then
        var p := s.stages[d];
        var intent := Intent(d, Observe(d, p.before));
        Goto(Log(s, Wrote(d, intent)), d, Recorded(p.took, p.first, p.before, p.second, p.current, |s.log|, intent))
          .(receipt := Some(intent))
      else s
    case SendPost(d) =>
      if At(s, d) && s.stages[d].Recorded? then
        var p := s.stages[d];
        Goto(Log(s, Posted(d, p.intent.body)), d, Sent(p.took, p.intent))
      else s
    case Reply(d, result) =>
      if At(s, d) && s.stages[d].Sent? then
        var p := s.stages[d];
        if result.None? then Goto(s, d, PostFailed(p.took, p.intent))
        else Goto(Log(s, Acknowledged(d)), d, Settling(p.took, p.intent.(status := Accepted(result.value))))
      else s
    case LookAfterFailure(d, r) =>
      if At(s, d) && s.stages[d].PostFailed? then
        var p := s.stages[d];
        Goto(Log(s, Looked(d, r)), d, Settling(p.took, p.intent.(status := Uncertain(Observe(d, r)))))
      else s
    case WriteResult(d) =>
      if At(s, d) && s.stages[d].Settling? then
        var p := s.stages[d];
        var outcome := if p.final.status.Accepted? then AcceptedOutcome else UncertainOutcome;
        Goto(Log(s, Wrote(d, p.final)), d, Leaving(p.took, outcome))
          .(receipt := Some(p.final))
      else s
    case Leave(d) =>
      if At(s, d) && s.stages[d].Leaving? then Exit(s, d) else s
    case Crash(d) =>
      if At(s, d) then Exit(s, d) else s
  }

  function Run(s: State, moves: seq<Move>): State {
    if moves == [] then s else Next(Run(s, moves[..|moves| - 1]), moves[|moves| - 1])
  }

  /**
   * A driver takes its steps one after another as `advance` writes them, and nobody else's: what a move that changes
   * anything found and what it leaves; only leaving and crashing free the lock.
   */
  lemma StepsInOrder(s: State, m: Move)
    requires Next(s, m) != s
    ensures m.TakeLock? ==> m.d !in s.stages && s.holder == None && Next(s, m).holder == Some(m.d)
    ensures !m.TakeLock? ==> m.d in s.stages && (Next(s, m).holder == if m.Leave? || m.Crash? then None else s.holder)
    ensures forall e :: e != m.d ==> (e in Next(s, m).stages <==> e in s.stages)
    ensures forall e :: e != m.d && e in s.stages ==> Next(s, m).stages[e] == s.stages[e]
    ensures m.Leave? || m.Crash? <==> m.d !in Next(s, m).stages
    ensures m.d in Next(s, m).stages ==>
      var after := Next(s, m).stages[m.d];
      match m
      case TakeLock(d) => after.Locked?
      case LookFirst(d, r) => s.stages[d].Locked? && after.Seen? && after.before == r
      case CheckReceipt(d) =>
        && s.stages[d].Seen?
        && if s.receipt.Some? && !s.receipt.value.status.Accepted? then after.Leaving? && after.outcome == HeldUncertain
           else if after.Leaving? then after.outcome == NotAdmitted
           else after.Cleared?
      case LookSecond(d, r) =>
        s.stages[d].Cleared? && if after.Leaving? then after.outcome == FrontierChanged else after.Confirmed?
      case WriteIntent(d) => s.stages[d].Confirmed? && after.Recorded?
      case SendPost(d) => s.stages[d].Recorded? && after.Sent?
      case Reply(d, result) => s.stages[d].Sent? && (if result.Some? then after.Settling? else after.PostFailed?)
      case LookAfterFailure(d, r) => s.stages[d].PostFailed? && after.Settling?
      case WriteResult(d) =>
        && s.stages[d].Settling? && after.Leaving?
        && after.outcome == if s.stages[d].final.status.Accepted? then AcceptedOutcome else UncertainOutcome
      case _ => true
    ensures m.Leave? ==> s.stages[m.d].Leaving?
  {
  }

  /** An incomplete reading is `unavailable`, one of a repository that is not loaded `not_loaded`, and no other is. */
  lemma ReadingsTold(d: Driver, r: Reading)
    ensures Observe(d, r).disposition == Unavailable <==> r.Broken?
    ensures Observe(d, r).disposition == NotLoaded <==> r.Dormant?
    ensures !r.Complete? ==> Observe(d, r).action == None
  {
  }

  // ----- what the event log says -----

  /** The receipt that survives on disk. */
  function LastWritten(log: seq<Event>): Option<Receipt> {
    if log == [] then None
    else
      var e := log[|log| - 1];
      if e.Wrote? then Some(e.receipt) else LastWritten(log[..|log| - 1])
  }

  /** The last POST, if no acknowledgement of it has been received. */
  function Unacknowledged(log: seq<Event>): Option<Action> {
    if log == [] then None
    else
      var e := log[|log| - 1];
      if e.Posted? then Some(e.body) else if e.Acknowledged? then None else Unacknowledged(log[..|log| - 1])
  }

  function Posts(log: seq<Event>): seq<Action> {
    if log == [] then []
    else
      var e := log[|log| - 1];
      Posts(log[..|log| - 1]) + if e.Posted? then [e.body] else []
  }

  /** Positions of the four events that justify one POST. */
  datatype Witness = Witness(took: nat, first: nat, second: nat, written: nat)

  /** The lock does not change hands between two positions. */
  ghost predicate NoHandover(log: seq<Event>, from: nat, to: nat)
    requires to <= |log|
  {
    forall m :: from < m < to ==> !log[m].Took? && !log[m].Released?
  }

  ghost predicate LookedTwice(log: seq<Event>, d: Driver, body: Action, w: Witness) {
    && w.took < w.first < w.second < |log|
    && log[w.took] == Took(d)
    && log[w.first].Looked? && log[w.first].d == d
    && log[w.second].Looked? && log[w.second].d == d
    && Admits(Observe(d, log[w.first].reading)) && Observe(d, log[w.first].reading).action == Some(body)
    && SameFrontier(Observe(d, log[w.first].reading), Observe(d, log[w.second].reading))
  }

  ghost predicate Justified(log: seq<Event>, k: nat, w: Witness)
    requires k < |log| && log[k].Posted?
  {
    && w.second < w.written < k
    && LookedTwice(log, log[k].d, log[k].body, w)
    && NoHandover(log, w.took, k)
    && log[w.written].Wrote? && log[w.written].d == log[k].d
    && log[w.written].receipt ==
       Receipt(Posting, Observe(log[k].d, log[w.first].reading).instance, log[k].body, log[k].d.reviewed)
    && LastWritten(log[..k]) == Some(log[w.written].receipt)
  }

  ghost predicate PostsJustified(log: seq<Event>) {
    forall k :: 0 <= k < |log| && log[k].Posted? ==> exists w :: Justified(log, k, w)
  }

  /** No POST is issued while an earlier one is unacknowledged. */
  ghost predicate OneAtATime(log: seq<Event>) {
    forall k :: 0 <= k < |log| && log[k].Posted? ==> Unacknowledged(log[..k]) == None
  }

  ghost predicate StageOk(s: State, d: Driver, p: Stage) {
    && p.took < |s.log| && s.log[p.took] == Took(d) && NoHandover(s.log, p.took, |s.log|)
    && match p
       case Locked(_) => true
       case Seen(took, first, before) =>
         took < first < |s.log| && s.log[first] == Looked(d, before)
       case Cleared(took, first, before) =>
         && took < first < |s.log| && s.log[first] == Looked(d, before) && Admits(Observe(d, before))
         && !Held(s.receipt)
       case Confirmed(took, first, before, second, current) =>
         && LookedBoth(s, d, took, first, before, second, current) && !Held(s.receipt)
       case Recorded(took, first, before, second, current, written, intent) =>
         && LookedBoth(s, d, took, first, before, second, current)
         && second < written < |s.log| && s.log[written] == Wrote(d, intent)
         && intent == Intent(d, Observe(d, before))
         && s.receipt == Some(intent) && Unacknowledged(s.log) == None
       case Sent(_, intent) =>
         intent.status.Posting? && s.receipt == Some(intent) && Unacknowledged(s.log) == Some(intent.body)
       case PostFailed(_, intent) =>
         intent.status.Posting? && s.receipt == Some(intent) && Unacknowledged(s.log) == Some(intent.body)
       case Settling(_, final) =>
         && s.receipt == Some(final.(status := Posting)) && !final.status.Posting?
         && Unacknowledged(s.log) == if final.status.Accepted? then None else Some(final.body)
       case Leaving(_, _) => true
  }

  ghost predicate LookedBoth(s: State, d: Driver, took: nat, first: nat, before: Reading, second: nat,
                             current: Reading) {
    && took < first < second < |s.log|
    && s.log[first] == Looked(d, before) && s.log[second] == Looked(d, current)
    && Admits(Observe(d, before)) && SameFrontier(Observe(d, before), Observe(d, current))
  }

  /** The receipt on disk and the history agree. */
  ghost predicate LedgerOk(s: State) {
    && s.receipt == LastWritten(s.log)
    && PostsJustified(s.log)
    && OneAtATime(s.log)
    && (Unacknowledged(s.log).Some? ==> Held(s.receipt) && s.receipt.value.body == Unacknowledged(s.log).value)
  }

  ghost predicate Inv(s: State) {
    && (forall d :: d in s.stages ==> s.holder == Some(d) && StageOk(s, d, s.stages[d]))
    && (s.holder.Some? ==> s.holder.value in s.stages)
    && LedgerOk(s)
  }

  // ----- every step keeps the invariant -----

  lemma Extend(log: seq<Event>, e: Event)
    ensures (log + [e])[..|log|] == log
    ensures LastWritten(log + [e]) == if e.Wrote? then Some(e.receipt) else LastWritten(log)
    ensures Unacknowledged(log + [e]) ==
      if e.Posted? then Some(e.body) else if e.Acknowledged? then None else Unacknowledged(log)
    ensures Posts(log + [e]) == Posts(log) + if e.Posted? then [e.body] else []
  {
  }

  lemma JustifiedExtends(log: seq<Event>, e: Event)
    requires PostsJustified(log) && OneAtATime(log)
    requires e.Posted? ==> Unacknowledged(log) == None && exists w :: Justified(log + [e], |log|, w)
    ensures PostsJustified(log + [e]) && OneAtATime(log + [e])
  {
    var log' := log + [e];
    forall k | 0 <= k < |log'| && log'[k].Posted?
      ensures (exists w :: Justified(log', k, w)) && Unacknowledged(log'[..k]) == None
    {
      assert log'[..|log|] == log;
      if k < |log| {
        assert log'[..k] == log[..k];
        var w :| Justified(log, k, w);
        assert Justified(log', k, w);
      }
    }
  }

  /** The event a step appends, if any, is the whole change of the log. */
  lemma LedgerExtends(s: State, t: State, e: Event)
    requires LedgerOk(s) && t.log == s.log + [e]
    requires t.receipt == if e.Wrote? then Some(e.receipt) else s.receipt
    requires e.Posted? ==> Unacknowledged(s.log) == None && exists w :: Justified(t.log, |s.log|, w)
    requires e.Posted? ==> Held(s.receipt) && s.receipt.value.body == e.body
    requires e.Wrote? && Unacknowledged(s.log).Some? ==>
               Held(Some(e.receipt)) && e.receipt.body == Unacknowledged(s.log).value
    ensures LedgerOk(t)
  {
    Extend(s.log, e);
    JustifiedExtends(s.log, e);
  }

  /** The driver inside moves to another stage; nobody else is inside. */
  lemma InsideMoves(s: State, t: State, d: Driver)
    requires Inv(s) && d in s.stages && d in t.stages
    requires t.holder == s.holder && t.stages == s.stages[d := t.stages[d]]
    requires StageOk(t, d, t.stages[d]) && LedgerOk(t)
    ensures Inv(t)
  {
  }

  lemma StepKeepsInv(s: State, m: Move)
    requires Inv(s)
    ensures Inv(Next(s, m))
  {
    match m
    case TakeLock(d) => TakeLockKeepsInv(s, d);
    case LookFirst(d, r) => LookFirstKeepsInv(s, d, r);
    case CheckReceipt(d) => CheckReceiptKeepsInv(s, d);
    case LookSecond(d, r) => LookSecondKeepsInv(s, d, r);
    case WriteIntent(d) => WriteIntentKeepsInv(s, d);
    case SendPost(d) => SendPostKeepsInv(s, d);
    case Reply(d, result) => ReplyKeepsInv(s, d, result);
    case LookAfterFailure(d, r) => LookAfterFailureKeepsInv(s, d, r);
    case WriteResult(d) => WriteResultKeepsInv(s, d);
    case Leave(d) => ExitKeepsInv(s, d);
    case Crash(d) => ExitKeepsInv(s, d);
  }

  lemma TakeLockKeepsInv(s: State, d: Driver)
    requires Inv(s)
    ensures Inv(Next(s, TakeLock(d)))
  {
    var t := Next(s, TakeLock(d));
    if t != s {
      LedgerExtends(s, t, Took(d));
    }
  }

  lemma LookFirstKeepsInv(s: State, d: Driver, r: Reading)
    requires Inv(s)
    ensures Inv(Next(s, LookFirst(d, r)))
  {
    var t := Next(s, LookFirst(d, r));
    if t != s {
      LedgerExtends(s, t, Looked(d, r));
      InsideMoves(s, t, d);
    }
  }

  lemma CheckReceiptKeepsInv(s: State, d: Driver)
    requires Inv(s)
    ensures Inv(Next(s, CheckReceipt(d)))
  {
    var t := Next(s, CheckReceipt(d));
    if t != s {
      InsideMoves(s, t, d);
    }
  }

  lemma LookSecondKeepsInv(s: State, d: Driver, r: Reading)
    requires Inv(s)
    ensures Inv(Next(s, LookSecond(d, r)))
  {
    var t := Next(s, LookSecond(d, r));
    if t != s {
      LedgerExtends(s, t, Looked(d, r));
      InsideMoves(s, t, d);
    }
  }

  lemma WriteIntentKeepsInv(s: State, d: Driver)
    requires Inv(s)
    ensures Inv(Next(s, WriteIntent(d)))
  {
    var t := Next(s, WriteIntent(d));
    if t != s {
      var e := Wrote(d, t.receipt.value);
      LedgerExtends(s, t, e);
      Extend(s.log, e);
      InsideMoves(s, t, d);
    }
  }

  lemma RecordedIsJustified(s: State, d: Driver)
    requires Inv(s) && d in s.stages && s.stages[d].Recorded?
    ensures exists w :: Justified(s.log + [Posted(d, s.stages[d].intent.body)], |s.log|, w)
  {
    var p := s.stages[d];
    var e := Posted(d, p.intent.body);
    Extend(s.log, e);
    var w := Witness(p.took, p.first, p.second, p.written);
    assert LookedTwice(s.log + [e], d, e.body, w);
    assert NoHandover(s.log + [e], p.took, |s.log|);
    assert Justified(s.log + [e], |s.log|, w);
  }

  lemma SendPostLedger(s: State, d: Driver)
    requires Inv(s) && d in s.stages && s.stages[d].Recorded?
    ensures LedgerOk(Next(s, SendPost(d)))
  {
    RecordedIsJustified(s, d);
    assert StageOk(s, d, s.stages[d]);
    LedgerExtends(s, Next(s, SendPost(d)), Posted(d, s.stages[d].intent.body));
  }

  lemma SendPostStage(s: State, d: Driver)
    requires Inv(s) && d in s.stages && s.stages[d].Recorded?
    ensures var t := Next(s, SendPost(d)); StageOk(t, d, t.stages[d])
  {
  }

  lemma SendPostKeepsInv(s: State, d: Driver)
    requires Inv(s)
    ensures Inv(Next(s, SendPost(d)))
  {
    if d in s.stages && s.stages[d].Recorded? {
      SendPostLedger(s, d);
      SendPostStage(s, d);
      InsideMoves(s, Next(s, SendPost(d)), d);
    }
  }

  lemma ReplyKeepsInv(s: State, d: Driver, result: Option<string>)
    requires Inv(s)
    ensures Inv(Next(s, Reply(d, result)))
  {
    if d in s.stages && s.stages[d].Sent? {
      assert StageOk(s, d, s.stages[d]);
      if result.Some? {
        AcknowledgeKeepsInv(s, d, result.value);
      } else {
        InsideMoves(s, Next(s, Reply(d, None)), d);
      }
    }
  }

  lemma AcknowledgeKeepsInv(s: State, d: Driver, result: string)
    requires Inv(s) && d in s.stages && s.stages[d].Sent?
    ensures Inv(Next(s, Reply(d, Some(result))))
  {
    var t := Next(s, Reply(d, Some(result)));
    assert StageOk(s, d, s.stages[d]);
    LedgerExtends(s, t, Acknowledged(d));
    Extend(s.log, Acknowledged(d));
    InsideMoves(s, t, d);
  }

  lemma LookAfterFailureKeepsInv(s: State, d: Driver, r: Reading)
    requires Inv(s)
    ensures Inv(Next(s, LookAfterFailure(d, r)))
  {
    var t := Next(s, LookAfterFailure(d, r));
    if t != s {
      LedgerExtends(s, t, Looked(d, r));
      Extend(s.log, Looked(d, r));
      InsideMoves(s, t, d);
    }
  }

  lemma WriteResultKeepsInv(s: State, d: Driver)
    requires Inv(s)
    ensures Inv(Next(s, WriteResult(d)))
  {
    var t := Next(s, WriteResult(d));
    if t != s {
      LedgerExtends(s, t, Wrote(d, s.stages[d].final));
      InsideMoves(s, t, d);
    }
  }

  lemma ExitKeepsInv(s: State, d: Driver)
    requires Inv(s)
    ensures Inv(Next(s, Leave(d))) && Inv(Next(s, Crash(d)))
  {
    if d in s.stages {
      LedgerExtends(s, Exit(s, d), Released(d));
      assert Exit(s, d).stages == map[];
    }
  }

  /** Over every interleaving of every number of drivers, with crashes anywhere. */
  lemma {:induction false} EveryRunKeepsInv(s: State, moves: seq<Move>)
    requires Inv(s)
    ensures Inv(Run(s, moves))
  {
    if moves != [] {
      EveryRunKeepsInv(s, moves[..|moves| - 1]);
      StepKeepsInv(Run(s, moves[..|moves| - 1]), moves[|moves| - 1]);
    }
  }

  lemma InitialInv()
    ensures Inv(INITIAL)
  {
  }

  // ----- main results -----

  /** At most one driver is ever inside the lock. */
  lemma OneDriverInside(moves: seq<Move>, d: Driver, e: Driver)
    requires var s := Run(INITIAL, moves); d in s.stages && e in s.stages
    ensures d == e
  {
    InitialInv();
    EveryRunKeepsInv(INITIAL, moves);
  }

  /**
   * Each POST is preceded by a durable `posting` receipt holding exactly its body, written by the same driver under
   * the same lock, and that body is the decider's answer for two snapshots the driver took under that lock.
   */
  lemma EveryPostIsJustified(moves: seq<Move>, k: nat) returns (w: Witness)
    requires var log := Run(INITIAL, moves).log; k < |log| && log[k].Posted?
    ensures Justified(Run(INITIAL, moves).log, k, w)
  {
    InitialInv();
    EveryRunKeepsInv(INITIAL, moves);
    var log := Run(INITIAL, moves).log;
    w :| Justified(log, k, w);
  }

  lemma {:induction false} AcknowledgedBetween(log: seq<Event>, j: nat)
    requires j < |log| && log[j].Posted? && Unacknowledged(log) == None
    ensures exists a :: j < a < |log| && log[a].Acknowledged?
  {
    var n := |log| - 1;
    if !log[n].Acknowledged? {
      AcknowledgedBetween(log[..n], j);
      var a :| j < a < n && log[..n][a].Acknowledged?;
      assert log[a].Acknowledged?;
    }
  }

  /** Every POST except possibly the last was acknowledged, before the next one was issued. */
  lemma EarlierPostsAcknowledged(moves: seq<Move>, j: nat, k: nat)
    requires var log := Run(INITIAL, moves).log; j < k < |log| && log[j].Posted? && log[k].Posted?
    ensures var log := Run(INITIAL, moves).log; exists a :: j < a < k && log[a].Acknowledged?
  {
    InitialInv();
    EveryRunKeepsInv(INITIAL, moves);
    var log := Run(INITIAL, moves).log;
    AcknowledgedBetween(log[..k], j);
    var a :| j < a < k && log[..k][a].Acknowledged?;
    assert log[a].Acknowledged?;
  }

  /** Nobody inside the lock can still post or record an acceptance. */
  ghost predicate NobodyPosts(s: State) {
    forall d :: d in s.stages ==>
      var p := s.stages[d];
      p.Locked? || p.Seen? || p.PostFailed? || (p.Settling? && p.final.status.Uncertain?) || p.Leaving?
  }

  ghost predicate Stopped(s: State) {
    Inv(s) && Held(s.receipt) && NobodyPosts(s)
  }

  lemma NobodyPostsKept(s: State, m: Move)
    requires Held(s.receipt) && NobodyPosts(s)
    ensures Held(Next(s, m).receipt) && NobodyPosts(Next(s, m))
    ensures var t := Next(s, m); t.log == s.log || exists e: Event :: t.log == s.log + [e] && !e.Posted?
  {
  }

  lemma StepStaysStopped(s: State, m: Move)
    requires Stopped(s)
    ensures Stopped(Next(s, m)) && Posts(Next(s, m).log) == Posts(s.log)
  {
    StepKeepsInv(s, m);
    NobodyPostsKept(s, m);
    var t := Next(s, m);
    if t.log != s.log {
      var e: Event :| t.log == s.log + [e] && !e.Posted?;
      Extend(s.log, e);
    }
  }

  lemma {:induction false} StoppedForever(s: State, moves: seq<Move>)
    requires Stopped(s)
    ensures Stopped(Run(s, moves)) && Posts(Run(s, moves).log) == Posts(s.log)
  {
    if moves != [] {
      StoppedForever(s, moves[..|moves| - 1]);
      StepStaysStopped(Run(s, moves[..|moves| - 1]), moves[|moves| - 1]);
    }
  }

  /** The events that leave it open whether the server took a POST. */
  predicate LeavesUncertain(s: State, d: Driver, cause: Move) {
    && At(s, d)
    && match s.stages[d]
       case Sent(_, _) => cause == Crash(d) || cause == Reply(d, None)  // no answer, or an exception
       case Settling(_, _) => cause == Crash(d)  // answered, but not recorded
       case Recorded(_, _, _, _, _, _, _) => cause == Crash(d)  // recorded, perhaps not posted
       case _ => false
  }

  /** A driver that dies with its receipt held, or whose request raises, leaves nobody inside who could post. */
  lemma UncertaintyStops(s: State, d: Driver, cause: Move)
    requires Inv(s) && LeavesUncertain(s, d, cause)
    ensures Stopped(Next(s, cause)) && Posts(Next(s, cause).log) == Posts(s.log)
  {
    StepKeepsInv(s, cause);
    if cause == Crash(d) {
      CrashStops(s, d);
    } else {
      assert StageOk(s, d, s.stages[d]);
      FailureStops(s, d);
    }
  }

  lemma CrashStops(s: State, d: Driver)
    requires Inv(s) && LeavesUncertain(s, d, Crash(d))
    ensures Held(Next(s, Crash(d)).receipt) && NobodyPosts(Next(s, Crash(d)))
    ensures Posts(Next(s, Crash(d)).log) == Posts(s.log)
  {
    assert StageOk(s, d, s.stages[d]);
    Extend(s.log, Released(d));
  }

  lemma FailureStops(s: State, d: Driver)
    requires At(s, d) && s.stages[d].Sent? && s.stages.Keys == {d}
    ensures Next(s, Reply(d, None)).receipt == s.receipt && NobodyPosts(Next(s, Reply(d, None)))
    ensures Next(s, Reply(d, None)).log == s.log
  {
  }

  /**
   * Once it is open whether a POST was taken, no driver ever issues another: the receipt stays held until it is
   * resolved by hand.
   */
  lemma NoPostAfterUncertainty(before: seq<Move>, d: Driver, cause: Move, after: seq<Move>)
    requires LeavesUncertain(Run(INITIAL, before), d, cause)
    ensures var s := Run(INITIAL, before);
      Posts(Run(Next(s, cause), after).log) == Posts(s.log) && Held(Run(Next(s, cause), after).receipt)
  {
    InitialInv();
    EveryRunKeepsInv(INITIAL, before);
    var s := Run(INITIAL, before);
    UncertaintyStops(s, d, cause);
    StoppedForever(Next(s, cause), after);
  }

  /** The snapshot whose answer a POST carries: the second one its driver took under the lock. */
  lemma PostedForSnapshot(moves: seq<Move>, k: nat) returns (w: Witness, s: Snapshot)
    requires var log := Run(INITIAL, moves).log; k < |log| && log[k].Posted?
    ensures var log := Run(INITIAL, moves).log;
      && Justified(log, k, w)
      && log[w.second].reading.Complete? && s == log[w.second].reading.snapshot
      && Answer(log[k].d, s) == Post(log[k].body)
  {
    w := EveryPostIsJustified(moves, k);
    var log := Run(INITIAL, moves).log;
    s := log[w.second].reading.snapshot;
  }

  /**
   * Before a POST both looks under the lock read everything, from one live instance, with one lease and, for an
   * execution driver, one Coordinator state, and got the answer that is posted; the receipt names that instance.
   */
  lemma PostsSeeOneFrontier(moves: seq<Move>, k: nat) returns (w: Witness)
    requires var log := Run(INITIAL, moves).log; k < |log| && log[k].Posted?
    ensures var log := Run(INITIAL, moves).log; Justified(log, k, w)
    ensures var log := Run(INITIAL, moves).log;
      var first, second, d := log[w.first].reading, log[w.second].reading, log[k].d;
      && first.Complete? && second.Complete? && first.liveInstance == second.liveInstance
      && first.snapshot.lease == second.snapshot.lease
      && (d.execution ==> first.snapshot.coordinatorState == second.snapshot.coordinatorState)
      && Answer(d, first.snapshot) == Answer(d, second.snapshot) == Post(log[k].body)
      && log[w.written].receipt == Receipt(Posting, Some(first.liveInstance), log[k].body, d.reviewed)
  {
    w := EveryPostIsJustified(moves, k);
  }

  /** A preparation driver never posts while a Coordinator agent step is live or has started. */
  lemma PreparationPostsAvoidCoordinator(moves: seq<Move>, k: nat) returns (w: Witness, s: Snapshot)
    requires var log := Run(INITIAL, moves).log; k < |log| && log[k].Posted? && !log[k].d.execution
    ensures var log := Run(INITIAL, moves).log;
      Justified(log, k, w) && log[w.second].reading.Complete? && s == log[w.second].reading.snapshot
    ensures forall st :: st in s.steps ==> !st.agentType.CoordinatorAgent?
    ensures forall f, st :: f in s.flows && st in f.steps && st.started ==> !st.agentType.CoordinatorAgent?
  {
    w, s := PostedForSnapshot(moves, k);
    PreparationNeverTouchesCoordinator(s);
  }

  /** An execution driver's agent body names the only live step; its logic body needs that no agent step is live. */
  lemma ExecutionPostsNameTheirFrontier(moves: seq<Move>, k: nat) returns (w: Witness, s: Snapshot)
    requires var log := Run(INITIAL, moves).log; k < |log| && log[k].Posted? && log[k].d.execution
    ensures var log := Run(INITIAL, moves).log;
      Justified(log, k, w) && log[w.second].reading.Complete? && s == log[w.second].reading.snapshot
    ensures match Run(INITIAL, moves).log[k].body
      case AgentStep(id) =>
        && |s.steps| == 1 && s.steps[0].stepId == id && s.steps[0].status.StepCreated? && !s.steps[0].started
        && (s.steps[0].agentType.CoordinatorAgent? || s.steps[0].agentType.ResourceCuratorAgent?)
      case Logic(_) => forall st :: st in s.steps ==> st.agentType.NoAgent?
      case ContentBatch(_, _, submission, _) =>
        s.coordinatorState.Some? && s.coordinatorState.value.sourceSubmissionId == Some(submission)
  {
    w, s := PostedForSnapshot(moves, k);
    var e := Run(INITIAL, moves).log[k];
    match e.body
    case AgentStep(id) => ExecutionAgentActionNamesTheOnlyStep(s, e.d.reviewed, id);
    case Logic(scope) => ExecutionLogicNeedsNoAgentStep(s, e.d.reviewed, scope);
    case ContentBatch(_, _, _, _) => ExecutionBatchCarriesItsIdentity(s, e.d.reviewed, e.body);
  }
}
