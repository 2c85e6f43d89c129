/**
 * The recovery boundary of a failed AgentStep (`recover_agent_step`): reopening the declaration round, moving the
 * parent's agent binding to the replacement, and the compensator that takes both back when anything fails.
 */
module RecoveryBoundary {
  import opened Ordering

  datatype RoundStatus = Running | AwaitingCloseout | OtherStatus(name: string)
  datatype RoundResult = Failed | OtherResult(name: string)

  /** `closeout` stands for `result_kind` and the two acknowledgement fields; `content` for everything else. */
  datatype Round = Round(nodePath: string, roundId: string, status: RoundStatus, result: Option<RoundResult>,
                         reason: Option<string>, completedAt: Option<string>, closeout: Option<string>, content: string)

  /** The file a round is kept in: the node path and the round id it is looked up by. */
  datatype RoundKey = RoundKey(node: string, id: string)

  /** `live`: the status is neither COMPLETED nor FAILED. */
  datatype Flow = Flow(id: string, flowType: string, scope: string, live: bool, bindings: map<string, string>)

  datatype Step = Step(id: string, role: string, bindings: map<string, string>, restartOf: Option<string>)

  datatype Store = Store(rounds: map<RoundKey, Round>, parents: map<string, Flow>)

  datatype RoundTarget = RoundTarget(node: string, id: string, previous: Round)

  /** What the preview fixed, and the records the recovery passes to the boundary. */
  datatype Context = Context(stepId: string, round: Option<RoundTarget>, parentId: Option<string>,
                             target: Flow, source: Step, replacement: Step)

  /** `shared_parent_replacement`. */
  datatype Replacement = Replacement(parentId: string, role: string, previous: string, replacement: string)

  /** A write is stored; or fails and is not stored; or is stored and reported as failed. */
  datatype Write = Stored | Lost | StoredButReported

  /** `update_flow_record` can also fail before it calls back. */
  datatype Update = NotCalled | Called(write: Write)

  function Bound(bindings: map<string, string>, role: string): string {
    if role in bindings then bindings[role] else ""
  }

  function ReasonPrefix(stepId: string): string {
    "Step " + stepId + " failed before DeclGraph round completion:"
  }

  predicate CarriesMarker(r: Round, stepId: string) {
    && r.status == AwaitingCloseout
    && r.result == Some(Failed)
    && ReasonPrefix(stepId) <= (if r.reason.Some? then r.reason.value else "")
  }

  function Reopened(r: Round): Round {
    r.(status := Running, result := None, reason := None, completedAt := None)
  }

  /** `_write_round` files a round under its own id, and only over an existing file. */
  function WriteRound(s: Store, node: string, r: Round, w: Write): (Store, bool) {
    var key := RoundKey(node, r.roundId);
    if key !in s.rounds then (s, false)
    else (if w == Lost then s else s.(rounds := s.rounds[key := r]), w == Stored)
  }

  function Reopen(s: Store, c: Context, w: Write): (Store, bool) {
    if c.round.None? then (s, true)
    else if c.target.flowType != "decl_graph_round" || c.source.id != c.stepId
            || c.replacement.restartOf != Some(c.stepId) then (s, false)
    else
      var key := RoundKey(c.round.value.node, c.round.value.id);
      if key !in s.rounds || !CarriesMarker(s.rounds[key], c.stepId) || s.rounds[key].closeout.Some? then (s, false)
      else WriteRound(s, c.round.value.node, Reopened(s.rounds[key]), w)
  }

  /** `shared_parent_replacement` is set by the callback, before the store has written anything. */
  function Synchronize(s: Store, c: Context, u: Update): (Store, Option<Replacement>, bool) {
    if c.parentId.None? then (s, None, true)
    else
      var role := c.source.role;
      var before, after := Bound(c.source.bindings, role), Bound(c.replacement.bindings, role);
      if before == "" || Bound(c.target.bindings, role) != before || after == "" then (s, None, false)
      else if after == before then (s, None, true)
      else if c.parentId.value !in s.parents || u == NotCalled then (s, None, false)
      else
        var parent := s.parents[c.parentId.value];
        if parent.id != c.parentId.value || parent.flowType != "content_node_task" || parent.scope != c.target.scope
           || !parent.live || Bound(parent.bindings, role) != before then (s, None, false)
        else
          (if u.write == Lost then s else Rebind(s, parent.id, role, after),
           Some(Replacement(parent.id, role, before, after)), u.write == Stored)
  }

  function Rebind(s: Store, parentId: string, role: string, agent: string): Store
    requires parentId in s.parents
  {
    var parent := s.parents[parentId];
    s.(parents := s.parents[parentId := parent.(bindings := parent.bindings[role := agent])])
  }

  datatype Applied = Applied(store: Store, moved: Option<Replacement>, ok: bool)

  /** `apply_recovery_boundaries`. */
  function Apply(s: Store, c: Context, w: Write, u: Update): Applied {
    var (reopened, ok) := Reopen(s, c, w);
    if !ok then Applied(reopened, None, false)
    else
      var (done, moved, ok') := Synchronize(reopened, c, u);
      Applied(done, moved, ok')
  }

  function RollbackParent(s: Store, moved: Option<Replacement>, u: Update): (Store, bool) {
    if moved.None? then (s, true)
    else
      var m := moved.value;
      if m.parentId !in s.parents || u == NotCalled then (s, false)
      else
        var current := Bound(s.parents[m.parentId].bindings, m.role);
        if current == m.previous then (s, u.write == Stored)
        else if current != m.replacement then (s, false)
        else (if u.write == Lost then s else Rebind(s, m.parentId, m.role, m.previous), u.write == Stored)
  }

  function RollbackRound(s: Store, c: Context, w: Write): (Store, bool) {
    if c.round.None? then (s, true)
    else
      var node, previous := c.round.value.node, c.round.value.previous;
      if previous.nodePath != node || !CarriesMarker(previous, c.stepId) then (s, false)
      else
        var key := RoundKey(node, previous.roundId);
        if key !in s.rounds then (s, false)
        else if s.rounds[key] == previous then (s, true)
        else if s.rounds[key] != Reopened(previous) then (s, false)
        else WriteRound(s, node, previous, w)
  }

  class Recovery {
    const context: Context
    var store: Store
    var moved: Option<Replacement>

    constructor (c: Context, s: Store)
      ensures context == c && store == s && moved == None
    {
      context, store, moved := c, s, None;
    }

    method FileRound(node: string, r: Round, w: Write) returns (ok: bool)
      modifies this`store
      ensures (store, ok) == WriteRound(old(store), node, r, w)
    {
      if RoundKey(node, r.roundId) !in store.rounds {
        return false;
      }
      if w != Lost {
        store := store.(rounds := store.rounds[RoundKey(node, r.roundId) := r]);
      }
      return w == Stored;
    }

    method ReopenRoundBoundary(w: Write) returns (ok: bool)
      modifies this`store
      ensures (store, ok) == Reopen(old(store), context, w)
    {
      if context.round.None? {
        return true;
      }
      if context.target.flowType != "decl_graph_round" || context.source.id != context.stepId
         || context.replacement.restartOf != Some(context.stepId) {
        return false;
      }
      var key := RoundKey(context.round.value.node, context.round.value.id);
      if key !in store.rounds {
        return false;
      }
      var current := store.rounds[key];
      if !CarriesMarker(current, context.stepId) || current.closeout.Some? {
        return false;
      }
      ok := FileRound(context.round.value.node, Reopened(current), w);
    }

    method SynchronizeSharedStageParent(u: Update) returns (ok: bool)
      requires moved == None
      modifies this
      ensures (store, moved, ok) == Synchronize(old(store), context, u)
    {
      if context.parentId.None? {
        return true;
      }
      var role := context.source.role;
      var before, after := Bound(context.source.bindings, role), Bound(context.replacement.bindings, role);
      if before == "" || Bound(context.target.bindings, role) != before || after == "" {
        return false;
      }
      if after == before {
        return true;
      }
      if context.parentId.value !in store.parents || u == NotCalled {
        return false;
      }
      var parent := store.parents[context.parentId.value];
      if parent.id != context.parentId.value || parent.flowType != "content_node_task"
         || parent.scope != context.target.scope || !parent.live || Bound(parent.bindings, role) != before {
        return false;
      }
      moved := Some(Replacement(parent.id, role, before, after));
      if u.write != Lost {
        store := Rebind(store, parent.id, role, after);
      }
      return u.write == Stored;
    }

    method ApplyRecoveryBoundaries(w: Write, u: Update) returns (ok: bool)
      requires moved == None
      modifies this
      ensures Applied(store, moved, ok) == Apply(old(store), context, w, u)
    {
      ok := ReopenRoundBoundary(w);
      if !ok {
        return;
      }
      ok := SynchronizeSharedStageParent(u);
    }

    method RollbackSharedStageParent(u: Update) returns (ok: bool)
      modifies this`store
      ensures (store, ok) == RollbackParent(old(store), moved, u)
    {
      if moved.None? {
        return true;
      }
      var m := moved.value;
      if m.parentId !in store.parents || u == NotCalled {
        return false;
      }
      var current := Bound(store.parents[m.parentId].bindings, m.role);
      if current != m.previous {
        if current != m.replacement {
          return false;
        }
        if u.write != Lost {
          store := Rebind(store, m.parentId, m.role, m.previous);
        }
      }
      return u.write == Stored;
    }

    method RollbackRoundBoundary(w: Write) returns (ok: bool)
      modifies this`store
      ensures (store, ok) == RollbackRound(old(store), context, w)
    {
      if context.round.None? {
        return true;
      }
      var node, previous := context.round.value.node, context.round.value.previous;
      if previous.nodePath != node || !CarriesMarker(previous, context.stepId) {
        return false;
      }
      var key := RoundKey(node, previous.roundId);
      if key !in store.rounds {
        return false;
      }
      if store.rounds[key] == previous {
        return true;
      }
      if store.rounds[key] != Reopened(previous) {
        return false;
      }
      ok := FileRound(node, previous, w);
    }

    /** Both compensations are attempted, whatever becomes of the first; their failures are raised together. */
    method RollbackRecoveryBoundaries(u: Update, w: Write) returns (failures: seq<string>)
      modifies this`store
      ensures
        var (withParent, parentOk) := RollbackParent(old(store), moved, u);
        var (done, roundOk) := RollbackRound(withParent, context, w);
        store == done && (failures == [] <==> parentOk && roundOk)
    {
      failures := [];
      var ok := RollbackSharedStageParent(u);
      if !ok {
        failures := failures + ["shared stage parent"];
      }
      ok := RollbackRoundBoundary(w);
      if !ok {
        failures := failures + ["DeclGraph round"];
      }
    }
  }

  // ----- what a recovery does -----

  predicate NamesFailedStep(r: Round, stepId: string) {
    && r.status == AwaitingCloseout && r.result == Some(Failed) && r.reason.Some?
    && "Step " + stepId + " failed before DeclGraph round completion:" <= r.reason.value
  }

  /** The round to be reopened, if there is one, can be: this is the recovery of the step that failed in it. */
  predicate RoundReopens(s: Store, c: Context, w: Write) {
    c.round.Some? ==>
      && w == Stored && c.target.flowType == "decl_graph_round"
      && c.source.id == c.stepId && c.replacement.restartOf == Some(c.stepId)
      && var key := RoundKey(c.round.value.node, c.round.value.id);
      && key in s.rounds && NamesFailedStep(s.rounds[key], c.stepId) && s.rounds[key].closeout == None
      && RoundKey(c.round.value.node, s.rounds[key].roundId) in s.rounds
  }

  /** The agent bound to the role in the failed step, and still bound in the flow being recovered, has a successor. */
  predicate BindingKnown(c: Context) {
    var role := c.source.role;
    && role in c.source.bindings && role in c.target.bindings && role in c.replacement.bindings
    && c.source.bindings[role] != "" && c.target.bindings[role] == c.source.bindings[role]
    && c.replacement.bindings[role] != ""
  }

  /** The recovery names a parent whose agent is to be replaced by another one. */
  predicate ParentChanges(c: Context) {
    c.parentId.Some? && BindingKnown(c) && c.replacement.bindings[c.source.role] != c.source.bindings[c.source.role]
  }

  /** The parent is a live content task in the scope of the flow, with the failed step's agent still in the role. */
  predicate ParentReady(s: Store, c: Context)
    requires ParentChanges(c)
  {
    && c.parentId.value in s.parents
    && var parent, role := s.parents[c.parentId.value], c.source.role;
    && parent.id == c.parentId.value && parent.flowType == "content_node_task" && parent.scope == c.target.scope
    && parent.live && role in parent.bindings && parent.bindings[role] == c.source.bindings[role]
  }

  lemma ReopeningSucceedsIff(s: Store, c: Context, w: Write)
    ensures Reopen(s, c, w).1 <==> RoundReopens(s, c, w)
    ensures Reopen(s, c, w).0.parents == s.parents
  {
  }

  lemma BindingMovesIff(s: Store, c: Context, u: Update)
    ensures Synchronize(s, c, u).2 <==>
            && (c.parentId.Some? ==> BindingKnown(c))
            && (ParentChanges(c) ==> ParentReady(s, c) && u == Called(Stored))
    ensures
      var after := Synchronize(s, c, u).0.parents;
      if ParentChanges(c) && ParentReady(s, c) && u.Called? && u.write != Lost
      then
        var parent, role := s.parents[c.parentId.value], c.source.role;
        after == s.parents[c.parentId.value :=
                   parent.(bindings := parent.bindings[role := c.replacement.bindings[role]])]
      else after == s.parents
  {
  }

  /** Exactly when a recovery succeeds: each of its two boundaries is met, or there is none. */
  lemma RecoverySucceedsIff(s: Store, c: Context, w: Write, u: Update)
    ensures Apply(s, c, w, u).ok <==>
            && RoundReopens(s, c, w)
            && (c.parentId.Some? ==> BindingKnown(c))
            && (ParentChanges(c) ==> ParentReady(s, c) && u == Called(Stored))
  {
    ReopeningSucceedsIff(s, c, w);
    BindingMovesIff(Reopen(s, c, w).0, c, u);
  }

  /** The round is running again, under the id it names, with nothing else of it changed, and so is no other round. */
  lemma SuccessReopensRound(s: Store, c: Context, w: Write, u: Update)
    requires Apply(s, c, w, u).ok
    ensures c.round.None? ==> Apply(s, c, w, u).store.rounds == s.rounds
    ensures c.round.Some? ==>
      && RoundKey(c.round.value.node, c.round.value.id) in s.rounds
      && var found := s.rounds[RoundKey(c.round.value.node, c.round.value.id)];
      && Apply(s, c, w, u).store.rounds == s.rounds[RoundKey(c.round.value.node, found.roundId) :=
           Round(found.nodePath, found.roundId, Running, None, None, None, found.closeout, found.content)]
  {
  }

  /**
   * What any recovery does to the parents. One that reaches an update that is not lost binds the replacement step's
   * agent to the failed step's role in the named parent, and changes no other binding and no other parent; a success
   * is such a one whenever the agents differ. Every other recovery leaves the parents as they were.
   */
  lemma RecoveryMovesBinding(s: Store, c: Context, w: Write, u: Update)
    ensures
      var after := Apply(s, c, w, u).store.parents;
      if ParentChanges(c) && ParentReady(s, c) && RoundReopens(s, c, w) && u.Called? && u.write != Lost
      then
        var parent, role := s.parents[c.parentId.value], c.source.role;
        after == s.parents[c.parentId.value :=
                   parent.(bindings := parent.bindings[role := c.replacement.bindings[role]])]
      else after == s.parents
    ensures Apply(s, c, w, u).ok && ParentChanges(c) ==>
              ParentReady(s, c) && RoundReopens(s, c, w) && u == Called(Stored)
  {
    ReopeningSucceedsIff(s, c, w);
    BindingMovesIff(Reopen(s, c, w).0, c, u);
  }

  /** What the compensator does to the parents, in any state: it puts the previous agent back over the replacement. */
  lemma RollbackMovesBinding(s: Store, moved: Option<Replacement>, u: Update)
    ensures RollbackParent(s, moved, u).0.rounds == s.rounds
    ensures
      var (after, ok) := RollbackParent(s, moved, u);
      if moved.None? then after.parents == s.parents && ok
      else if moved.value.parentId !in s.parents then after.parents == s.parents && !ok
      else
        var m := moved.value;
        var parent := s.parents[m.parentId];
        var current := if m.role in parent.bindings then parent.bindings[m.role] else "";
        && (ok <==> u == Called(Stored) && (current == m.previous || current == m.replacement))
        && after.parents ==
           if u.Called? && u.write != Lost && current == m.replacement && current != m.previous
           then s.parents[m.parentId := parent.(bindings := parent.bindings[m.role := m.previous])]
           else s.parents
  {
  }

  // ----- laws -----

  function Compensate(s: Store, c: Context, moved: Option<Replacement>, u: Update, w: Write): Store {
    RollbackRound(RollbackParent(s, moved, u).0, c, w).0
  }

  predicate CompensationReportsNothing(s: Store, c: Context, moved: Option<Replacement>, u: Update, w: Write) {
    RollbackParent(s, moved, u).1 && RollbackRound(RollbackParent(s, moved, u).0, c, w).1
  }

  /** The two compensations do not touch each other's records, so neither depends on how the other ends. */
  lemma CompensationsAreIndependent(s: Store, c: Context, moved: Option<Replacement>, u: Update, w: Write)
    ensures Compensate(s, c, moved, u, w).parents == RollbackParent(s, moved, u).0.parents
    ensures Compensate(s, c, moved, u, w).rounds == RollbackRound(s, c, w).0.rounds
    ensures CompensationReportsNothing(s, c, moved, u, w) <==>
            RollbackParent(s, moved, u).1 && RollbackRound(s, c, w).1
  {
    var withParent := RollbackParent(s, moved, u).0;
    assert withParent.rounds == s.rounds;
    assert RollbackRound(withParent, c, w).1 == RollbackRound(s, c, w).1;
  }

  lemma SynchronizationUndone(s: Store, c: Context, u: Update)
    ensures
      var (done, moved, ok) := Synchronize(s, c, u);
      && RollbackParent(done, moved, Called(Stored)).0.parents == s.parents
      && RollbackParent(done, moved, Called(Stored)).1
  {
    var (done, moved, ok) := Synchronize(s, c, u);
    if moved.Some? {
      RebindBack(s, moved.value);
    }
  }

  lemma ReopenLeavesParents(s: Store, c: Context, w: Write)
    ensures Reopen(s, c, w).0.parents == s.parents
  {
  }

  /** Wherever applying fails, or if it succeeds, the compensator gives the parent back exactly what it had. */
  lemma ParentRestored(s: Store, c: Context, w: Write, u: Update, w': Write)
    ensures
      var applied := Apply(s, c, w, u);
      && Compensate(applied.store, c, applied.moved, Called(Stored), w').parents == s.parents
      && RollbackParent(applied.store, applied.moved, Called(Stored)).1
  {
    var applied := Apply(s, c, w, u);
    CompensationsAreIndependent(applied.store, c, applied.moved, Called(Stored), w');
    ReopenLeavesParents(s, c, w);
    SynchronizationUndone(Reopen(s, c, w).0, c, u);
  }

  lemma RebindBack(s: Store, m: Replacement)
    requires m.parentId in s.parents && m.role in s.parents[m.parentId].bindings
    requires s.parents[m.parentId].bindings[m.role] == m.previous
    ensures Rebind(Rebind(s, m.parentId, m.role, m.replacement), m.parentId, m.role, m.previous).parents == s.parents
  {
    var back := s.parents[m.parentId].bindings[m.role := m.replacement][m.role := m.previous];
    assert back == s.parents[m.parentId].bindings;
  }

  /** The file the round is looked up in, which reopening reads again whatever the preview found there. */
  function LookupKey(c: Context): RoundKey
    requires c.round.Some?
  {
    RoundKey(c.round.value.node, c.round.value.id)
  }

  /** The file that reads and writes under the id of the previewed round go to. */
  function PreviousKey(c: Context): RoundKey
    requires c.round.Some?
  {
    RoundKey(c.round.value.node, c.round.value.previous.roundId)
  }

  /** The previewed round is one the compensator accepts, and the file it would read holds exactly it. */
  predicate FiledUnderItsNames(s: Store, c: Context) {
    && c.round.Some?
    && var previous := c.round.value.previous;
    && previous.nodePath == c.round.value.node && CarriesMarker(previous, c.stepId)
    && PreviousKey(c) in s.rounds && s.rounds[PreviousKey(c)] == previous
  }

  /** The round found at the time of reopening is reopened to what the compensator expects. */
  predicate ReopensAsPreviewed(s: Store, c: Context) {
    && c.round.Some? && LookupKey(c) in s.rounds
    && var found, previous := s.rounds[LookupKey(c)], c.round.value.previous;
    && found.roundId == previous.roundId && Reopened(found) == Reopened(previous)
  }

  /** What reopening writes, the compensator recognises and replaces by what was there. */
  predicate ComesBack(s: Store, c: Context) {
    ReopensAsPreviewed(s, c) && FiledUnderItsNames(s, c)
  }

  /**
   * Reopening changes a file: the write is not lost, the recovery is that of the named step of a declaration round, the
   * round found carries the failure marker and is not closed out, and a file of its own id exists that does not hold it
   * reopened already.
   */
  predicate RoundWritten(s: Store, c: Context, w: Write) {
    && c.round.Some? && w != Lost
    && c.target.flowType == "decl_graph_round" && c.source.id == c.stepId && c.replacement.restartOf == Some(c.stepId)
    && LookupKey(c) in s.rounds
    && var found := s.rounds[LookupKey(c)];
    && CarriesMarker(found, c.stepId) && found.closeout.None?
    && var key := RoundKey(c.round.value.node, found.roundId);
    && key in s.rounds && s.rounds[key] != Reopened(found)
  }

  lemma RoundWrittenIff(s: Store, c: Context, w: Write)
    ensures RoundWritten(s, c, w) <==> Reopen(s, c, w).0 != s
  {
    if c.round.Some? && LookupKey(c) in s.rounds {
      var found := s.rounds[LookupKey(c)];
      var key := RoundKey(c.round.value.node, found.roundId);
      var running := Reopened(found);
      var written := s.rounds[key := running];
      assert key in s.rounds && s.rounds[key] == running ==> written == s.rounds;
      assert written[key] == running;
    }
  }

  lemma ApplyRounds(s: Store, c: Context, w: Write, u: Update)
    ensures Apply(s, c, w, u).store.rounds == Reopen(s, c, w).0.rounds
    ensures RoundWritten(s, c, w) <==> Apply(s, c, w, u).store.rounds != s.rounds
  {
  }

  /** The file that the round's own id leads to already holds the previewed round reopened. */
  predicate HoldsReopenedTwin(s: Store, c: Context) {
    && c.round.Some?
    && var previous := c.round.value.previous;
    && previous.nodePath == c.round.value.node && CarriesMarker(previous, c.stepId)
    && PreviousKey(c) in s.rounds && s.rounds[PreviousKey(c)] == Reopened(previous)
  }

  lemma WrittenRound(s: Store, c: Context, w: Write)
    requires RoundWritten(s, c, w)
    ensures c.round.Some? && LookupKey(c) in s.rounds && CarriesMarker(s.rounds[LookupKey(c)], c.stepId)
    ensures
      var found := s.rounds[LookupKey(c)];
      var key := RoundKey(c.round.value.node, found.roundId);
      && key in s.rounds && s.rounds[key] != Reopened(found)
      && Reopen(s, c, w).0.rounds == s.rounds[key := Reopened(found)]
  {
  }

  lemma WrittenRoundRestoredIff(s: Store, c: Context, w: Write, after: Store)
    requires RoundWritten(s, c, w) && after.rounds == Reopen(s, c, w).0.rounds
    ensures RollbackRound(after, c, Stored).0.rounds == s.rounds <==> ComesBack(s, c)
  {
    WrittenRound(s, c, w);
    var found := s.rounds[LookupKey(c)];
    var key := RoundKey(c.round.value.node, found.roundId);
    var back := RollbackRound(after, c, Stored).0.rounds;
    assert after.rounds[key] != s.rounds[key];
    if ComesBack(s, c) {
      assert back == s.rounds[key := Reopened(found)][key := s.rounds[key]];
    } else {
      assert back[key] == s.rounds[key] ==> PreviousKey(c) == key;
    }
  }

  lemma UnwrittenRoundRestoredIff(s: Store, c: Context, w: Write, after: Store)
    requires !RoundWritten(s, c, w) && after.rounds == s.rounds
    ensures RollbackRound(after, c, Stored).0.rounds == s.rounds <==> !HoldsReopenedTwin(s, c)
  {
  }

  /**
   * Whatever was written between the preview and the recovery, and wherever applying fails: the compensator restores
   * the rounds exactly if what reopening wrote comes back, or nothing was written and the previewed round's own id
   * does not lead to that round reopened.
   */
  lemma RoundsRestoredIff(s: Store, c: Context, w: Write, u: Update, moved: Option<Replacement>, u': Update)
    ensures Compensate(Apply(s, c, w, u).store, c, moved, u', Stored).rounds == s.rounds <==>
            if RoundWritten(s, c, w) then ComesBack(s, c) else !HoldsReopenedTwin(s, c)
  {
    var after := Apply(s, c, w, u).store;
    ApplyRounds(s, c, w, u);
    CompensationsAreIndependent(after, c, moved, u', Stored);
    if RoundWritten(s, c, w) {
      WrittenRoundRestoredIff(s, c, w, after);
    } else {
      UnwrittenRoundRestoredIff(s, c, w, after);
    }
  }

  lemma SilentRestorationIff(s: Store, c: Context, w: Write, after: Store)
    requires c.round.Some? && after.rounds == Reopen(s, c, w).0.rounds
    ensures RollbackRound(after, c, Stored).0.rounds == s.rounds && RollbackRound(after, c, Stored).1 <==>
            FiledUnderItsNames(s, c) && (RoundWritten(s, c, w) ==> ReopensAsPreviewed(s, c))
  {
    if RoundWritten(s, c, w) {
      WrittenRoundRestoredIff(s, c, w, after);
      WrittenRound(s, c, w);
    } else {
      UnwrittenRoundRestoredIff(s, c, w, after);
    }
  }

  /**
   * Everything is as before and no failure is reported exactly if there is no round to reopen, or the previewed round
   * is filed under its own names and, if reopening wrote, it reopened the round as previewed.
   */
  lemma EverythingRestored(s: Store, c: Context, w: Write, u: Update)
    ensures
      var applied := Apply(s, c, w, u);
      && Compensate(applied.store, c, applied.moved, Called(Stored), Stored) == s
      && CompensationReportsNothing(applied.store, c, applied.moved, Called(Stored), Stored)
      <==>
      c.round.Some? ==> FiledUnderItsNames(s, c) && (RoundWritten(s, c, w) ==> ReopensAsPreviewed(s, c))
  {
    var applied := Apply(s, c, w, u);
    ParentRestored(s, c, w, u, Stored);
    CompensationsAreIndependent(applied.store, c, applied.moved, Called(Stored), Stored);
    ApplyRounds(s, c, w, u);
    if c.round.Some? {
      SilentRestorationIff(s, c, w, applied.store);
    }
  }

  /** A round that names another node than the one it is looked up by is reopened, but never taken back. */
  lemma RenamedNodeStaysReopened(s: Store, c: Context, w: Write, u: Update, moved: Option<Replacement>, u': Update)
    requires RoundWritten(s, c, w) && c.round.value.previous.nodePath != c.round.value.node
    ensures
      var found := s.rounds[LookupKey(c)];
      var key := RoundKey(c.round.value.node, found.roundId);
      var left := Compensate(Apply(s, c, w, u).store, c, moved, u', Stored).rounds;
      && key in left && left[key] == Reopened(found)
      && !CompensationReportsNothing(Apply(s, c, w, u).store, c, moved, u', Stored)
  {
    WrittenRound(s, c, w);
    ApplyRounds(s, c, w, u);
    CompensationsAreIndependent(Apply(s, c, w, u).store, c, moved, u', Stored);
  }

  /** A round whose other content changed after the preview is reopened, not taken back, and the failure is reported. */
  lemma ChangedRoundStaysReopened(s: Store, c: Context, w: Write, u: Update, moved: Option<Replacement>, u': Update)
    requires RoundWritten(s, c, w)
    requires
      var found, previous := s.rounds[LookupKey(c)], c.round.value.previous;
      found.roundId == previous.roundId && Reopened(found) != Reopened(previous)
    ensures
      var found := s.rounds[LookupKey(c)];
      var left := Compensate(Apply(s, c, w, u).store, c, moved, u', Stored).rounds;
      && PreviousKey(c) in left && left[PreviousKey(c)] == Reopened(found)
      && !CompensationReportsNothing(Apply(s, c, w, u).store, c, moved, u', Stored)
  {
    WrittenRound(s, c, w);
    ApplyRounds(s, c, w, u);
    CompensationsAreIndependent(Apply(s, c, w, u).store, c, moved, u', Stored);
  }

  /** A summary recorded between the preview and the recovery is enough, though every write succeeds. */
  lemma LateSummaryIsNotRestored() returns (s: Store, c: Context)
    ensures
      var applied := Apply(s, c, Stored, Called(Stored));
      && c.round.Some? && c.round.value.previous.content == "" && LookupKey(c) in s.rounds
      && s.rounds[LookupKey(c)] == c.round.value.previous.(content := "summary")
      && applied.ok
      && Compensate(applied.store, c, applied.moved, Called(Stored), Stored).rounds != s.rounds
  {
    var previous := Round("n", "r", AwaitingCloseout, Some(Failed), Some(ReasonPrefix("s")), None, None, "");
    var target := Flow("f", "decl_graph_round", "", true, map[]);
    var source, replacement := Step("s", "worker", map[], None), Step("t", "worker", map[], Some("s"));
    c := Context("s", Some(RoundTarget("n", "r", previous)), None, target, source, replacement);
    s := Store(map[RoundKey("n", "r") := previous.(content := "summary")], map[]);
    assert CarriesMarker(s.rounds[LookupKey(c)], "s");
    var running := Reopened(s.rounds[LookupKey(c)]);
    assert Reopen(s, c, Stored) == (s.(rounds := s.rounds[LookupKey(c) := running]), true);
    assert s.rounds[LookupKey(c) := running][LookupKey(c)] == running;
    assert RoundWritten(s, c, Stored);
    RoundsRestoredIff(s, c, Stored, Called(Stored), None, Called(Stored));
  }

  // ----- whatever others wrote in between -----

  /** In any state, the compensator writes a binding only over the replacement agent and only back to the previous. */
  lemma BindingsNeverOverwritten(s: Store, c: Context, moved: Option<Replacement>, u: Update, w: Write,
                                 id: string, role: string)
    requires id in s.parents
    ensures id in Compensate(s, c, moved, u, w).parents
    ensures
      var before, after := s.parents[id], Compensate(s, c, moved, u, w).parents[id];
      && after == before.(bindings := after.bindings)
      && (Bound(after.bindings, role) != Bound(before.bindings, role) ==>
            && moved.Some? && id == moved.value.parentId && role == moved.value.role
            && Bound(before.bindings, role) == moved.value.replacement
            && Bound(after.bindings, role) == moved.value.previous)
  {
    CompensationsAreIndependent(s, c, moved, u, w);
  }

  lemma RoundRollbackWrites(s: Store, c: Context, w: Write)
    ensures RollbackRound(s, c, w).0.rounds == s.rounds ||
            (&& c.round.Some?
             && var key := RoundKey(c.round.value.node, c.round.value.previous.roundId);
             && key in s.rounds && s.rounds[key] == Reopened(c.round.value.previous)
             && RollbackRound(s, c, w).0.rounds == s.rounds[key := c.round.value.previous])
  {
  }

  /** In any state, the compensator writes a round only over exactly what reopening wrote. */
  lemma RoundsNeverOverwritten(s: Store, c: Context, moved: Option<Replacement>, u: Update, w: Write, key: RoundKey)
    ensures key in Compensate(s, c, moved, u, w).rounds <==> key in s.rounds
    ensures key in s.rounds && Compensate(s, c, moved, u, w).rounds[key] != s.rounds[key] ==>
              && c.round.Some? && s.rounds[key] == Reopened(c.round.value.previous)
              && Compensate(s, c, moved, u, w).rounds[key] == c.round.value.previous
  {
    CompensationsAreIndependent(s, c, moved, u, w);
    RoundRollbackWrites(s, c, w);
  }

  /** If the compensator reports no failure, both are back, whatever happened before and whichever writes failed. */
  lemma NoFailureMeansRestored(s: Store, c: Context, moved: Option<Replacement>, u: Update, w: Write)
    requires CompensationReportsNothing(s, c, moved, u, w)
    ensures
      var done := Compensate(s, c, moved, u, w);
      && (moved.Some? ==>
            && moved.value.parentId in done.parents
            && Bound(done.parents[moved.value.parentId].bindings, moved.value.role) == moved.value.previous)
      && (c.round.Some? ==>
            var previous := c.round.value.previous;
            && RoundKey(previous.nodePath, previous.roundId) in done.rounds
            && done.rounds[RoundKey(previous.nodePath, previous.roundId)] == previous)
  {
  }

  /** Compensating again after a compensation that reported no failure changes nothing. */
  lemma CompensationIsIdempotent(s: Store, c: Context, moved: Option<Replacement>, u: Update, w: Write,
                                 u': Update, w': Write)
    requires CompensationReportsNothing(s, c, moved, u, w)
    ensures Compensate(Compensate(s, c, moved, u, w), c, moved, u', w') == Compensate(s, c, moved, u, w)
  {
  }
}
