/** The delta part of `get_agent_live`: polls that feed each `next_cursor` back. */
module LiveView {
  import opened Ordering
  import opened Filtering
  import opened Base64Url
  import opened JsonText
  import opened LiveCursor
  import opened DeltaStream

  datatype Turn = Turn(id: int, finalText: Option<string>)

  datatype LiveSnapshot = LiveSnapshot(turns: seq<Turn>, events: seq<int>, toolCalls: seq<int>, status: Str)

  function Responses(s: LiveSnapshot): nat {
    |Filter((t: Turn) => t.finalText.Some?, s.turns)|
  }

  function CursorOf(s: LiveSnapshot): Cursor {
    Cursor(|s.turns|, |s.events|, |s.toolCalls|, Responses(s), s.status)
  }

  datatype Wake = OnActivity | OnStatus | OnResponse

  datatype View = View(deltaTurns: seq<Turn>, deltaEvents: seq<int>, deltaToolCalls: seq<int>, nextCursor: Str,
                       timedOut: bool)

  predicate Changed(wake: Wake, now: Cursor, baseline: Cursor) {
    match wake
    case OnActivity => now != baseline
    case OnStatus => now.status != baseline.status
    case OnResponse => now.responses != baseline.responses || now.status != baseline.status
  }

  /** One poll over the last snapshot it took; None stands for the `agent_live_cursor_invalid` failure. */
  function Poll(after: Option<Str>, s: LiveSnapshot, wake: Wake): Option<View> {
    var baseline := if after.Some? && after.value != [] then DecodeCursor(after.value) else None;
    if after.Some? && after.value != [] && baseline.None? then None
    else
      var start := if baseline.Some? then baseline.value else Cursor(0, 0, 0, 0, []);
      Some(View(Delta(s.turns, start.turns, 50), Delta(s.events, start.events, 100),
                Delta(s.toolCalls, start.toolCalls, 50),
                EncodeCursor(CursorOf(s)), baseline.Some? && !Changed(wake, CursorOf(s), baseline.value)))
  }

  /** Polls that feed each `next_cursor` back. */
  function Polls(after: Option<Str>, snapshots: seq<LiveSnapshot>, wake: Wake): Option<seq<View>>
    decreases |snapshots|
  {
    if snapshots == [] then Some([])
    else
      match Poll(after, snapshots[0], wake)
      case None => None
      case Some(view) =>
        match Polls(Some(view.nextCursor), snapshots[1..], wake)
        case None => None
        case Some(views) => Some([view] + views)
  }

  function TurnLogs(snapshots: seq<LiveSnapshot>): seq<seq<Turn>> {
    if snapshots == [] then [] else [snapshots[0].turns] + TurnLogs(snapshots[1..])
  }

  function EventLogs(snapshots: seq<LiveSnapshot>): seq<seq<int>> {
    if snapshots == [] then [] else [snapshots[0].events] + EventLogs(snapshots[1..])
  }

  function ToolCallLogs(snapshots: seq<LiveSnapshot>): seq<seq<int>> {
    if snapshots == [] then [] else [snapshots[0].toolCalls] + ToolCallLogs(snapshots[1..])
  }

  function DeliveredTurns(views: seq<View>): seq<seq<Turn>> {
    if views == [] then [] else [views[0].deltaTurns] + DeliveredTurns(views[1..])
  }

  function DeliveredEvents(views: seq<View>): seq<seq<int>> {
    if views == [] then [] else [views[0].deltaEvents] + DeliveredEvents(views[1..])
  }

  function DeliveredToolCalls(views: seq<View>): seq<seq<int>> {
    if views == [] then [] else [views[0].deltaToolCalls] + DeliveredToolCalls(views[1..])
  }

  /** Fed back, the cursor selects what was appended since it was issued. */
  lemma PollAfterCursor(prev: LiveSnapshot, s: LiveSnapshot, wake: Wake)
    ensures var v := Poll(Some(EncodeCursor(CursorOf(prev))), s, wake);
      && v.Some? && v.value.nextCursor == EncodeCursor(CursorOf(s))
      && v.value.deltaTurns == Delta(s.turns, |prev.turns|, 50)
      && v.value.deltaEvents == Delta(s.events, |prev.events|, 100)
      && v.value.deltaToolCalls == Delta(s.toolCalls, |prev.toolCalls|, 50)
      && v.value.timedOut == !Changed(wake, CursorOf(s), CursorOf(prev).(status := Joined(prev.status)))
  {
    CursorRoundTrip(CursorOf(prev));
    CursorNotEmpty(CursorOf(prev));
  }

  lemma {:induction false} PollsAfterCursor(prev: LiveSnapshot, snapshots: seq<LiveSnapshot>, wake: Wake)
    ensures var r := Polls(Some(EncodeCursor(CursorOf(prev))), snapshots, wake);
      && r.Some?
      && DeliveredTurns(r.value) == Deltas(|prev.turns|, TurnLogs(snapshots), 50)
      && DeliveredEvents(r.value) == Deltas(|prev.events|, EventLogs(snapshots), 100)
      && DeliveredToolCalls(r.value) == Deltas(|prev.toolCalls|, ToolCallLogs(snapshots), 50)
    decreases |snapshots|
  {
    if snapshots != [] {
      var s := snapshots[0];
      PollAfterCursor(prev, s, wake);
      PollsAfterCursor(s, snapshots[1..], wake);
      var view := Poll(Some(EncodeCursor(CursorOf(prev))), s, wake).value;
      var views := Polls(Some(view.nextCursor), snapshots[1..], wake).value;
      assert ([view] + views)[1..] == views;
      LogTails(snapshots);
    }
  }

  lemma LogTails(snapshots: seq<LiveSnapshot>)
    requires snapshots != []
    ensures TurnLogs(snapshots)[1..] == TurnLogs(snapshots[1..])
    ensures EventLogs(snapshots)[1..] == EventLogs(snapshots[1..])
    ensures ToolCallLogs(snapshots)[1..] == ToolCallLogs(snapshots[1..])
  {
  }

  /** Every run of polls succeeds, through the real cursors, and delivers the three delta streams. */
  lemma PollsDeliverDeltas(snapshots: seq<LiveSnapshot>, wake: Wake)
    ensures var r := Polls(None, snapshots, wake);
      && r.Some?
      && DeliveredTurns(r.value) == Deltas(0, TurnLogs(snapshots), 50)
      && DeliveredEvents(r.value) == Deltas(0, EventLogs(snapshots), 100)
      && DeliveredToolCalls(r.value) == Deltas(0, ToolCallLogs(snapshots), 50)
  {
    if snapshots != [] {
      PollsAfterCursor(snapshots[0], snapshots[1..], wake);
      var view := Poll(None, snapshots[0], wake).value;
      var views := Polls(Some(view.nextCursor), snapshots[1..], wake).value;
      assert ([view] + views)[1..] == views;
      LogTails(snapshots);
    }
  }

  /** On append-only logs every poll delivers the newest of the new items, and no item is delivered twice. */
  lemma EverythingDeliveredOnce(snapshots: seq<LiveSnapshot>, wake: Wake)
    requires AppendOnly(0, TurnLogs(snapshots)) && AppendOnly(0, EventLogs(snapshots))
    requires AppendOnly(0, ToolCallLogs(snapshots))
    ensures var r := Polls(None, snapshots, wake);
      && r.Some?
      && DeliveredOnce(0, TurnLogs(snapshots), DeliveredTurns(r.value), 50)
      && DeliveredOnce(0, EventLogs(snapshots), DeliveredEvents(r.value), 100)
      && DeliveredOnce(0, ToolCallLogs(snapshots), DeliveredToolCalls(r.value), 50)
  {
    PollsDeliverDeltas(snapshots, wake);
    DeltasDeliverOnce(0, TurnLogs(snapshots), 50);
    DeltasDeliverOnce(0, EventLogs(snapshots), 100);
    DeltasDeliverOnce(0, ToolCallLogs(snapshots), 50);
  }

  /** When no poll finds more new turns than its cap, the delivered turns together are the whole log. */
  lemma TurnsAddUp(snapshots: seq<LiveSnapshot>, wake: Wake)
    requires snapshots != [] && AppendOnly(0, TurnLogs(snapshots)) && WithinCap(0, TurnLogs(snapshots), 50)
    ensures Polls(None, snapshots, wake).Some?
    ensures Flatten(DeliveredTurns(Polls(None, snapshots, wake).value)) == snapshots[|snapshots| - 1].turns
  {
    PollsDeliverDeltas(snapshots, wake);
    DeltasAddUp(0, TurnLogs(snapshots), 50);
    LogAt(snapshots, |snapshots| - 1);
  }

  lemma EventsAddUp(snapshots: seq<LiveSnapshot>, wake: Wake)
    requires snapshots != [] && AppendOnly(0, EventLogs(snapshots)) && WithinCap(0, EventLogs(snapshots), 100)
    ensures Polls(None, snapshots, wake).Some?
    ensures Flatten(DeliveredEvents(Polls(None, snapshots, wake).value)) == snapshots[|snapshots| - 1].events
  {
    PollsDeliverDeltas(snapshots, wake);
    DeltasAddUp(0, EventLogs(snapshots), 100);
    LogAt(snapshots, |snapshots| - 1);
  }

  lemma ToolCallsAddUp(snapshots: seq<LiveSnapshot>, wake: Wake)
    requires snapshots != [] && AppendOnly(0, ToolCallLogs(snapshots)) && WithinCap(0, ToolCallLogs(snapshots), 50)
    ensures Polls(None, snapshots, wake).Some?
    ensures Flatten(DeliveredToolCalls(Polls(None, snapshots, wake).value)) == snapshots[|snapshots| - 1].toolCalls
  {
    PollsDeliverDeltas(snapshots, wake);
    DeltasAddUp(0, ToolCallLogs(snapshots), 50);
    LogAt(snapshots, |snapshots| - 1);
  }

  lemma {:induction false} LogAt(snapshots: seq<LiveSnapshot>, i: nat)
    requires i < |snapshots|
    ensures |TurnLogs(snapshots)| == |EventLogs(snapshots)| == |ToolCallLogs(snapshots)| == |snapshots|
    ensures TurnLogs(snapshots)[i] == snapshots[i].turns
    ensures EventLogs(snapshots)[i] == snapshots[i].events
    ensures ToolCallLogs(snapshots)[i] == snapshots[i].toolCalls
  {
    if |snapshots| > 1 {
      LogAt(snapshots[1..], if i > 0 then i - 1 else 0);
    }
  }

  /** An activity poll that times out delivers nothing. */
  lemma TimedOutActivityPollIsEmpty(prev: LiveSnapshot, s: LiveSnapshot)
    ensures var v := Poll(Some(EncodeCursor(CursorOf(prev))), s, OnActivity);
      && v.Some?
      && (v.value.timedOut ==>
            v.value.deltaTurns == [] && v.value.deltaEvents == [] && v.value.deltaToolCalls == [])
  {
    PollAfterCursor(prev, s, OnActivity);
  }

  /** On an unchanged agent a poll reports no change exactly when the status survives the cursor. */
  lemma QuietPollTimesOutIff(s: LiveSnapshot, wake: Wake)
    ensures var v := Poll(Some(EncodeCursor(CursorOf(s))), s, wake);
      v.Some? && (v.value.timedOut <==> !HasSplitPair(s.status))
  {
    PollAfterCursor(s, s, wake);
    JoinedIff(s.status);
  }

  /** No cursor, or an empty one: the newest items from the start, and never a time-out. */
  lemma PollWithoutCursor(after: Option<Str>, s: LiveSnapshot, wake: Wake)
    requires after == None || after == Some([])
    ensures Poll(after, s, wake) ==
            Some(View(Delta(s.turns, 0, 50), Delta(s.events, 0, 100), Delta(s.toolCalls, 0, 50),
                      EncodeCursor(CursorOf(s)), false))
  {
  }

  /** A poll fails exactly on a non-empty cursor that does not decode. */
  lemma PollFailsIff(after: Option<Str>, s: LiveSnapshot, wake: Wake)
    ensures Poll(after, s, wake) == None <==> after.Some? && after.value != [] && DecodeCursor(after.value) == None
  {
  }

  ghost function FinishedTurns(s: LiveSnapshot): set<int> {
    set i | 0 <= i < |s.turns| && s.turns[i].finalText.Some?
  }

  lemma ResponsesAreFinishedTurns(s: LiveSnapshot)
    ensures Responses(s) == |FinishedTurns(s)|
  {
    var p := (t: Turn) => t.finalText.Some?;
    FilterPositions(p, s.turns);
    assert Positions(p, s.turns) == FinishedTurns(s);
  }

  /** What each kind of wait waits for, since the snapshot its cursor was issued for. */
  lemma TimesOutIff(prev: LiveSnapshot, s: LiveSnapshot, wake: Wake)
    requires !HasSplitPair(prev.status)
    ensures var v := Poll(Some(EncodeCursor(CursorOf(prev))), s, wake);
      && v.Some?
      && (v.value.timedOut <==>
            && s.status == prev.status
            && (wake == OnResponse || wake == OnActivity ==> |FinishedTurns(s)| == |FinishedTurns(prev)|)
            && (wake == OnActivity ==>
                  && |s.turns| == |prev.turns| && |s.events| == |prev.events|
                  && |s.toolCalls| == |prev.toolCalls|))
  {
    PollAfterCursor(prev, s, wake);
    JoinedIff(prev.status);
    ResponsesAreFinishedTurns(s);
    ResponsesAreFinishedTurns(prev);
  }
}
