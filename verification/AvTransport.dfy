/** The AVTransport service over its table of variables, next to the output module.
    Each event - an action handler's locked section, a message of the player, a
    key, the beginning and end of an action - is a list of collector operations
    and a new state of transport and output. Renderer.dfy proves the handlers to
    do just that. */
module AvTransport {
  import opened Options
  import opened LastChange
  import opened ChangeLog
  import opened SilanOutput
  import TransportNames
  import UpnpTime
  import Watchdog

  // ---- Variables ----

  const NEXT_AV_URI := 1
  const NEXT_AV_URI_META := 2
  const CUR_TRACK_META := 3
  const REL_CTR_POS := 4
  const REL_TIME_POS := 8
  const ABS_TIME_POS := 13
  const CUR_TRACK := 14
  const CUR_TRACK_URI := 15
  const CUR_TRANSPORT_ACTIONS := 16
  const NR_TRACKS := 17
  const AV_URI := 18
  const ABS_CTR_POS := 19
  const AV_URI_META := 23
  const LAST_CHANGE := 26
  const CUR_TRACK_DUR := 27
  const TRANSPORT_STATE := 28
  const UNKNOWN := 30
  const COUNT := 31

  const ZERO_TIME := "0:00:00"

  datatype TransportState =
    Stopped | Playing | Transitioning | PausedPlayback | PausedRecording | Recording | NoMediaPresent

  function StateName(st: TransportState): string {
    match st
    case Stopped => "STOPPED"
    case Playing => "PLAYING"
    case Transitioning => "TRANSITIONING"
    case PausedPlayback => "PAUSED_PLAYBACK"
    case PausedRecording => "PAUSED_RECORDING"
    case Recording => "RECORDING"
    case NoMediaPresent => "NO_MEDIA_PRESENT"
  }

  function AvailableActions(st: TransportState): Option<string> {
    match st
    case Stopped => Some("PLAY")
    case Playing => Some("PAUSE,STOP,SEEK")
    case PausedPlayback => Some("PLAY,STOP")
    case _ => None
  }

  /** The number of tracks that goes with a URI. */
  function Tracks(uri: Value): Value {
    Text(if uri == Text("") then "0" else "1")
  }

  // ---- The system ----

  datatype Sys = Sys(table: State, state: TransportState, out: Silan)

  /** The table is the one of this service, with a collector attached. */
  ghost predicate TransportTable(s: State) {
    && WellFormed(s) && s.names == TransportNames.Names()
    && s.lastChange == LAST_CHANGE
    && s.ignored == {REL_CTR_POS, REL_TIME_POS, ABS_TIME_POS, ABS_CTR_POS, LAST_CHANGE}
  }

  // ---- Changes made by the handlers ----

  function UriWrites(uri: Value, meta: Value): seq<Op> {
    [Write(AV_URI, uri), Write(AV_URI_META, meta), Write(NR_TRACKS, Tracks(uri))]
  }

  function CurrentWrites(uri: Value, meta: Value): seq<Op> {
    [Write(CUR_TRACK, Tracks(uri)), Write(CUR_TRACK_URI, uri), Write(CUR_TRACK_META, meta)]
  }

  /** The actions are left alone when the state's name did not change. */
  function StateWrites(values: seq<Value>, st: TransportState): seq<Op>
    requires |values| == COUNT
  {
    var name := Text(StateName(st));
    if values[TRANSPORT_STATE] == name || AvailableActions(st).None? then [Write(TRANSPORT_STATE, name)]
    else [Write(TRANSPORT_STATE, name), Write(CUR_TRANSPORT_ACTIONS, Text(AvailableActions(st).value))]
  }

  function TimeWrites(duration: int, position: int): seq<Op> {
    [Write(CUR_TRACK_DUR, Text(UpnpTime.Print(duration))), Write(REL_TIME_POS, Text(UpnpTime.Print(position)))]
  }

  /** A locked section: the level is raised and lowered around the changes. */
  function Section(writes: seq<Op>): seq<Op> {
    [Begin] + writes + [End]
  }

  function FeedbackWrites(values: seq<Value>, fb: Feedback): seq<Op>
    requires |values| == COUNT
  {
    match fb
    case PlayStopped =>
      UriWrites(Text(""), Text("")) + CurrentWrites(Text(""), Text("")) + StateWrites(values, Stopped)
    case PlayStartedNextStream =>
      var uri, meta := values[NEXT_AV_URI], values[NEXT_AV_URI_META];
      UriWrites(uri, meta) + CurrentWrites(uri, meta)
      + [Write(NEXT_AV_URI, Text("")), Write(NEXT_AV_URI_META, Text(""))]
  }

  // ---- Events ----

  datatype Event =
    | ActionBegins
    | ActionEnds
    | SetUri(uri: string, meta: Option<string>)
    | SetNextUri(uri: string, meta: Option<string>)
    | Stop(ok: bool)
    | Play(ok: bool)
    | Pause(ok: bool)
    | Seek(target: string, ok: bool)
    | UpdateTime(reply: Option<int>, ok: bool)
    | PlayStateMessage(state: int, ok: bool)
    | TimePosMessage(position: int)
    | TotalTimeMessage(duration: int)
    | RadioKey(ok: bool)
    | IdleTick(counters: Watchdog.Counters, locked: bool, ok: bool)

  predicate Starting(y: Sys, ok: bool) {
    (y.state == Stopped || y.state == PausedPlayback) && PlaySucceeds(y.out, ok)
  }

  /** A stopped transport starts its track time over. */
  function RestartWrites(st: TransportState): seq<Op> {
    if st == Stopped then [Write(REL_TIME_POS, Text(ZERO_TIME))] else []
  }

  function PlayWrites(y: Sys, ok: bool): seq<Op>
    requires |y.table.values| == COUNT
  {
    var values := y.table.values;
    RestartWrites(y.state) +
    if Starting(y, ok) then StateWrites(values, Playing) + CurrentWrites(values[AV_URI], values[AV_URI_META]) else []
  }

  /** The changes inside the locked section of an event; None for one without. */
  function WritesOf(y: Sys, e: Event): Option<seq<Op>>
    requires |y.table.values| == COUNT
  {
    var values := y.table.values;
    match e
    case SetUri(uri, meta) =>
      var u, m := Text(uri), Text(meta.GetOr(""));
      Some(UriWrites(u, m) + if y.state == Playing then CurrentWrites(u, m) else [])
    case SetNextUri(uri, meta) =>
      Some([Write(NEXT_AV_URI, Text(uri))] + if meta.Some? then [Write(NEXT_AV_URI_META, Text(meta.value))] else [])
    case Stop(_) =>
      Some(if y.state == Stopped || y.state == NoMediaPresent then [] else StateWrites(values, Stopped))
    case Play(ok) =>
      Some(PlayWrites(y, ok))
    case Pause(ok) =>
      Some(if y.state == Playing && ok then StateWrites(values, PausedPlayback) else [])
    case Seek(target, ok) =>
      Some(if ok then [Write(REL_TIME_POS, Text(target))] else [])
    case UpdateTime(reply, _) =>
      Some(TimeWrites(y.out.duration, reply.GetOr(y.out.position)))
    case PlayStateMessage(state, _) =>
      var fb := FeedbackOn(y.out, state);
      if fb.None? then None else Some(FeedbackWrites(values, fb.value))
    case RadioKey(_) => Some(FeedbackWrites(values, PlayStopped))
    case _ => None
  }

  function OpsOf(y: Sys, e: Event): seq<Op>
    requires |y.table.values| == COUNT
  {
    match e
    case ActionBegins => [Begin]
    case ActionEnds => [End]
    case _ =>
      var writes := WritesOf(y, e);
      if writes.None? then [] else Section(writes.value)
  }

  function StateAfter(y: Sys, e: Event): TransportState {
    match e
    case Stop(_) => if y.state == NoMediaPresent then y.state else Stopped
    case Play(ok) => if Starting(y, ok) then Playing else y.state
    case Pause(ok) => if y.state == Playing && ok then PausedPlayback else y.state
    case PlayStateMessage(state, _) => if FeedbackOn(y.out, state) == Some(PlayStopped) then Stopped else y.state
    case RadioKey(_) => Stopped
    case _ => y.state
  }

  function OutAfter(y: Sys, e: Event): Silan {
    match e
    case SetUri(uri, _) => y.out.(uri := NonEmpty(uri))
    case SetNextUri(uri, _) => y.out.(uriNext := NonEmpty(uri))
    case Stop(ok) => if y.state == Stopped || y.state == NoMediaPresent then y.out else Send(y.out, StopPlaying, ok)
    case Play(ok) => if y.state == Stopped || y.state == PausedPlayback then AfterPlay(y.out, ok) else y.out
    case Pause(ok) => if y.state == Playing then Send(y.out, TogglePause, ok) else y.out
    case Seek(target, ok) => Send(y.out, SeekTo(UpnpTime.Parse(target)), ok)
    case UpdateTime(reply, ok) => Send(y.out, GetTimePos, ok).(position := reply.GetOr(y.out.position))
    case PlayStateMessage(state, ok) => AfterPlayState(y.out, state, ok)
    case TimePosMessage(p) => y.out.(position := p)
    case TotalTimeMessage(d) => y.out.(duration := d)
    case RadioKey(ok) => AfterSetSpdifIn(y.out, ok)
    case IdleTick(c, locked, ok) => Watchdog.AfterTurn(y.out, c, Watchdog.Idle(locked, ok)).0
    case _ => y.out
  }

  predicate Enabled(y: Sys, e: Event) {
    e.ActionEnds? ==> y.table.open >= 1
  }

  // ---- Sections are legal runs of the collector ----

  ghost predicate PlainWrites(ops: seq<Op>) {
    forall i :: 0 <= i < |ops| ==> ops[i].Write? && ops[i].v < UNKNOWN && ops[i].v != LAST_CHANGE
  }

  lemma {:induction false} WritesAreLegal(s: State, ops: seq<Op>)
    requires TransportTable(s) && PlainWrites(ops)
    ensures Legal(s, ops) && TransportTable(Run(s, ops)) && Run(s, ops).open == s.open
    ensures s.open > 0 ==> Run(s, ops).sent == s.sent
    decreases |ops|
  {
    if ops != [] {
      assert Allowed(s, ops[0]);
      WritesAreLegal(Step(s, ops[0]), ops[1..]);
    }
  }

  /** A locked section returns to the level it started from, and sends nothing
      if that is inside an action. */
  lemma SectionIsLegal(s: State, writes: seq<Op>)
    requires TransportTable(s) && PlainWrites(writes)
    ensures Legal(s, Section(writes)) && TransportTable(Run(s, Section(writes)))
    ensures Run(s, Section(writes)).open == s.open
    ensures s.open > 0 ==> Run(s, Section(writes)).sent == s.sent
  {
    var s1 := Step(s, Begin);
    assert Section(writes)[0] == Begin && Section(writes)[1..] == writes + [End];
    WritesAreLegal(s1, writes);
    var s2 := Run(s1, writes);
    RunConcat(s1, writes, [End]);
    assert Run(s2, [End]) == Step(s2, End);
  }

  /** The table after the changes of a locked section, before it is left. */
  ghost function Written(s: State, ops: seq<Op>): State
    requires TransportTable(s) && PlainWrites(ops)
    ensures TransportTable(Written(s, ops))
  {
    WritesAreLegal(s, ops);
    Run(s, ops)
  }

  lemma WrittenConcat(s: State, a: seq<Op>, b: seq<Op>)
    requires TransportTable(s) && PlainWrites(a) && PlainWrites(b)
    ensures PlainWrites(a + b) && Written(s, a + b) == Written(Written(s, a), b)
  {
    WritesAreLegal(s, a);
    WritesAreLegal(s, a + b);
    RunConcat(s, a, b);
  }

  lemma WrittenOne(s: State, v: nat, x: Value)
    requires TransportTable(s) && v < UNKNOWN && v != LAST_CHANGE
    ensures PlainWrites([Write(v, x)]) && Allowed(s, Write(v, x))
    ensures Written(s, [Write(v, x)]) == Step(s, Write(v, x))
  {
    var ops := [Write(v, x)];
    WritesAreLegal(s, ops);
    assert ops[0] == Write(v, x) && ops[1..] == [];
    assert Run(s, ops) == Run(Step(s, ops[0]), ops[1..]);
  }

  lemma SectionIsBracketed(s: State, writes: seq<Op>)
    requires TransportTable(s) && PlainWrites(writes)
    ensures Legal(s, Section(writes)) && Written(Start(s), writes).open >= 1
    ensures Run(s, Section(writes)) == Finish(Written(Start(s), writes))
  {
    var s1 := Step(s, Begin);
    assert Section(writes)[0] == Begin && Section(writes)[1..] == writes + [End];
    WritesAreLegal(s1, writes);
    RunConcat(s1, writes, [End]);
    assert [End][1..] == [];
  }

  lemma PlainParts(uri: Value, meta: Value, values: seq<Value>, st: TransportState, a: seq<Op>)
    requires |values| == COUNT && PlainWrites(a)
    ensures PlainWrites(UriWrites(uri, meta)) && PlainWrites(CurrentWrites(uri, meta))
    ensures PlainWrites(StateWrites(values, st))
    ensures PlainWrites(a + CurrentWrites(uri, meta))
    ensures PlainWrites(a + StateWrites(values, st))
  {
  }

  lemma WritesArePlain(y: Sys, e: Event)
    requires |y.table.values| == COUNT && WritesOf(y, e).Some?
    ensures PlainWrites(WritesOf(y, e).value)
  {
    var values := y.table.values;
    match e
    case SetUri(uri, meta) =>
      var u, m := Text(uri), Text(meta.GetOr(""));
      PlainParts(u, m, values, Stopped, []);
      PlainParts(u, m, values, Stopped, UriWrites(u, m));
    case Play(_) =>
      var u, m := values[AV_URI], values[AV_URI_META];
      var rel := RestartWrites(y.state);
      PlainParts(u, m, values, Playing, []);
      PlainParts(u, m, values, Playing, StateWrites(values, Playing));
      assert PlainWrites(rel + (StateWrites(values, Playing) + CurrentWrites(u, m)));
    case PlayStateMessage(state, _) => FeedbackIsPlain(values, FeedbackOn(y.out, state).value);
    case RadioKey(_) => FeedbackIsPlain(values, PlayStopped);
    case _ =>
      PlainParts(Text(""), Text(""), values, StateAfter(y, e), []);
  }

  lemma FeedbackIsPlain(values: seq<Value>, fb: Feedback)
    requires |values| == COUNT
    ensures PlainWrites(FeedbackWrites(values, fb))
  {
  }

  /** An event is a legal run of the collector, and sends nothing inside an action. */
  lemma EventIsLegal(y: Sys, e: Event)
    requires TransportTable(y.table) && Enabled(y, e)
    ensures Legal(y.table, OpsOf(y, e)) && TransportTable(Run(y.table, OpsOf(y, e)))
    ensures var t := Run(y.table, OpsOf(y, e)); t.open > 0 ==> t.sent == y.table.sent
  {
    if e.ActionBegins? {
      assert Run(y.table, [Begin]) == Step(y.table, Begin);
    } else if e.ActionEnds? {
      assert Run(y.table, [End]) == Step(y.table, End);
    } else if WritesOf(y, e).Some? {
      WritesArePlain(y, e);
      SectionIsLegal(y.table, WritesOf(y, e).value);
    }
  }

  ghost function Next(y: Sys, e: Event): Sys
    requires TransportTable(y.table) && Enabled(y, e)
    ensures TransportTable(Next(y, e).table)
  {
    EventIsLegal(y, e);
    Sys(Run(y.table, OpsOf(y, e)), StateAfter(y, e), OutAfter(y, e))
  }

  // ---- The invariants of the transport ----

  /** What holds between the variables whenever the service mutex is free. */
  ghost predicate TransportInv(values: seq<Value>, st: TransportState) {
    && |values| == COUNT
    && st in {Stopped, Playing, PausedPlayback}
    && values[TRANSPORT_STATE] == Text(StateName(st))
    && values[CUR_TRANSPORT_ACTIONS] == Text(AvailableActions(st).value)
    && values[NR_TRACKS] == Tracks(values[AV_URI])
    && values[CUR_TRACK] == Tracks(values[CUR_TRACK_URI])
    && (st == Playing ==>
          && values[CUR_TRACK_URI] == values[AV_URI]
          && values[CUR_TRACK_META] == values[AV_URI_META]
          && values[CUR_TRACK] == values[NR_TRACKS])
  }

  /** The output holds the next URI exactly if the variable is not empty. */
  ghost predicate NextUriRefined(values: seq<Value>, out: Silan) {
    && |values| == COUNT
    && out.uriNext != Some("")
    && values[NEXT_AV_URI] == Text(out.uriNext.GetOr(""))
  }

  ghost predicate SysInv(y: Sys) {
    && TransportTable(y.table) && Inv(y.table)
    && TransportInv(y.table.values, y.state)
    && NextUriRefined(y.table.values, y.out)
  }

  lemma {:induction false} PlainConcat(values: seq<Value>, a: seq<Op>, b: seq<Op>)
    ensures PlainTable(values, a + b) == PlainTable(PlainTable(values, a), b)
    decreases |a|
  {
    if a == [] {
      assert a + b == b;
    } else {
      assert (a + b)[0] == a[0] && (a + b)[1..] == a[1..] + b;
      PlainConcat(Overwrite(values, a[0]), a[1..], b);
    }
  }

  lemma PlainUri(values: seq<Value>, uri: Value, meta: Value)
    requires |values| == COUNT
    ensures PlainTable(values, UriWrites(uri, meta))
         == values[AV_URI := uri][AV_URI_META := meta][NR_TRACKS := Tracks(uri)]
  {
    PlainTwo(values, AV_URI, uri, AV_URI_META, meta);
    PlainOne(values[AV_URI := uri][AV_URI_META := meta], NR_TRACKS, Tracks(uri));
    PlainConcat(values, [Write(AV_URI, uri), Write(AV_URI_META, meta)], [Write(NR_TRACKS, Tracks(uri))]);
    assert UriWrites(uri, meta) == [Write(AV_URI, uri), Write(AV_URI_META, meta)] + [Write(NR_TRACKS, Tracks(uri))];
  }

  lemma PlainCurrent(values: seq<Value>, uri: Value, meta: Value)
    requires |values| == COUNT
    ensures PlainTable(values, CurrentWrites(uri, meta))
         == values[CUR_TRACK := Tracks(uri)][CUR_TRACK_URI := uri][CUR_TRACK_META := meta]
  {
    var tracks := Tracks(uri);
    PlainTwo(values, CUR_TRACK, tracks, CUR_TRACK_URI, uri);
    PlainOne(values[CUR_TRACK := tracks][CUR_TRACK_URI := uri], CUR_TRACK_META, meta);
    PlainConcat(values, [Write(CUR_TRACK, tracks), Write(CUR_TRACK_URI, uri)], [Write(CUR_TRACK_META, meta)]);
    assert CurrentWrites(uri, meta)
        == [Write(CUR_TRACK, tracks), Write(CUR_TRACK_URI, uri)] + [Write(CUR_TRACK_META, meta)];
  }

  lemma PlainOne(values: seq<Value>, v: nat, x: Value)
    requires v < |values|
    ensures PlainTable(values, [Write(v, x)]) == values[v := x]
  {
  }

  lemma PlainTwo(values: seq<Value>, v: nat, x: Value, w: nat, y: Value)
    requires v < |values| && w < |values|
    ensures PlainTable(values, [Write(v, x), Write(w, y)]) == values[v := x][w := y]
  {
    assert [Write(v, x), Write(w, y)][1..] == [Write(w, y)];
    PlainOne(values[v := x], w, y);
  }

  /** Changing the state keeps its name and the available actions in step. */
  lemma PlainState(values: seq<Value>, before: TransportState, after: TransportState, checked: seq<Value>)
    requires |values| == |checked| == COUNT
    requires before in {Stopped, Playing, PausedPlayback} && after in {Stopped, Playing, PausedPlayback}
    requires values[TRANSPORT_STATE] == checked[TRANSPORT_STATE] == Text(StateName(before))
    requires values[CUR_TRANSPORT_ACTIONS] == Text(AvailableActions(before).value)
    ensures PlainTable(values, StateWrites(checked, after))
         == values[TRANSPORT_STATE := Text(StateName(after))]
                  [CUR_TRANSPORT_ACTIONS := Text(AvailableActions(after).value)]
  {
    StateNamesDiffer(before, after);
    var name := Text(StateName(after));
    PlainOne(values, TRANSPORT_STATE, name);
    PlainTwo(values, TRANSPORT_STATE, name, CUR_TRANSPORT_ACTIONS, Text(AvailableActions(after).value));
  }

  lemma StateNamesDiffer(a: TransportState, b: TransportState)
    requires a in {Stopped, Playing, PausedPlayback} && b in {Stopped, Playing, PausedPlayback}
    ensures StateName(a) == StateName(b) <==> a == b
  {
  }

  lemma PlainFeedback(values: seq<Value>, st: TransportState, out: Silan, fb: Feedback)
    requires TransportInv(values, st) && NextUriRefined(values, out)
    ensures var after := PlainTable(values, FeedbackWrites(values, fb));
            && TransportInv(after, if fb.PlayStopped? then Stopped else st)
            && (fb.PlayStopped? ==> after[NEXT_AV_URI] == values[NEXT_AV_URI])
            && (fb.PlayStartedNextStream? ==>
                && after[NEXT_AV_URI] == Text("")
                && after[AV_URI] == after[CUR_TRACK_URI] == values[NEXT_AV_URI]
                && after[AV_URI_META] == after[CUR_TRACK_META] == values[NEXT_AV_URI_META])
  {
    var uri := if fb.PlayStopped? then Text("") else values[NEXT_AV_URI];
    var meta := if fb.PlayStopped? then Text("") else values[NEXT_AV_URI_META];
    var a, b := UriWrites(uri, meta), CurrentWrites(uri, meta);
    var rest := if fb.PlayStopped? then StateWrites(values, Stopped)
                else [Write(NEXT_AV_URI, Text("")), Write(NEXT_AV_URI_META, Text(""))];
    assert FeedbackWrites(values, fb) == a + b + rest;
    PlainConcat(values, a + b, rest);
    PlainConcat(values, a, b);
    PlainUri(values, uri, meta);
    var v1 := PlainTable(values, a);
    PlainCurrent(v1, uri, meta);
    var v2 := PlainTable(v1, b);
    if fb.PlayStopped? {
      PlainState(v2, st, Stopped, values);
    } else {
      PlainTwo(v2, NEXT_AV_URI, Text(""), NEXT_AV_URI_META, Text(""));
    }
  }

  lemma PlainPlay(y: Sys, ok: bool)
    requires TransportInv(y.table.values, y.state) && Starting(y, ok)
    ensures TransportInv(PlainTable(y.table.values, WritesOf(y, Play(ok)).value), Playing)
    ensures PlainTable(y.table.values, WritesOf(y, Play(ok)).value)[NEXT_AV_URI] == y.table.values[NEXT_AV_URI]
  {
    var values := y.table.values;
    var a := RestartWrites(y.state);
    var b := StateWrites(values, Playing);
    var c := CurrentWrites(values[AV_URI], values[AV_URI_META]);
    PlainConcat(values, a, b + c);
    PlainOne(values, REL_TIME_POS, Text(ZERO_TIME));
    var v1 := PlainTable(values, a);
    PlainConcat(v1, b, c);
    PlainState(v1, y.state, Playing, values);
    PlainCurrent(PlainTable(v1, b), values[AV_URI], values[AV_URI_META]);
  }

  lemma PlainSetUri(y: Sys, uri: string, meta: Option<string>)
    requires TransportInv(y.table.values, y.state)
    ensures var after := PlainTable(y.table.values, WritesOf(y, SetUri(uri, meta)).value);
            TransportInv(after, y.state) && after[NEXT_AV_URI] == y.table.values[NEXT_AV_URI]
  {
    var values := y.table.values;
    var u, m := Text(uri), Text(meta.GetOr(""));
    PlainUri(values, u, m);
    var v1 := PlainTable(values, UriWrites(u, m));
    PlainConcat(values, UriWrites(u, m), CurrentWrites(u, m));
    PlainCurrent(v1, u, m);
    assert UriWrites(u, m) + [] == UriWrites(u, m);
  }

  lemma PlainStateOnly(values: seq<Value>, before: TransportState, after: TransportState)
    requires TransportInv(values, before) && after in {Stopped, PausedPlayback}
    ensures var t := PlainTable(values, StateWrites(values, after));
            TransportInv(t, after) && t[NEXT_AV_URI] == values[NEXT_AV_URI]
  {
    PlainState(values, before, after, values);
  }

  lemma PlainTimes(values: seq<Value>, st: TransportState, duration: Value, position: Value)
    requires TransportInv(values, st)
    ensures var t := PlainTable(values, [Write(CUR_TRACK_DUR, duration), Write(REL_TIME_POS, position)]);
            TransportInv(t, st) && t[NEXT_AV_URI] == values[NEXT_AV_URI]
    ensures var t := PlainTable(values, [Write(REL_TIME_POS, position)]);
            TransportInv(t, st) && t[NEXT_AV_URI] == values[NEXT_AV_URI]
  {
    PlainTwo(values, CUR_TRACK_DUR, duration, REL_TIME_POS, position);
    PlainOne(values, REL_TIME_POS, position);
  }

  lemma PlainSetNext(values: seq<Value>, st: TransportState, uri: Value, meta: Value)
    requires TransportInv(values, st)
    ensures var t := PlainTable(values, [Write(NEXT_AV_URI, uri), Write(NEXT_AV_URI_META, meta)]);
            TransportInv(t, st) && t[NEXT_AV_URI] == uri
    ensures var t := PlainTable(values, [Write(NEXT_AV_URI, uri)]);
            TransportInv(t, st) && t[NEXT_AV_URI] == uri
  {
    PlainTwo(values, NEXT_AV_URI, uri, NEXT_AV_URI_META, meta);
    PlainOne(values, NEXT_AV_URI, uri);
  }

  function NextUriAfter(y: Sys, e: Event): Value
    requires |y.table.values| == COUNT
  {
    match e
    case SetNextUri(uri, _) => Text(uri)
    case PlayStateMessage(state, _) =>
      if FeedbackOn(y.out, state) == Some(PlayStartedNextStream) then Text("") else y.table.values[NEXT_AV_URI]
    case _ => y.table.values[NEXT_AV_URI]
  }

  lemma UriEventsKeepInv(y: Sys, e: Event)
    requires TransportInv(y.table.values, y.state) && (e.SetUri? || e.SetNextUri?)
    ensures var after := PlainTable(y.table.values, WritesOf(y, e).value);
            TransportInv(after, StateAfter(y, e)) && after[NEXT_AV_URI] == NextUriAfter(y, e)
  {
    match e
    case SetUri(uri, meta) => PlainSetUri(y, uri, meta);
    case SetNextUri(uri, meta) =>
      var first := [Write(NEXT_AV_URI, Text(uri))];
      assert first + [] == first;
      PlainSetNext(y.table.values, y.state, Text(uri), Text(meta.GetOr("")));
      if meta.Some? {
        assert first + [Write(NEXT_AV_URI_META, Text(meta.value))]
            == [Write(NEXT_AV_URI, Text(uri)), Write(NEXT_AV_URI_META, Text(meta.value))];
      }
  }

  lemma PlayKeepsInv(y: Sys, ok: bool)
    requires TransportInv(y.table.values, y.state)
    ensures var after := PlainTable(y.table.values, PlayWrites(y, ok));
            && TransportInv(after, if Starting(y, ok) then Playing else y.state)
            && after[NEXT_AV_URI] == y.table.values[NEXT_AV_URI]
  {
    if Starting(y, ok) {
      PlainPlay(y, ok);
    } else {
      var first := RestartWrites(y.state);
      assert PlayWrites(y, ok) == first + [] == first;
      PlainTimes(y.table.values, y.state, Text(""), Text(ZERO_TIME));
    }
  }

  /** The changes of every event keep the variables consistent with each other. */
  lemma WritesKeepInv(y: Sys, e: Event)
    requires TransportInv(y.table.values, y.state) && NextUriRefined(y.table.values, y.out)
    requires WritesOf(y, e).Some?
    ensures var after := PlainTable(y.table.values, WritesOf(y, e).value);
            TransportInv(after, StateAfter(y, e)) && after[NEXT_AV_URI] == NextUriAfter(y, e)
  {
    var values := y.table.values;
    match e
    case SetUri(_, _) => UriEventsKeepInv(y, e);
    case SetNextUri(_, _) => UriEventsKeepInv(y, e);
    case Stop(_) => PlainStateOnly(values, y.state, Stopped);
    case Play(ok) => PlayKeepsInv(y, ok);
    case Pause(_) => PlainStateOnly(values, y.state, PausedPlayback);
    case Seek(target, _) => PlainTimes(values, y.state, Text(""), Text(target));
    case UpdateTime(reply, _) =>
      PlainTimes(values, y.state, Text(UpnpTime.Print(y.out.duration)),
                 Text(UpnpTime.Print(reply.GetOr(y.out.position))));
    case PlayStateMessage(state, _) => PlainFeedback(values, y.state, y.out, FeedbackOn(y.out, state).value);
    case RadioKey(_) => PlainFeedback(values, y.state, y.out, PlayStopped);
    case _ =>
  }

  /** What an idle tick leaves alone. */
  lemma TickKeepsOutput(y: Sys, e: Event)
    requires e.IdleTick?
    ensures Watchdog.SamePlayback(y.out, OutAfter(y, e))
  {
    Watchdog.TickKeepsPlayback(y.out, e.counters, e.locked, e.ok);
  }

  /** The output's next URI follows the variable in every event. */
  lemma OutputFollows(y: Sys, e: Event)
    requires NextUriRefined(y.table.values, y.out)
    ensures OutAfter(y, e).uriNext != Some("")
    ensures NextUriAfter(y, e) == Text(OutAfter(y, e).uriNext.GetOr(""))
  {
    if e.IdleTick? {
      TickKeepsOutput(y, e);
    }
  }

  lemma SectionValues(s: State, writes: seq<Op>)
    requires TransportTable(s) && PlainWrites(writes)
    ensures Legal(s, Section(writes))
    ensures SameBut(Run(s, Section(writes)).values, PlainTable(s.values, writes), LAST_CHANGE)
  {
    SectionIsLegal(s, writes);
    LogIsConserved(s, Section(writes));
    PlainConcat(s.values, [Begin] + writes, [End]);
    PlainConcat(s.values, [Begin], writes);
    assert [Begin][1..] == [] && [End][1..] == [];
  }

  /** The locked section of an event has the effect of its changes on a plain table. */
  lemma EventValues(y: Sys, e: Event)
    requires TransportTable(y.table) && Enabled(y, e) && WritesOf(y, e).Some?
    ensures SameBut(Next(y, e).table.values, PlainTable(y.table.values, WritesOf(y, e).value), LAST_CHANGE)
  {
    WritesArePlain(y, e);
    SectionValues(y.table, WritesOf(y, e).value);
    assert OpsOf(y, e) == Section(WritesOf(y, e).value);
  }

  lemma EventKeepsTransport(y: Sys, e: Event)
    requires TransportTable(y.table) && TransportInv(y.table.values, y.state)
    requires NextUriRefined(y.table.values, y.out) && Enabled(y, e)
    ensures var z := Next(y, e); TransportInv(z.table.values, z.state) && NextUriRefined(z.table.values, z.out)
    ensures Next(y, e).table.values[NEXT_AV_URI] == NextUriAfter(y, e)
  {
    OutputFollows(y, e);
    var z := Next(y, e);
    if WritesOf(y, e).Some? {
      WritesKeepInv(y, e);
      EventValues(y, e);
    } else {
      SilentEventKeepsValues(y, e);
    }
  }

  lemma SilentEventKeepsValues(y: Sys, e: Event)
    requires TransportTable(y.table) && Enabled(y, e) && WritesOf(y, e).None?
    ensures SameBut(Next(y, e).table.values, y.table.values, LAST_CHANGE)
    ensures y.state == StateAfter(y, e)
  {
    EventIsLegal(y, e);
    if e.ActionBegins? {
      assert Run(y.table, [Begin]) == Step(y.table, Begin);
    } else if e.ActionEnds? {
      assert Run(y.table, [End]) == Step(y.table, End);
    }
  }

  /** Every event keeps the invariants of transport, output and collector. */
  lemma EventKeepsInv(y: Sys, e: Event)
    requires SysInv(y) && Enabled(y, e)
    ensures SysInv(Next(y, e))
  {
    EventIsLegal(y, e);
    RunKeepsInv(y.table, OpsOf(y, e));
    EventKeepsTransport(y, e);
  }
}
