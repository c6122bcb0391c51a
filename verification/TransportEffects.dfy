/** The events of the transport as a control point knows them: by the names and texts of
    the variables, and by the messages that reach the player. */
module TransportEffects {
  import ChangeLog
  import opened Options
  import opened LastChange
  import opened SilanOutput
  import opened AvTransport
  import opened Playback
  import Replica
  import opened Sequences
  import TransportNames
  import opened TransportViews
  import UpnpTime
  import Watchdog

  // ---- Variables by name ----

  /** The content of the variable with this name, if there is one */
  function Shown(s: State, name: string): Option<Value>
    requires |s.values| == |s.names|
  {
    var v := Replica.Find(s.names, name);
    if v.Some? then Some(s.values[v.value]) else None
  }

  lemma ShownSlot(s: State, name: string)
    requires TransportTable(s) && Shown(s, name).Some?
    ensures var v := TransportNames.SlotOf(name);
            v < 30 && TransportNames.NameOf(v) == name && Shown(s, name) == Some(s.values[v])
  {
    var v := Replica.Find(s.names, name).value;
    TransportNames.SlotIsInverse(v);
  }

  lemma SlotShown(s: State, v: nat)
    requires TransportTable(s) && v < 30
    ensures Shown(s, TransportNames.NameOf(v)) == Some(s.values[v])
  {
    var name := TransportNames.NameOf(v);
    assert s.names[v] == Some(name);
    ShownSlot(s, name);
    TransportNames.SlotIsInverse(v);
  }

  // ---- What an event makes of a variable ----

  /** The stream that the transport is set to */
  function StreamShown(name: string, uri: Value, meta: Value, before: Value): Value {
    if name == "AVTransportURI" then uri
    else if name == "AVTransportURIMetaData" then meta
    else if name == "NumberOfTracks" then Text(if uri == Text("") then "0" else "1")
    else before
  }

  /** The stream that is its current track */
  function TrackShown(name: string, uri: Value, meta: Value, before: Value): Value {
    if name == "CurrentTrackURI" then uri
    else if name == "CurrentTrackMetaData" then meta
    else if name == "CurrentTrack" then Text(if uri == Text("") then "0" else "1")
    else before
  }

  function StateShown(name: string, state: string, actions: string, before: Value): Value {
    if name == "TransportState" then Text(state)
    else if name == "CurrentTransportActions" then Text(actions)
    else before
  }

  function NothingShown(name: string, before: Value): Value {
    StateShown(name, "STOPPED", "PLAY",
               TrackShown(name, Text(""), Text(""), StreamShown(name, Text(""), Text(""), before)))
  }

  predicate Ended(out: Silan, state: int) {
    state == 0 && out.duration != 0 && out.position == out.duration
  }

  predicate Plays(y: Sys, ok: bool) {
    ok && y.state != Playing && (y.out.uri.Some? || y.out.state == 1)
  }

  /** The content of a variable after an event, from its content before it */
  function ShownAfter(y: Sys, e: AvTransport.Event, name: string, before: Value): Value
    requires |y.table.values| == |y.table.names|
  {
    match e
    case SetUri(uri, meta) =>
      var u, m := Text(uri), Text(meta.GetOr(""));
      var stream := StreamShown(name, u, m, before);
      if y.state == Playing then TrackShown(name, u, m, stream) else stream
    case SetNextUri(uri, meta) =>
      if name == "NextAVTransportURI" then Text(uri)
      else if name == "NextAVTransportURIMetaData" && meta.Some? then Text(meta.value)
      else before
    case Stop(_) => StateShown(name, "STOPPED", "PLAY", before)
    case Play(ok) =>
      var restarted := if y.state == Stopped && name == "RelativeTimePosition" then Text("0:00:00") else before;
      var uri, meta := Shown(y.table, "AVTransportURI"), Shown(y.table, "AVTransportURIMetaData");
      if !Plays(y, ok) then restarted
      else StateShown(name, "PLAYING", "PAUSE,STOP,SEEK",
                      TrackShown(name, uri.GetOr(Text("")), meta.GetOr(Text("")), restarted))
    case Pause(ok) =>
      if ok && y.state == Playing then StateShown(name, "PAUSED_PLAYBACK", "PLAY,STOP", before) else before
    case Seek(target, ok) =>
      if ok && name == "RelativeTimePosition" then Text(target) else before
    case UpdateTime(reply, _) =>
      if name == "CurrentTrackDuration" then Text(UpnpTime.Print(y.out.duration))
      else if name == "RelativeTimePosition" then Text(UpnpTime.Print(reply.GetOr(y.out.position)))
      else before
    case PlayStateMessage(state, _) =>
      var uri, meta := Shown(y.table, "NextAVTransportURI"), Shown(y.table, "NextAVTransportURIMetaData");
      if !Ended(y.out, state) then before
      else if y.out.uriNext.None? then NothingShown(name, before)
      else if name == "NextAVTransportURI" || name == "NextAVTransportURIMetaData" then Text("")
      else TrackShown(name, uri.GetOr(Text("")), meta.GetOr(Text("")),
                      StreamShown(name, uri.GetOr(Text("")), meta.GetOr(Text("")), before))
    case RadioKey(_) => NothingShown(name, before)
    case _ => before
  }

  // ---- The proof, list of changes by list of changes ----

  lemma StreamSlots(v: nat)
    requires v < 30
    ensures var name := TransportNames.NameOf(v);
            && (name == "AVTransportURI" <==> v == AV_URI)
            && (name == "AVTransportURIMetaData" <==> v == AV_URI_META)
            && (name == "NumberOfTracks" <==> v == NR_TRACKS)
  {
    TransportNames.SlotIsInverse(v);
    TransportNames.SlotsFrom15();
    TransportNames.SlotsFrom20();
  }

  lemma TrackSlots(v: nat)
    requires v < 30
    ensures var name := TransportNames.NameOf(v);
            && (name == "CurrentTrackURI" <==> v == CUR_TRACK_URI)
            && (name == "CurrentTrackMetaData" <==> v == CUR_TRACK_META)
            && (name == "CurrentTrack" <==> v == CUR_TRACK)
  {
    TransportNames.SlotIsInverse(v);
    TransportNames.SlotsFrom0();
    TransportNames.SlotsFrom10();
    TransportNames.SlotsFrom15();
  }

  lemma StateSlots(v: nat)
    requires v < 30
    ensures var name := TransportNames.NameOf(v);
            && (name == "TransportState" <==> v == TRANSPORT_STATE)
            && (name == "CurrentTransportActions" <==> v == CUR_TRANSPORT_ACTIONS)
  {
    TransportNames.SlotIsInverse(v);
    TransportNames.SlotsFrom15();
    TransportNames.SlotsFrom25();
  }

  lemma OtherSlots(v: nat)
    requires v < 30
    ensures var name := TransportNames.NameOf(v);
            && (name == "NextAVTransportURI" <==> v == NEXT_AV_URI)
            && (name == "NextAVTransportURIMetaData" <==> v == NEXT_AV_URI_META)
            && (name == "RelativeTimePosition" <==> v == REL_TIME_POS)
            && (name == "CurrentTrackDuration" <==> v == CUR_TRACK_DUR)
            && (name == "LastChange" <==> v == LAST_CHANGE)
  {
    TransportNames.SlotIsInverse(v);
    TransportNames.SlotsFrom0();
    TransportNames.SlotsFrom5();
    TransportNames.SlotsFrom25();
  }

  lemma StreamWritten(values: seq<Value>, v: nat, uri: Value, meta: Value)
    requires |values| == COUNT && v < 30
    ensures ChangeLog.PlainTable(values, UriWrites(uri, meta))[v]
         == StreamShown(TransportNames.NameOf(v), uri, meta, values[v])
  {
    StreamSlots(v);
    PlainUri(values, uri, meta);
  }

  lemma TrackWritten(values: seq<Value>, v: nat, uri: Value, meta: Value)
    requires |values| == COUNT && v < 30
    ensures ChangeLog.PlainTable(values, CurrentWrites(uri, meta))[v]
         == TrackShown(TransportNames.NameOf(v), uri, meta, values[v])
  {
    TrackSlots(v);
    PlainCurrent(values, uri, meta);
  }

  /** Both the transport and its track */
  lemma BothWritten(values: seq<Value>, v: nat, uri: Value, meta: Value)
    requires |values| == COUNT && v < 30
    ensures var name := TransportNames.NameOf(v);
            ChangeLog.PlainTable(values, UriWrites(uri, meta) + CurrentWrites(uri, meta))[v]
            == TrackShown(name, uri, meta, StreamShown(name, uri, meta, values[v]))
  {
    StreamWritten(values, v, uri, meta);
    PlainConcat(values, UriWrites(uri, meta), CurrentWrites(uri, meta));
    TrackWritten(ChangeLog.PlainTable(values, UriWrites(uri, meta)), v, uri, meta);
  }

  /** The texts of the states and of the actions they offer */
  function StateText(st: TransportState): string {
    match st
    case Playing => "PLAYING"
    case PausedPlayback => "PAUSED_PLAYBACK"
    case _ => "STOPPED"
  }

  function ActionsText(st: TransportState): string {
    match st
    case Playing => "PAUSE,STOP,SEEK"
    case PausedPlayback => "PLAY,STOP"
    case _ => "PLAY"
  }

  lemma StateWritten(values: seq<Value>, v: nat, before: TransportState, after: TransportState, checked: seq<Value>)
    requires |values| == |checked| == COUNT && v < 30
    requires before in {Stopped, Playing, PausedPlayback} && after in {Stopped, Playing, PausedPlayback}
    requires values[TRANSPORT_STATE] == checked[TRANSPORT_STATE] == Text(StateName(before))
    requires values[CUR_TRANSPORT_ACTIONS] == Text(AvailableActions(before).value)
    ensures ChangeLog.PlainTable(values, StateWrites(checked, after))[v]
         == StateShown(TransportNames.NameOf(v), StateText(after), ActionsText(after), values[v])
  {
    StateSlots(v);
    PlainState(values, before, after, checked);
  }

  ghost predicate Consistent(y: Sys) {
    TransportInv(y.table.values, y.state) && |y.table.names| == COUNT
  }

  lemma AlreadyStopped(values: seq<Value>, v: nat)
    requires TransportInv(values, Stopped) && v < 30
    ensures StateShown(TransportNames.NameOf(v), "STOPPED", "PLAY", values[v]) == values[v]
  {
    StateSlots(v);
  }

  lemma TimeWritten(values: seq<Value>, v: nat, duration: Value, position: Value)
    requires |values| == COUNT && v < 30
    ensures var name := TransportNames.NameOf(v);
            && ChangeLog.PlainTable(values, [Write(REL_TIME_POS, position)])[v]
               == (if name == "RelativeTimePosition" then position else values[v])
            && ChangeLog.PlainTable(values, [Write(CUR_TRACK_DUR, duration), Write(REL_TIME_POS, position)])[v]
               == if name == "CurrentTrackDuration" then duration
                  else if name == "RelativeTimePosition" then position else values[v]
  {
    OtherSlots(v);
    PlainOne(values, REL_TIME_POS, position);
    PlainTwo(values, CUR_TRACK_DUR, duration, REL_TIME_POS, position);
  }

  lemma NextWritten(values: seq<Value>, v: nat, uri: Value, meta: Value)
    requires |values| == COUNT && v < 30
    ensures var name := TransportNames.NameOf(v);
            && ChangeLog.PlainTable(values, [Write(NEXT_AV_URI, uri)])[v]
               == (if name == "NextAVTransportURI" then uri else values[v])
            && ChangeLog.PlainTable(values, [Write(NEXT_AV_URI, uri), Write(NEXT_AV_URI_META, meta)])[v]
               == if name == "NextAVTransportURI" then uri
                  else if name == "NextAVTransportURIMetaData" then meta else values[v]
  {
    OtherSlots(v);
    PlainOne(values, NEXT_AV_URI, uri);
    PlainTwo(values, NEXT_AV_URI, uri, NEXT_AV_URI_META, meta);
  }

  lemma SetUriShows(y: Sys, e: AvTransport.Event, v: nat)
    requires Consistent(y) && v < 30 && e.SetUri?
    ensures ChangeLog.PlainTable(y.table.values, WritesOf(y, e).value)[v]
         == ShownAfter(y, e, TransportNames.NameOf(v), y.table.values[v])
  {
    var u, m := Text(e.uri), Text(e.meta.GetOr(""));
    BothWritten(y.table.values, v, u, m);
    StreamWritten(y.table.values, v, u, m);
    assert UriWrites(u, m) + [] == UriWrites(u, m);
  }

  lemma SetNextUriShows(y: Sys, e: AvTransport.Event, v: nat)
    requires Consistent(y) && v < 30 && e.SetNextUri?
    ensures ChangeLog.PlainTable(y.table.values, WritesOf(y, e).value)[v]
         == ShownAfter(y, e, TransportNames.NameOf(v), y.table.values[v])
  {
    var first := [Write(NEXT_AV_URI, Text(e.uri))];
    NextWritten(y.table.values, v, Text(e.uri), Text(e.meta.GetOr("")));
    assert first + [] == first;
    if e.meta.Some? {
      var second := Write(NEXT_AV_URI_META, Text(e.meta.value));
      assert first + [second] == [Write(NEXT_AV_URI, Text(e.uri)), second];
    }
  }

  lemma StopShows(y: Sys, ok: bool, v: nat)
    requires Consistent(y) && v < 30
    ensures ChangeLog.PlainTable(y.table.values, WritesOf(y, Stop(ok)).value)[v]
         == ShownAfter(y, Stop(ok), TransportNames.NameOf(v), y.table.values[v])
  {
    if y.state == Stopped {
      AlreadyStopped(y.table.values, v);
    } else {
      StateWritten(y.table.values, v, y.state, Stopped, y.table.values);
    }
  }

  lemma PauseShows(y: Sys, ok: bool, v: nat)
    requires Consistent(y) && v < 30
    ensures ChangeLog.PlainTable(y.table.values, WritesOf(y, Pause(ok)).value)[v]
         == ShownAfter(y, Pause(ok), TransportNames.NameOf(v), y.table.values[v])
  {
    if y.state == Playing && ok {
      StateWritten(y.table.values, v, Playing, PausedPlayback, y.table.values);
    } else {
      assert WritesOf(y, Pause(ok)).value == [];
    }
  }

  lemma RestartShows(y: Sys, v: nat)
    requires Consistent(y) && v < 30
    ensures ChangeLog.PlainTable(y.table.values, RestartWrites(y.state))[v]
         == if y.state == Stopped && TransportNames.NameOf(v) == "RelativeTimePosition" then Text("0:00:00")
            else y.table.values[v]
  {
    TimeWritten(y.table.values, v, Text(""), Text(ZERO_TIME));
  }

  lemma NamedShown(s: State, v: nat, name: string)
    requires TransportTable(s) && v < 30 && TransportNames.NameOf(v) == name
    ensures Shown(s, name) == Some(s.values[v])
  {
    SlotShown(s, v);
  }

  lemma StreamIsShown(y: Sys)
    requires SysInv(y)
    ensures Shown(y.table, "AVTransportURI") == Some(y.table.values[AV_URI])
    ensures Shown(y.table, "AVTransportURIMetaData") == Some(y.table.values[AV_URI_META])
  {
    StreamSlots(AV_URI);
    StreamSlots(AV_URI_META);
    NamedShown(y.table, AV_URI, "AVTransportURI");
    NamedShown(y.table, AV_URI_META, "AVTransportURIMetaData");
  }

  lemma NextStreamIsShown(y: Sys)
    requires SysInv(y)
    ensures Shown(y.table, "NextAVTransportURI") == Some(y.table.values[NEXT_AV_URI])
    ensures Shown(y.table, "NextAVTransportURIMetaData") == Some(y.table.values[NEXT_AV_URI_META])
  {
    OtherSlots(NEXT_AV_URI);
    OtherSlots(NEXT_AV_URI_META);
    NamedShown(y.table, NEXT_AV_URI, "NextAVTransportURI");
    NamedShown(y.table, NEXT_AV_URI_META, "NextAVTransportURIMetaData");
  }

  lemma RestartLeavesState(y: Sys)
    requires Consistent(y)
    ensures var t := ChangeLog.PlainTable(y.table.values, RestartWrites(y.state));
            && t[TRANSPORT_STATE] == y.table.values[TRANSPORT_STATE]
            && t[CUR_TRANSPORT_ACTIONS] == y.table.values[CUR_TRANSPORT_ACTIONS]
  {
    PlainOne(y.table.values, REL_TIME_POS, Text(ZERO_TIME));
  }

  /** A started transport: its track, then its state, then its time */
  lemma StartShows(y: Sys, v: nat)
    requires Consistent(y) && v < 30 && y.state != Playing
    ensures var values, name := y.table.values, TransportNames.NameOf(v);
            var uri, meta := values[AV_URI], values[AV_URI_META];
            var a, b, c := RestartWrites(y.state), StateWrites(values, Playing), CurrentWrites(uri, meta);
            ChangeLog.PlainTable(values, a + (b + c))[v]
            == TrackShown(name, uri, meta, StateShown(name, "PLAYING", "PAUSE,STOP,SEEK",
                                                      ChangeLog.PlainTable(values, a)[v]))
  {
    var values := y.table.values;
    var uri, meta := values[AV_URI], values[AV_URI_META];
    var a, b, c := RestartWrites(y.state), StateWrites(values, Playing), CurrentWrites(uri, meta);
    var v1 := ChangeLog.PlainTable(values, a);
    PlainConcat(values, a, b + c);
    PlainConcat(v1, b, c);
    RestartLeavesState(y);
    StateWritten(v1, v, y.state, Playing, values);
    TrackWritten(ChangeLog.PlainTable(v1, b), v, uri, meta);
  }

  /** No variable tells both of the state and of the track. */
  lemma TrackOrState(v: nat, uri: Value, meta: Value, state: string, actions: string, before: Value)
    requires v < 30
    ensures var name := TransportNames.NameOf(v);
            TrackShown(name, uri, meta, StateShown(name, state, actions, before))
            == StateShown(name, state, actions, TrackShown(name, uri, meta, before))
  {
    TrackSlots(v);
    StateSlots(v);
  }

  lemma PlayShows(y: Sys, e: AvTransport.Event, v: nat)
    requires SysInv(y) && v < 30 && e.Play?
    ensures ChangeLog.PlainTable(y.table.values, WritesOf(y, e).value)[v]
         == ShownAfter(y, e, TransportNames.NameOf(v), y.table.values[v])
  {
    var values := y.table.values;
    var a := RestartWrites(y.state);
    assert a + [] == a;
    RestartShows(y, v);
    StreamIsShown(y);
    if Starting(y, e.ok) {
      StartShows(y, v);
      TrackOrState(v, values[AV_URI], values[AV_URI_META], "PLAYING", "PAUSE,STOP,SEEK",
                   ChangeLog.PlainTable(values, a)[v]);
    }
  }

  lemma TimesShow(y: Sys, e: AvTransport.Event, v: nat)
    requires Consistent(y) && v < 30 && (e.Seek? || e.UpdateTime?)
    ensures ChangeLog.PlainTable(y.table.values, WritesOf(y, e).value)[v]
         == ShownAfter(y, e, TransportNames.NameOf(v), y.table.values[v])
  {
    if e.Seek? {
      TimeWritten(y.table.values, v, Text(""), Text(e.target));
    } else {
      TimeWritten(y.table.values, v, Text(UpnpTime.Print(y.out.duration)),
                  Text(UpnpTime.Print(e.reply.GetOr(y.out.position))));
    }
  }

  lemma BothLeaveState(values: seq<Value>, uri: Value, meta: Value)
    requires |values| == COUNT
    ensures var t := ChangeLog.PlainTable(values, UriWrites(uri, meta) + CurrentWrites(uri, meta));
            && t[TRANSPORT_STATE] == values[TRANSPORT_STATE]
            && t[CUR_TRANSPORT_ACTIONS] == values[CUR_TRANSPORT_ACTIONS]
  {
    PlainConcat(values, UriWrites(uri, meta), CurrentWrites(uri, meta));
    PlainUri(values, uri, meta);
    PlainCurrent(ChangeLog.PlainTable(values, UriWrites(uri, meta)), uri, meta);
  }

  lemma NothingIsShown(y: Sys, v: nat)
    requires Consistent(y) && v < 30
    ensures ChangeLog.PlainTable(y.table.values, FeedbackWrites(y.table.values, PlayStopped))[v]
         == NothingShown(TransportNames.NameOf(v), y.table.values[v])
  {
    var none, values := Text(""), y.table.values;
    var a := UriWrites(none, none) + CurrentWrites(none, none);
    BothWritten(values, v, none, none);
    PlainConcat(values, a, StateWrites(values, Stopped));
    BothLeaveState(values, none, none);
    StateWritten(ChangeLog.PlainTable(values, a), v, y.state, Stopped, values);
  }

  lemma NextIsShown(y: Sys, v: nat)
    requires Consistent(y) && v < 30
    ensures var name, values := TransportNames.NameOf(v), y.table.values;
            var uri, meta := values[NEXT_AV_URI], values[NEXT_AV_URI_META];
            ChangeLog.PlainTable(values, FeedbackWrites(values, PlayStartedNextStream))[v]
            == if name == "NextAVTransportURI" || name == "NextAVTransportURIMetaData" then Text("")
               else TrackShown(name, uri, meta, StreamShown(name, uri, meta, values[v]))
  {
    var values, none := y.table.values, Text("");
    var uri, meta := values[NEXT_AV_URI], values[NEXT_AV_URI_META];
    var a := UriWrites(uri, meta) + CurrentWrites(uri, meta);
    BothWritten(values, v, uri, meta);
    PlainConcat(values, a, [Write(NEXT_AV_URI, none), Write(NEXT_AV_URI_META, none)]);
    NextWritten(ChangeLog.PlainTable(values, a), v, none, none);
  }

  lemma RadioShows(y: Sys, e: AvTransport.Event, v: nat)
    requires Consistent(y) && v < 30 && e.RadioKey?
    ensures ChangeLog.PlainTable(y.table.values, WritesOf(y, e).value)[v]
         == ShownAfter(y, e, TransportNames.NameOf(v), y.table.values[v])
  {
    NothingIsShown(y, v);
  }

  lemma MessageShows(y: Sys, e: AvTransport.Event, v: nat)
    requires SysInv(y) && v < 30 && e.PlayStateMessage? && EndOfStream(y.out, e.state)
    ensures ChangeLog.PlainTable(y.table.values, WritesOf(y, e).value)[v]
         == ShownAfter(y, e, TransportNames.NameOf(v), y.table.values[v])
  {
    if y.out.uriNext.None? {
      NothingIsShown(y, v);
    } else {
      NextStreamIsShown(y);
      NextIsShown(y, v);
    }
  }

  lemma WritesShow(y: Sys, e: AvTransport.Event, v: nat)
    requires SysInv(y) && v < 30 && WritesOf(y, e).Some?
    ensures ChangeLog.PlainTable(y.table.values, WritesOf(y, e).value)[v]
         == ShownAfter(y, e, TransportNames.NameOf(v), y.table.values[v])
  {
    match e
    case SetUri(_, _) => SetUriShows(y, e, v);
    case SetNextUri(_, _) => SetNextUriShows(y, e, v);
    case Stop(ok) => StopShows(y, ok, v);
    case Pause(ok) => PauseShows(y, ok, v);
    case Play(_) => PlayShows(y, e, v);
    case Seek(_, _) => TimesShow(y, e, v);
    case UpdateTime(_, _) => TimesShow(y, e, v);
    case PlayStateMessage(_, _) => MessageShows(y, e, v);
    case RadioKey(_) => RadioShows(y, e, v);
    case _ =>
  }

  lemma SilentShows(y: Sys, e: AvTransport.Event, name: string, before: Value)
    requires |y.table.values| == |y.table.names| == COUNT && WritesOf(y, e).None?
    ensures ShownAfter(y, e, name, before) == before
  {
  }

  /** Every event, whoever caused it: the content of every variable afterwards. */
  lemma EventShows(y: Sys, e: AvTransport.Event, name: string)
    requires SysInv(y) && Enabled(y, e) && name != "LastChange" && Shown(y.table, name).Some?
    ensures Shown(Next(y, e).table, name) == Some(ShownAfter(y, e, name, Shown(y.table, name).value))
  {
    ShownSlot(y.table, name);
    var v := TransportNames.SlotOf(name);
    OtherSlots(v);
    SlotShown(Next(y, e).table, v);
    if WritesOf(y, e).Some? {
      EventValues(y, e);
      WritesShow(y, e, v);
    } else {
      SilentEventKeepsValues(y, e);
      SilentShows(y, e, name, y.table.values[v]);
    }
  }

  /** The state and what it offers, in every state that a run can reach */
  lemma StateIsShown(y: Sys)
    requires SysInv(y)
    ensures Shown(y.table, "TransportState") == Some(Text(StateText(y.state)))
    ensures Shown(y.table, "CurrentTransportActions") == Some(Text(ActionsText(y.state)))
  {
    StateSlots(TRANSPORT_STATE);
    StateSlots(CUR_TRANSPORT_ACTIONS);
    NamedShown(y.table, TRANSPORT_STATE, "TransportState");
    NamedShown(y.table, CUR_TRANSPORT_ACTIONS, "CurrentTransportActions");
  }

  lemma TimesAreKnown(y: Sys, e: AvTransport.Event, before: Value)
    requires |y.table.values| == |y.table.names| && e.UpdateTime?
    ensures ShownAfter(y, e, "CurrentTrackDuration", before) == Text(UpnpTime.Print(y.out.duration))
    ensures ShownAfter(y, e, "RelativeTimePosition", before) == Text(UpnpTime.Print(e.reply.GetOr(y.out.position)))
  {
    assert "CurrentTrackDuration"[0] != "RelativeTimePosition"[0];
  }

  lemma DurationIsPrinted(y: Sys, reply: Option<int>, ok: bool)
    requires SysInv(y)
    ensures Shown(Next(y, UpdateTime(reply, ok)).table, "CurrentTrackDuration")
         == Some(Text(UpnpTime.Print(y.out.duration)))
  {
    OtherSlots(CUR_TRACK_DUR);
    NamedShown(y.table, CUR_TRACK_DUR, "CurrentTrackDuration");
    EventShows(y, UpdateTime(reply, ok), "CurrentTrackDuration");
    TimesAreKnown(y, UpdateTime(reply, ok), y.table.values[CUR_TRACK_DUR]);
  }

  lemma PositionIsPrinted(y: Sys, reply: Option<int>, ok: bool)
    requires SysInv(y)
    ensures Shown(Next(y, UpdateTime(reply, ok)).table, "RelativeTimePosition")
         == Some(Text(UpnpTime.Print(reply.GetOr(y.out.position))))
  {
    OtherSlots(REL_TIME_POS);
    NamedShown(y.table, REL_TIME_POS, "RelativeTimePosition");
    EventShows(y, UpdateTime(reply, ok), "RelativeTimePosition");
    TimesAreKnown(y, UpdateTime(reply, ok), y.table.values[REL_TIME_POS]);
  }

  /** The variable's text is read as this time. */
  predicate ReadsAs(text: Option<Value>, time: int) {
    text.Some? && text.value.Text? && UpnpTime.Parse(text.value.text) == time
  }

  lemma PrintedReadsAs(time: int)
    requires time >= 0
    ensures ReadsAs(Some(Text(UpnpTime.Print(time))), time)
  {
    UpnpTime.RoundTripIff(time);
  }

  /** After the times were asked for, the variable for the duration reads back as the
      duration that the output knows, and the one for the position as the answer of the
      player or else the position known before, unless they are negative. */
  lemma TimesAreShown(y: Sys, reply: Option<int>, ok: bool)
    requires SysInv(y)
    ensures var t, position := Next(y, UpdateTime(reply, ok)).table, reply.GetOr(y.out.position);
            && (y.out.duration >= 0 ==> ReadsAs(Shown(t, "CurrentTrackDuration"), y.out.duration))
            && (position >= 0 ==> ReadsAs(Shown(t, "RelativeTimePosition"), position))
  {
    DurationIsPrinted(y, reply, ok);
    PositionIsPrinted(y, reply, ok);
    var position := reply.GetOr(y.out.position);
    if y.out.duration >= 0 {
      PrintedReadsAs(y.out.duration);
    }
    if position >= 0 {
      PrintedReadsAs(position);
    }
  }

  // ---- What the player is told ----

  function Told(messages: seq<Command>, ok: bool): seq<Command> {
    if ok then messages else []
  }

  /** The messages of an event, if the queue takes them */
  function Messages(y: Sys, e: AvTransport.Event): seq<Command> {
    match e
    case Stop(ok) => Told(if y.state == Stopped then [] else [StopPlaying], ok)
    case Play(ok) =>
      Told(if y.state == Playing then []
           else if y.out.uri.Some? then [PlayUri(y.out.uri.value)]
           else if y.out.state == 1 then [TogglePause]
           else [], ok)
    case Pause(ok) => Told(if y.state == Playing then [TogglePause] else [], ok)
    case Seek(target, ok) => Told([SeekTo(UpnpTime.Parse(target))], ok)
    case UpdateTime(_, ok) => Told([GetTimePos], ok)
    case PlayStateMessage(state, ok) =>
      Told(if Ended(y.out, state) && y.out.uriNext.Some? then [PlayUri(y.out.uriNext.value)] else [], ok)
    case RadioKey(ok) => Told(if y.out.spdifIn then [] else [SetPadMux(y.out.padmux), SpdifIn], ok)
    case IdleTick(counters, _, ok) =>
      Told(if y.out.spdifIn || y.out.state == 2 || counters.stop != 120 then []
           else [SetPadMux(y.out.padmux), SpdifIn], ok)
    case _ => []
  }

  lemma SwitchingSendsNothing(s: Silan, m: bool)
    ensures AfterSetAmpPower(s, m).commands == AfterSetAmpMute(s, m).commands == s.commands
  {
  }

  lemma SpdifSends(s: Silan, ok: bool)
    ensures AfterSetSpdifIn(s, ok).commands
         == s.commands + Told(if s.spdifIn then [] else [SetPadMux(s.padmux), SpdifIn], ok)
  {
    assert s.commands + [] == s.commands;
    assert s.commands + [SetPadMux(s.padmux)] + [SpdifIn] == s.commands + [SetPadMux(s.padmux), SpdifIn];
  }

  lemma InputsSend(s: Silan, c: Watchdog.Counters, locked: bool, ok: bool)
    ensures Watchdog.AfterInputs(s, c, locked, ok).0.commands
         == s.commands + Told(if s.spdifIn || s.state == 2 || c.stop != 120 then []
                              else [SetPadMux(s.padmux), SpdifIn], ok)
  {
    SwitchingSendsNothing(s, true);
    SwitchingSendsNothing(s, false);
    SpdifSends(s, ok);
    assert s.commands + [] == s.commands;
  }

  lemma UnmutingSendsNothing(s: Silan, c: Watchdog.Counters)
    ensures Watchdog.AfterUnmute(s, c).0.commands == s.commands
  {
  }

  lemma TickSends(y: Sys, e: AvTransport.Event)
    requires e.IdleTick?
    ensures OutAfter(y, e).commands == y.out.commands + Messages(y, e)
  {
    var (t, d) := Watchdog.AfterInputs(y.out, e.counters, e.locked, e.ok);
    InputsSend(y.out, e.counters, e.locked, e.ok);
    UnmutingSendsNothing(t, d);
  }

  lemma PlaySends(y: Sys, ok: bool)
    requires y.state in {Stopped, Playing, PausedPlayback}
    ensures OutAfter(y, Play(ok)).commands == y.out.commands + Messages(y, Play(ok))
  {
    assert y.out.commands + [] == y.out.commands;
  }

  lemma MessageSends(y: Sys, state: int, ok: bool)
    ensures OutAfter(y, PlayStateMessage(state, ok)).commands
         == y.out.commands + Messages(y, PlayStateMessage(state, ok))
  {
    assert y.out.commands + [] == y.out.commands;
  }

  lemma OutputSends(y: Sys, e: AvTransport.Event)
    requires y.state in {Stopped, Playing, PausedPlayback}
    requires !e.IdleTick? && !e.RadioKey? && !e.Play? && !e.PlayStateMessage?
    ensures OutAfter(y, e).commands == y.out.commands + Messages(y, e)
  {
    assert y.out.commands + [] == y.out.commands;
  }

  /** Every event tells the player just these messages: Stop stops it unless the transport
      is stopped already, Seek goes to the time that was parsed, and so on. */
  lemma EventSends(y: Sys, e: AvTransport.Event)
    requires SysInv(y) && Enabled(y, e)
    ensures Next(y, e).out.commands == y.out.commands + Messages(y, e)
  {
    assert Next(y, e).out == OutAfter(y, e);
    if e.IdleTick? {
      TickSends(y, e);
    } else if e.RadioKey? {
      SpdifSends(y.out, e.ok);
    } else if e.Play? {
      PlaySends(y, e.ok);
    } else if e.PlayStateMessage? {
      MessageSends(y, e.state, e.ok);
    } else {
      OutputSends(y, e);
    }
  }

  ghost function MessagesOf(y: Sys, events: seq<AvTransport.Event>): seq<Command>
    requires TransportTable(y.table) && Possible(y, events)
    decreases |events|
  {
    if events == [] then []
    else
      var z, e := Before(y, events), events[|events| - 1];
      MessagesOf(y, events[..|events| - 1]) + Messages(z, e)
  }

  /** In every run the player is told the messages of its events, in order, and nothing
      else. */
  lemma {:induction false} RunSends(y: Sys, events: seq<AvTransport.Event>)
    requires SysInv(y) && Possible(y, events)
    ensures After(y, events).out.commands == y.out.commands + MessagesOf(y, events)
    decreases |events|
  {
    if events == [] {
      assert y.out.commands + [] == y.out.commands;
    } else {
      var front, e := events[..|events| - 1], events[|events| - 1];
      var z := Before(y, events);
      RunSends(y, front);
      RunKeepsSysInv(y, front);
      EventSends(z, e);
      Regroup(y.out.commands, MessagesOf(y, front), Messages(z, e));
    }
  }

  // ---- After Stop ----

  /** A message that makes the player play, or go on or pause */
  predicate Sounding(c: Command) {
    c.PlayUri? || c.TogglePause?
  }

  /** Neither Play nor a hand-over to a next stream */
  ghost predicate LeftAlone(y: Sys, events: seq<AvTransport.Event>)
    requires TransportTable(y.table) && Possible(y, events)
    decreases |events|
  {
    events == [] ||
    var z, e := Before(y, events), events[|events| - 1];
    LeftAlone(y, events[..|events| - 1]) && !e.Play? && !HandsOver(z, e)
  }

  lemma StoppedIsSilent(y: Sys, e: AvTransport.Event)
    requires NextUriRefined(y.table.values, y.out) && y.state == Stopped && !e.Play? && !HandsOver(y, e)
    ensures StateAfter(y, e) == Stopped && forall c :: c in Messages(y, e) ==> !Sounding(c)
  {
  }

  /** A stopped transport stays stopped, and its player is told nothing that makes it
      sound, in every run without Play or a hand-over. */
  lemma {:induction false} StaysSilent(y: Sys, events: seq<AvTransport.Event>)
    requires SysInv(y) && y.state == Stopped && Possible(y, events) && LeftAlone(y, events)
    ensures After(y, events).state == Stopped && forall c :: c in MessagesOf(y, events) ==> !Sounding(c)
    decreases |events|
  {
    if events != [] {
      var front, e := events[..|events| - 1], events[|events| - 1];
      var z := Before(y, events);
      StaysSilent(y, front);
      RunKeepsSysInv(y, front);
      StoppedIsSilent(z, e);
      assert Next(z, e).state == StateAfter(z, e);
    }
  }

  /** Over runs: after Stop the transport is shown as stopped, and nothing that makes the
      player sound is sent, until Play or a hand-over. The player was told to stop exactly
      if the queue took the message; the transport is stopped in any case. */
  lemma StopSilences(y: Sys, ok: bool, events: seq<AvTransport.Event>)
    requires SysInv(y) && y.state != Stopped
    requires Possible(Next(y, Stop(ok)), events) && LeftAlone(Next(y, Stop(ok)), events)
    ensures var z, messages := After(Next(y, Stop(ok)), events), MessagesOf(Next(y, Stop(ok)), events);
            && Shown(z.table, "TransportState") == Some(Text("STOPPED"))
            && z.out.commands == y.out.commands + (if ok then [StopPlaying] else []) + messages
            && forall c :: c in messages ==> !Sounding(c)
  {
    var stopped := Next(y, Stop(ok));
    EventKeepsInv(y, Stop(ok));
    EventSends(y, Stop(ok));
    assert stopped.state == StateAfter(y, Stop(ok));
    StaysSilent(stopped, events);
    RunSends(stopped, events);
    RunKeepsSysInv(stopped, events);
    StateIsShown(After(stopped, events));
  }

  // ---- What subscribers are told of ----

  lemma CounterSlots(v: nat)
    requires v < 30
    ensures var name := TransportNames.NameOf(v);
            && (name == "AbsoluteTimePosition" <==> v == ABS_TIME_POS)
            && (name == "RelativeCounterPosition" <==> v == REL_CTR_POS)
            && (name == "AbsoluteCounterPosition" <==> v == ABS_CTR_POS)
  {
    TransportNames.SlotIsInverse(v);
    TransportNames.SlotsFrom0();
    TransportNames.SlotsFrom10();
    TransportNames.SlotsFrom15();
  }

  lemma EarlySecondLetter(v: nat)
    requires v < 15
    ensures |TransportNames.NameOf(v)| >= 2
    ensures v != 5 && v != 6 ==> TransportNames.NameOf(v)[1] != '_'
  {
  }

  lemma LateSecondLetter(v: nat)
    requires 15 <= v < 30
    ensures |TransportNames.NameOf(v)| >= 2
    ensures v != 22 ==> TransportNames.NameOf(v)[1] != '_'
  {
  }

  lemma ArgumentNames()
    ensures ArgumentType("A_ARG_TYPE_InstanceID")
    ensures ArgumentType("A_ARG_TYPE_SeekTarget")
    ensures ArgumentType("A_ARG_TYPE_SeekMode")
  {
    assert "A_ARG_TYPE_InstanceID"[..11] == "A_ARG_TYPE_";
    assert "A_ARG_TYPE_SeekTarget"[..11] == "A_ARG_TYPE_";
    assert "A_ARG_TYPE_SeekMode"[..11] == "A_ARG_TYPE_";
  }

  lemma ArgumentSlots(v: nat)
    requires v < 30
    ensures var name := TransportNames.NameOf(v);
            && (ArgumentType(name) <==> v == 5 || v == 6 || v == 22)
            && (name == "A_ARG_TYPE_InstanceID" <==> v == 5)
            && (name == "A_ARG_TYPE_SeekTarget" <==> v == 6)
            && (name == "A_ARG_TYPE_SeekMode" <==> v == 22)
  {
    if v < 15 {
      EarlySecondLetter(v);
    } else {
      LateSecondLetter(v);
    }
    ArgumentNames();
    assert "A_ARG_TYPE_"[1] == '_';
    TransportNames.SlotIsInverse(v);
    TransportNames.SlotsFrom5();
    TransportNames.SlotsFrom20();
  }

  /** Of the variables of the transport, no times and counters but the duration are
      evented. */
  lemma EventedNames(y: Sys, name: string)
    requires SysInv(y) && Shown(y.table, name).Some?
    ensures Evented(y.table, TransportNames.SlotOf(name)) <==>
            name !in {"RelativeTimePosition", "AbsoluteTimePosition", "RelativeCounterPosition",
                      "AbsoluteCounterPosition", "LastChange"}
  {
    ShownSlot(y.table, name);
    var v := TransportNames.SlotOf(name);
    OtherSlots(v);
    CounterSlots(v);
    assert y.table.names[v].Some?;
  }

  /** The first event for a subscriber leaves out the types of arguments, and itself. */
  lemma SnapshotNames(y: Sys, name: string)
    requires SysInv(y) && Shown(y.table, name).Some?
    ensures name in Replica.Snapshot(y.table) <==>
            name !in {"A_ARG_TYPE_InstanceID", "A_ARG_TYPE_SeekTarget", "A_ARG_TYPE_SeekMode", "LastChange"}
  {
    ShownSlot(y.table, name);
    var v := TransportNames.SlotOf(name);
    ArgumentSlots(v);
    assert y.table.names[v] == Some(name);
    Replica.SnapshotIsTable(y.table, v);
  }
}
