/** The renderer after its initialisation: the AVTransport handlers, the callback of
    the output module, and the transaction that brackets every action. Each method
    is proved to be one event of AvTransport.Next. */
module Renderer {
  import opened Options
  import opened LastChange
  import opened SilanOutput
  import opened AvTransport
  import opened VariableContainer
  import TransportNames
  import UpnpTime
  import Watchdog

  datatype Request =
    | SetAVTransportURI(instanceId: Option<string>, uri: Option<string>, meta: Option<string>)
    | SetNextAVTransportURI(instanceId: Option<string>, uri: Option<string>, meta: Option<string>)
    | StopRequest(instanceId: Option<string>)
    | PlayRequest(instanceId: Option<string>)
    | PauseRequest(instanceId: Option<string>)
    | SeekRequest(instanceId: Option<string>, unit: Option<string>, target: Option<string>)
    | GetPositionInfo(instanceId: Option<string>)
    | OtherRequest  // answered without changing anything

  /** The event of a request; none if an argument is missing or nothing is to be done. */
  function EventOf(r: Request, reply: Option<int>, ok: bool): Option<AvTransport.Event> {
    if !r.OtherRequest? && r.instanceId.None? then None
    else
      match r
      case SetAVTransportURI(_, uri, meta) => if uri.None? then None else Some(SetUri(uri.value, meta))
      case SetNextAVTransportURI(_, uri, meta) => if uri.None? then None else Some(SetNextUri(uri.value, meta))
      case StopRequest(_) => Some(Stop(ok))
      case PlayRequest(_) => Some(Play(ok))
      case PauseRequest(_) => Some(Pause(ok))
      case SeekRequest(_, unit, target) =>
        if unit == Some("REL_TIME") && target.Some? then Some(Seek(target.value, ok)) else None
      case GetPositionInfo(_) => Some(UpdateTime(reply, ok))
      case OtherRequest => None
  }

  /** strstr */
  predicate Contains(text: string, part: string) {
    part <= text || (text != "" && Contains(text[1..], part))
  }

  method NewCollector(table: VariableTable) returns (collector: LastChangeCollector)
    requires table.names == TransportNames.Names() && InitialValues(table.values)
    requires table.callbacks == []
    modifies table
    ensures fresh(collector) && fresh(collector.builder)
    ensures collector.container == table && collector.Valid() && collector.registered
    ensures var s := collector.State();
            && AvTransport.TransportTable(s) && Inv(s) && s.open == 0
            && TransportInv(s.values, Stopped) && s.values[NEXT_AV_URI] == Text("")
  {
    TransportNames.NamesAreDistinct();
    assert table.names[LAST_CHANGE] in table.names;
    ghost var values := table.values;
    collector := new LastChangeCollector(table);
    InitialTable(values, collector.lastChangeVariable);
    collector.AddIgnore(REL_TIME_POS);
    collector.AddIgnore(ABS_TIME_POS);
    collector.AddIgnore(REL_CTR_POS);
    collector.AddIgnore(ABS_CTR_POS);
  }

  class Renderer {
    const vars: VariableTable
    const lastChange: LastChangeCollector
    const output: Output
    var transportState: TransportState

    /** All of upnp_transport_get_service and upnp_transport_init: times and
        counters are not evented. */
    constructor (padmux: int, ok: bool)
      ensures Valid() && SysInv(Model()) && Model().table.open == 0
      ensures Model().out.uri.None? && Model().out.state == STATE_STOP
      ensures Model().out.duration == 0 && Model().out.position == 0 && Model().out.spdifIn
      ensures Watchdog.Explains([], Model().out, Watchdog.Counters(0, 0, 0)) && Watchdog.LinesInOrder(Model().out)
    {
      var out := new Output(padmux, ok);
      var table := new VariableTable(TransportNames.Names(), TransportNames.Defaults());
      DefaultsAreInitial(table.values);
      var collector := NewCollector(table);
      vars, lastChange, output := table, collector, out;
      transportState := Stopped;
      Watchdog.InitialLinesInOrder(out.Model());
    }

    ghost predicate Valid()
      reads this, vars, lastChange, lastChange.builder
    {
      && lastChange.container == vars && lastChange.Valid() && lastChange.registered
      && TransportTable(lastChange.State())
    }

    ghost function Table(): State
      reads vars, lastChange, lastChange.builder
      requires lastChange.container == vars && lastChange.lastChangeVariable >= 0
    {
      lastChange.State()
    }

    ghost function Model(): Sys
      reads this, vars, lastChange, lastChange.builder, output
      requires lastChange.container == vars && lastChange.lastChangeVariable >= 0
    {
      Sys(Table(), transportState, output.Model())
    }

    method ServiceLock()
      requires Valid()
      modifies lastChange`openTransactions
      ensures Valid() && Table() == Start(old(Table()))
    {
      lastChange.Start();
    }

    method ServiceUnlock()
      requires Valid() && lastChange.openTransactions >= 1
      modifies lastChange`openTransactions, lastChange`sent, lastChange`flushed, lastChange.builder, vars`values
      ensures Valid() && Table() == Finish(old(Table()))
    {
      lastChange.Finish();
    }

    function GetVar(v: nat): Value
      reads vars
      requires v < |vars.values|
    {
      vars.values[v]
    }

    method ReplaceVar(v: nat, x: Option<Value>) returns (changed: bool)
      requires Valid() && v < UNKNOWN && v != LAST_CHANGE
      modifies lastChange`sent, lastChange`flushed, lastChange.builder, vars`values
      ensures Valid() && PlainWrites([Write(v, x.GetOr(Text("")))])
      ensures Table() == Written(old(Table()), [Write(v, x.GetOr(Text("")))])
      ensures changed <==> old(vars.values)[v] != x.GetOr(Text(""))
    {
      WrittenOne(Table(), v, x.GetOr(Text("")));
      changed := vars.Change(lastChange, v, x);
    }

    /** The result tells whether metadata of the stream are wanted while it plays. */
    method ReplaceTransportUriAndMeta(uri: Value, meta: Value) returns (wantsStreamMeta: bool)
      requires Valid()
      modifies lastChange`sent, lastChange`flushed, lastChange.builder, vars`values
      ensures Valid() && PlainWrites(UriWrites(uri, meta))
      ensures Table() == Written(old(Table()), UriWrites(uri, meta))
      ensures wantsStreamMeta <==> meta == Text("") || (meta.Text? && Contains(meta.text, "object.item.audioItem"))
    {
      ghost var s := Table();
      var tracks := if uri != Text("") then "1" else "0";
      var _ := ReplaceVar(AV_URI, Some(uri));
      var _ := ReplaceVar(AV_URI_META, Some(meta));
      var _ := ReplaceVar(NR_TRACKS, Some(Text(tracks)));
      WrittenThree(s, Write(AV_URI, uri), Write(AV_URI_META, meta), Write(NR_TRACKS, Text(tracks)));
      wantsStreamMeta := meta == Text("") || (meta.Text? && Contains(meta.text, "object.item.audioItem"));
    }

    method ReplaceCurrentUriAndMeta(uri: Value, meta: Option<Value>)
      requires Valid()
      modifies lastChange`sent, lastChange`flushed, lastChange.builder, vars`values
      ensures Valid() && PlainWrites(CurrentWrites(uri, meta.GetOr(Text(""))))
      ensures Table() == Written(old(Table()), CurrentWrites(uri, meta.GetOr(Text(""))))
    {
      ghost var s := Table();
      var tracks := if uri != Text("") then "1" else "0";
      var _ := ReplaceVar(CUR_TRACK, Some(Text(tracks)));
      var _ := ReplaceVar(CUR_TRACK_URI, Some(uri));
      var _ := ReplaceVar(CUR_TRACK_META, meta);
      WrittenThree(s, Write(CUR_TRACK, Text(tracks)), Write(CUR_TRACK_URI, uri),
                   Write(CUR_TRACK_META, meta.GetOr(Text(""))));
    }

    /** Both the transport and its current track get this URI. */
    method AdoptUri(uri: Value, meta: Value)
      requires Valid()
      modifies lastChange`sent, lastChange`flushed, lastChange.builder, vars`values
      ensures Valid() && PlainWrites(UriWrites(uri, meta) + CurrentWrites(uri, meta))
      ensures Table() == Written(old(Table()), UriWrites(uri, meta) + CurrentWrites(uri, meta))
    {
      ghost var s := Table();
      var _ := ReplaceTransportUriAndMeta(uri, meta);
      ReplaceCurrentUriAndMeta(uri, Some(meta));
      WrittenConcat(s, UriWrites(uri, meta), CurrentWrites(uri, meta));
    }

    method ChangeTransportState(st: TransportState)
      requires Valid() && st != NoMediaPresent
      modifies `transportState, lastChange`sent, lastChange`flushed, lastChange.builder, vars`values
      ensures Valid() && transportState == st
      ensures PlainWrites(StateWrites(old(vars.values), st))
      ensures Table() == Written(old(Table()), StateWrites(old(vars.values), st))
    {
      ghost var s := Table();
      transportState := st;
      var changed := ReplaceVar(TRANSPORT_STATE, Some(Text(StateName(st))));
      if !changed {
        return;
      }
      if AvailableActions(st).Some? {
        var actions := Text(AvailableActions(st).value);
        var _ := ReplaceVar(CUR_TRANSPORT_ACTIONS, Some(actions));
        WrittenConcat(s, [Write(TRANSPORT_STATE, Text(StateName(st)))], [Write(CUR_TRANSPORT_ACTIONS, actions)]);
      }
    }

    // ---- The callback of the output module ----

    method TransitionFromOutput(fb: Feedback)
      requires Valid()
      modifies `transportState, lastChange`openTransactions, lastChange`sent, lastChange`flushed,
               lastChange.builder, vars`values
      ensures Valid() && PlainWrites(FeedbackWrites(old(vars.values), fb))
      ensures Legal(old(Table()), Section(FeedbackWrites(old(vars.values), fb)))
      ensures Table() == Run(old(Table()), Section(FeedbackWrites(old(vars.values), fb)))
      ensures transportState == if fb.PlayStopped? then Stopped else old(transportState)
    {
      ghost var before, writes := Table(), FeedbackWrites(vars.values, fb);
      FeedbackIsPlain(vars.values, fb);
      SectionIsBracketed(before, writes);
      ServiceLock();
      match fb {
        case PlayStopped => ForgetUris();
        case PlayStartedNextStream => TakeNextUri();
      }
      ServiceUnlock();
    }

    method ForgetUris()
      requires Valid()
      modifies `transportState, lastChange`sent, lastChange`flushed, lastChange.builder, vars`values
      ensures Valid() && transportState == Stopped && PlainWrites(FeedbackWrites(old(vars.values), PlayStopped))
      ensures Table() == Written(old(Table()), FeedbackWrites(old(vars.values), PlayStopped))
    {
      ghost var s := Table();
      var none := Text("");
      AdoptUri(none, none);
      StateWritesUnaffected(s, UriWrites(none, none) + CurrentWrites(none, none), Stopped);
      ghost var mid := vars.values;
      ChangeTransportState(Stopped);
      WrittenConcat(s, UriWrites(none, none) + CurrentWrites(none, none), StateWrites(mid, Stopped));
    }

    method TakeNextUri()
      requires Valid()
      modifies lastChange`sent, lastChange`flushed, lastChange.builder, vars`values
      ensures Valid() && PlainWrites(FeedbackWrites(old(vars.values), PlayStartedNextStream))
      ensures Table() == Written(old(Table()), FeedbackWrites(old(vars.values), PlayStartedNextStream))
    {
      ghost var s := Table();
      var uri := GetVar(NEXT_AV_URI);
      var meta := GetVar(NEXT_AV_URI_META);
      AdoptUri(uri, meta);
      ghost var t := Table();
      var _ := ReplaceVar(NEXT_AV_URI, Some(Text("")));
      var _ := ReplaceVar(NEXT_AV_URI_META, Some(Text("")));
      WrittenTwo(t, Write(NEXT_AV_URI, Text("")), Write(NEXT_AV_URI_META, Text("")));
      WrittenConcat(s, UriWrites(uri, meta) + CurrentWrites(uri, meta),
                    [Write(NEXT_AV_URI, Text("")), Write(NEXT_AV_URI_META, Text(""))]);
    }

    /** A message of the player about its state. */
    method OnPlayState(state: int, ok: bool)
      requires Valid()
      modifies `transportState, output, lastChange`openTransactions, lastChange`sent, lastChange`flushed,
               lastChange.builder, vars`values
      ensures Valid() && Model() == Next(old(Model()), PlayStateMessage(state, ok))
    {
      var fb := output.ReceivePlayState(state, ok);
      if fb.Some? {
        TransitionFromOutput(fb.value);
      }
    }

    /** The key that selects S/PDIF stops the transport. */
    method OnRadioKey(ok: bool)
      requires Valid()
      modifies `transportState, output, lastChange`openTransactions, lastChange`sent, lastChange`flushed,
               lastChange.builder, vars`values
      ensures Valid() && Model() == Next(old(Model()), AvTransport.RadioKey(ok))
    {
      output.SetSpdifIn(ok);
      TransitionFromOutput(PlayStopped);
    }

    // ---- Action handlers ----

    method SetAvTransportUri(instanceId: Option<string>, uri: Option<string>, meta: Option<string>) returns (rc: int)
      requires Valid()
      modifies `transportState, output, lastChange`openTransactions, lastChange`sent, lastChange`flushed,
               lastChange.builder, vars`values
      ensures Valid()
      ensures instanceId.None? || uri.None? ==> rc == -1 && Model() == old(Model())
      ensures instanceId.Some? && uri.Some? ==> rc == 0 && Model() == Next(old(Model()), SetUri(uri.value, meta))
    {
      if instanceId == None || uri == None {
        return -1;
      }
      ghost var y := Model();
      EventIsSection(y, SetUri(uri.value, meta));
      ServiceLock();
      StoreUri(uri.value, meta);
      output.SetUri(uri.value);
      ServiceUnlock();
      return 0;
    }

    /** While playing, the current track follows at once. */
    method StoreUri(uri: string, meta: Option<string>)
      requires Valid()
      modifies lastChange`sent, lastChange`flushed, lastChange.builder, vars`values
      ensures var u, m := Text(uri), Text(meta.GetOr(""));
              var writes := UriWrites(u, m) + if transportState == Playing then CurrentWrites(u, m) else [];
              Valid() && PlainWrites(writes) && Table() == Written(old(Table()), writes)
    {
      ghost var s := Table();
      ghost var u, m := Text(uri), Text(meta.GetOr(""));
      var _ := ReplaceTransportUriAndMeta(Text(uri), if meta.Some? then Text(meta.value) else Text(""));
      if transportState == Playing {
        ReplaceCurrentUriAndMeta(Text(uri), if meta.Some? then Some(Text(meta.value)) else None);
        WrittenConcat(s, UriWrites(u, m), CurrentWrites(u, m));
      } else {
        assert UriWrites(u, m) + [] == UriWrites(u, m);
      }
    }

    /** The next URI is taken even if its metadata are missing, which is an error. */
    method SetNextAvTransportUri(instanceId: Option<string>, uri: Option<string>, meta: Option<string>)
      returns (rc: int)
      requires Valid()
      modifies `transportState, output, lastChange`openTransactions, lastChange`sent, lastChange`flushed,
               lastChange.builder, vars`values
      ensures Valid()
      ensures instanceId.None? || uri.None? ==> rc == -1 && Model() == old(Model())
      ensures instanceId.Some? && uri.Some? ==> Model() == Next(old(Model()), SetNextUri(uri.value, meta))
      ensures rc == if instanceId.Some? && uri.Some? && meta.Some? then 0 else -1
    {
      if instanceId == None || uri == None {
        return -1;
      }
      ghost var y := Model();
      EventIsSection(y, SetNextUri(uri.value, meta));
      rc := 0;
      ServiceLock();
      ghost var s := Table();
      output.SetNextUri(uri.value);
      var _ := ReplaceVar(NEXT_AV_URI, Some(Text(uri.value)));
      assert [Write(NEXT_AV_URI, Text(uri.value))] + [] == [Write(NEXT_AV_URI, Text(uri.value))];
      if meta == None {
        rc := -1;
      } else {
        var _ := ReplaceVar(NEXT_AV_URI_META, Some(Text(meta.value)));
        WrittenConcat(s, [Write(NEXT_AV_URI, Text(uri.value))], [Write(NEXT_AV_URI_META, Text(meta.value))]);
      }
      ServiceUnlock();
    }

    method Stop(instanceId: Option<string>, ok: bool) returns (rc: int)
      requires Valid()
      modifies `transportState, output, lastChange`openTransactions, lastChange`sent, lastChange`flushed,
               lastChange.builder, vars`values
      ensures Valid()
      ensures instanceId.None? ==> rc == -1 && Model() == old(Model())
      ensures instanceId.Some? ==> rc == 0 && Model() == Next(old(Model()), AvTransport.Stop(ok))
    {
      if instanceId == None {
        return -1;
      }
      ghost var y := Model();
      EventIsSection(y, AvTransport.Stop(ok));
      ServiceLock();
      if transportState != Stopped && transportState != NoMediaPresent {
        StopPlayer(ok);
      } else {
        NothingWritten(Table());
      }
      ServiceUnlock();
      return 0;
    }

    method StopPlayer(ok: bool)
      requires Valid()
      modifies `transportState, output, lastChange`sent, lastChange`flushed, lastChange.builder, vars`values
      ensures Valid() && output.Model() == Send(old(output.Model()), StopPlaying, ok) && transportState == Stopped
      ensures PlainWrites(StateWrites(old(vars.values), Stopped))
      ensures Table() == Written(old(Table()), StateWrites(old(vars.values), Stopped))
    {
      var _ := output.SendCommand(StopPlaying, ok);
      ChangeTransportState(Stopped);
    }

    method Play(instanceId: Option<string>, ok: bool) returns (rc: int)
      requires Valid()
      modifies `transportState, output, lastChange`openTransactions, lastChange`sent, lastChange`flushed,
               lastChange.builder, vars`values
      ensures Valid()
      ensures instanceId.None? ==> rc == -1 && Model() == old(Model())
      ensures instanceId.Some? ==> Model() == Next(old(Model()), AvTransport.Play(ok))
      ensures instanceId.Some? ==> (rc == 0 <==> old(transportState) == Playing || Starting(old(Model()), ok))
      ensures rc == 0 || rc == -1
    {
      if instanceId == None {
        return -1;
      }
      ghost var y := Model();
      EventIsSection(y, AvTransport.Play(ok));
      rc := 0;
      ServiceLock();
      NothingWritten(Table());
      if transportState == Stopped || transportState == PausedPlayback {
        rc := StartOrResume(y, ok);
      } else if transportState != Playing {
        rc := -1;
      }
      ServiceUnlock();
    }

    /** A stopped transport starts its track time over, then goes on like a paused one. */
    method StartOrResume(ghost y: Sys, ok: bool) returns (rc: int)
      requires Valid() && transportState in {Stopped, PausedPlayback}
      requires TransportTable(y.table) && Table() == Start(y.table)
      requires y.state == transportState && y.out == output.Model()
      modifies `transportState, output, lastChange`sent, lastChange`flushed, lastChange.builder, vars`values
      ensures Valid() && output.Model() == AfterPlay(y.out, ok)
      ensures rc == if Starting(y, ok) then 0 else -1
      ensures transportState == if Starting(y, ok) then Playing else y.state
      ensures PlainWrites(PlayWrites(y, ok)) && Table() == Written(Start(y.table), PlayWrites(y, ok))
    {
      RestartTime();
      PlayWritesFollow(y, ok);
      rc := StartPlaying(ok);
    }

    method RestartTime()
      requires Valid()
      modifies lastChange`sent, lastChange`flushed, lastChange.builder, vars`values
      ensures Valid() && PlainWrites(RestartWrites(transportState))
      ensures Table() == Written(old(Table()), RestartWrites(transportState))
    {
      NothingWritten(Table());
      if transportState == Stopped {
        var _ := ReplaceVar(REL_TIME_POS, Some(Text(ZERO_TIME)));
      }
    }

    /** What a stopped and a paused transport have in common. */
    method StartPlaying(ok: bool) returns (rc: int)
      requires Valid()
      modifies `transportState, output, lastChange`sent, lastChange`flushed, lastChange.builder, vars`values
      ensures Valid() && output.Model() == AfterPlay(old(output.Model()), ok)
      ensures rc == if PlaySucceeds(old(output.Model()), ok) then 0 else -1
      ensures rc == 0 ==> transportState == Playing && PlainWrites(PlayingWrites(old(vars.values)))
                          && Table() == Written(old(Table()), PlayingWrites(old(vars.values)))
      ensures rc != 0 ==> transportState == old(transportState) && Table() == old(Table())
    {
      ghost var s, values := Table(), vars.values;
      var failed := output.Play(ok);
      if failed {
        return -1;
      }
      ChangeTransportState(Playing);
      UrisUnaffected(s, StateWrites(values, Playing));
      var uri := GetVar(AV_URI);
      var meta := GetVar(AV_URI_META);
      ReplaceCurrentUriAndMeta(uri, Some(meta));
      WrittenConcat(s, StateWrites(values, Playing), CurrentWrites(uri, meta));
      return 0;
    }

    method PauseStream(instanceId: Option<string>, ok: bool) returns (rc: int)
      requires Valid()
      modifies `transportState, output, lastChange`openTransactions, lastChange`sent, lastChange`flushed,
               lastChange.builder, vars`values
      ensures Valid()
      ensures instanceId.None? ==> rc == -1 && Model() == old(Model())
      ensures instanceId.Some? ==> Model() == Next(old(Model()), Pause(ok))
      ensures instanceId.Some? ==>
                (rc == 0 <==> old(transportState) == PausedPlayback || (old(transportState) == Playing && ok))
      ensures rc == 0 || rc == -1
    {
      if instanceId == None {
        return -1;
      }
      ghost var y := Model();
      EventIsSection(y, Pause(ok));
      rc := 0;
      ServiceLock();
      NothingWritten(Table());
      match transportState {
        case PausedPlayback =>
        case Playing =>
          var failed := output.SendCommand(TogglePause, ok);
          if failed {
            rc := -1;
          } else {
            ChangeTransportState(PausedPlayback);
          }
        case _ =>
          rc := -1;
      }
      ServiceUnlock();
    }

    /** Only relative times are supported; anything else is ignored without an error. */
    method Seek(instanceId: Option<string>, unit: Option<string>, target: Option<string>, ok: bool) returns (rc: int)
      requires Valid()
      modifies `transportState, output, lastChange`openTransactions, lastChange`sent, lastChange`flushed,
               lastChange.builder, vars`values
      ensures Valid()
      ensures rc == if instanceId.None? || unit.None? || (unit == Some("REL_TIME") && target.None?) then -1 else 0
      ensures instanceId.Some? && unit == Some("REL_TIME") && target.Some? ==>
                Model() == Next(old(Model()), AvTransport.Seek(target.value, ok))
      ensures !(instanceId.Some? && unit == Some("REL_TIME") && target.Some?) ==> Model() == old(Model())
    {
      if instanceId == None || unit == None {
        return -1;
      }
      if unit.value == "REL_TIME" {
        if target == None {
          return -1;
        }
        var seconds := UpnpTime.Parse(target.value);
        ghost var y := Model();
        EventIsSection(y, AvTransport.Seek(target.value, ok));
        ServiceLock();
        NothingWritten(Table());
        var failed := output.SendCommand(SeekTo(seconds), ok);
        if !failed {
          var _ := ReplaceVar(REL_TIME_POS, Some(Text(target.value)));
        }
        ServiceUnlock();
      }
      return 0;
    }

    method UpdateTrackTime(reply: Option<int>, ok: bool)
      requires Valid()
      modifies `transportState, output, lastChange`openTransactions, lastChange`sent, lastChange`flushed,
               lastChange.builder, vars`values
      ensures Valid() && Model() == Next(old(Model()), UpdateTime(reply, ok))
    {
      UpdateTimeIs(Model(), reply, ok);
      var duration, position := output.GetPosition(reply, ok);
      ServiceLock();
      StoreTimes(duration, position);
      ServiceUnlock();
    }

    method StoreTimes(duration: int, position: int)
      requires Valid()
      modifies lastChange`sent, lastChange`flushed, lastChange.builder, vars`values
      ensures Valid() && PlainWrites(TimeWrites(duration, position))
      ensures Table() == Written(old(Table()), TimeWrites(duration, position))
    {
      ghost var s := Table();
      var text := UpnpTime.PrintUpnpTime(duration);
      var _ := ReplaceVar(CUR_TRACK_DUR, Some(Text(text)));
      ghost var first := text;
      text := UpnpTime.PrintUpnpTime(position);
      var _ := ReplaceVar(REL_TIME_POS, Some(Text(text)));
      WrittenTwo(s, Write(CUR_TRACK_DUR, Text(first)), Write(REL_TIME_POS, Text(text)));
    }

    // ---- Any action ----

    method CallHandler(r: Request, reply: Option<int>, ok: bool)
      requires Valid()
      modifies `transportState, output, lastChange`openTransactions, lastChange`sent, lastChange`flushed,
               lastChange.builder, vars`values
      ensures Valid() && Model() == NextIf(old(Model()), EventOf(r, reply, ok))
    {
      match r {
        case SetAVTransportURI(id, uri, meta) => var _ := SetAvTransportUri(id, uri, meta);
        case SetNextAVTransportURI(id, uri, meta) => var _ := SetNextAvTransportUri(id, uri, meta);
        case StopRequest(id) => var _ := Stop(id, ok);
        case PlayRequest(id) => var _ := Play(id, ok);
        case PauseRequest(id) => var _ := PauseStream(id, ok);
        case SeekRequest(id, unit, target) => var _ := Seek(id, unit, target, ok);
        case GetPositionInfo(id) =>
          if id.Some? {
            UpdateTrackTime(reply, ok);
          }
        case OtherRequest =>
      }
    }

    /** The handler of a request runs inside one more level of the transaction, so
        that the change event leaves only when the action is over. */
    method HandleActionRequest(r: Request, reply: Option<int>, ok: bool)
      requires Valid()
      modifies `transportState, output, lastChange`openTransactions, lastChange`sent, lastChange`flushed,
               lastChange.builder, vars`values
      ensures Valid()
      ensures var done := NextIf(Next(old(Model()), ActionBegins), EventOf(r, reply, ok));
              done.table.open >= 1 && Model() == Next(done, ActionEnds)
    {
      RequestIsBracketed(Model(), EventOf(r, reply, ok));
      lastChange.Start();
      CallHandler(r, reply, ok);
      lastChange.Finish();
    }
  }

  // ---- Lists of changes ----

  lemma WrittenTwo(s: State, a: Op, b: Op)
    requires AvTransport.TransportTable(s) && PlainWrites([a]) && PlainWrites([b])
    ensures PlainWrites([a, b])
    ensures Written(s, [a, b]) == Written(Written(s, [a]), [b])
  {
    WrittenConcat(s, [a], [b]);
    assert [a] + [b] == [a, b];
  }

  lemma NothingWritten(s: State)
    requires AvTransport.TransportTable(s)
    ensures PlainWrites([]) && Written(s, []) == s
  {
  }

  ghost function PlayingWrites(values: seq<Value>): seq<Op>
    requires |values| == COUNT
  {
    StateWrites(values, Playing) + CurrentWrites(values[AV_URI], values[AV_URI_META])
  }

  lemma {:induction false} UnwrittenIsKept(s: State, ops: seq<Op>, v: nat)
    requires AvTransport.TransportTable(s) && PlainWrites(ops) && Unwritten(ops, v)
    requires v < UNKNOWN && v != LAST_CHANGE
    ensures Written(s, ops).values[v] == s.values[v]
    decreases |ops|
  {
    WritesAreLegal(s, ops);
    if ops != [] {
      assert Allowed(s, ops[0]);
      assert AvTransport.TransportTable(Step(s, ops[0]));
      UnwrittenIsKept(Step(s, ops[0]), ops[1..], v);
    }
  }

  lemma UrisUnaffected(s: State, ops: seq<Op>)
    requires AvTransport.TransportTable(s) && PlainWrites(ops)
    requires Unwritten(ops, AV_URI) && Unwritten(ops, AV_URI_META)
    ensures Written(s, ops).values[AV_URI] == s.values[AV_URI]
    ensures Written(s, ops).values[AV_URI_META] == s.values[AV_URI_META]
  {
    UnwrittenIsKept(s, ops, AV_URI);
    UnwrittenIsKept(s, ops, AV_URI_META);
  }

  lemma StateWritesUnaffected(s: State, ops: seq<Op>, st: TransportState)
    requires AvTransport.TransportTable(s) && PlainWrites(ops) && Unwritten(ops, TRANSPORT_STATE)
    ensures StateWrites(Written(s, ops).values, st) == StateWrites(s.values, st)
  {
    UnwrittenIsKept(s, ops, TRANSPORT_STATE);
  }

  /** The locked section of an event, in the steps a handler takes. */
  lemma EventIsSection(y: Sys, e: AvTransport.Event)
    requires AvTransport.TransportTable(y.table) && WritesOf(y, e).Some? && Enabled(y, e)
    ensures var writes := WritesOf(y, e).value;
            && PlainWrites(writes)
            && Written(Start(y.table), writes).open >= 1
            && Next(y, e).table == Finish(Written(Start(y.table), writes))
  {
    WritesArePlain(y, e);
    SectionIsBracketed(y.table, WritesOf(y, e).value);
  }

  lemma UpdateTimeIs(y: Sys, reply: Option<int>, ok: bool)
    requires AvTransport.TransportTable(y.table)
    ensures var position := reply.GetOr(y.out.position);
            var writes := TimeWrites(y.out.duration, position);
            && PlainWrites(writes) && Written(Start(y.table), writes).open >= 1
            && Next(y, UpdateTime(reply, ok))
            == Sys(Finish(Written(Start(y.table), writes)), y.state, Send(y.out, GetTimePos, ok).(position := position))
  {
    EventIsSection(y, UpdateTime(reply, ok));
  }

  /** What playing writes can be told after the time was restarted. */
  lemma PlayWritesFollow(y: Sys, ok: bool)
    requires AvTransport.TransportTable(y.table)
    ensures var first := RestartWrites(y.state);
            && PlainWrites(first)
            && var t := Written(Start(y.table), first);
               var rest := if Starting(y, ok) then PlayingWrites(t.values) else [];
               && PlainWrites(rest) && PlayWrites(y, ok) == first + rest
               && PlainWrites(PlayWrites(y, ok)) && Written(Start(y.table), PlayWrites(y, ok)) == Written(t, rest)
               && Written(t, []) == t
  {
    var s, first := Start(y.table), RestartWrites(y.state);
    UrisUnaffected(s, first);
    StateWritesUnaffected(s, first, Playing);
    var values := Written(s, first).values;
    PlainParts(values[AV_URI], values[AV_URI_META], values, Playing, []);
    PlainParts(values[AV_URI], values[AV_URI_META], values, Playing, StateWrites(values, Playing));
    WrittenConcat(s, first, if Starting(y, ok) then PlayingWrites(values) else []);
    NothingWritten(Written(s, first));
  }

  lemma BracketSteps(y: Sys)
    requires AvTransport.TransportTable(y.table)
    ensures Next(y, ActionBegins) == y.(table := Start(y.table))
  {
    assert [Begin][1..] == [];
    assert Run(y.table, [Begin]) == Run(Step(y.table, Begin), [Begin][1..]);
  }

  lemma BracketEnds(y: Sys)
    requires AvTransport.TransportTable(y.table) && y.table.open >= 1
    ensures Next(y, ActionEnds) == y.(table := Finish(y.table))
  {
    assert [End][1..] == [];
    assert Run(y.table, [End]) == Run(Step(y.table, End), [End][1..]);
  }

  /** One event, or none. */
  ghost function NextIf(y: Sys, e: Option<AvTransport.Event>): Sys
    requires AvTransport.TransportTable(y.table) && (e.Some? ==> !e.value.ActionEnds?)
    ensures AvTransport.TransportTable(NextIf(y, e).table)
  {
    if e.Some? then Next(y, e.value) else y
  }

  /** What a complete request is for: the state it leaves, and the messages it sends. */
  lemma PlaybackRequests(y: Sys, id: string, reply: Option<int>, ok: bool)
    requires y.state in {Stopped, Playing, PausedPlayback}
    ensures var e := EventOf(StopRequest(Some(id)), reply, ok);
            && e.Some? && StateAfter(y, e.value) == Stopped
            && OutAfter(y, e.value).commands
               == y.out.commands + if ok && y.state != Stopped then [StopPlaying] else []
    ensures var e := EventOf(PauseRequest(Some(id)), reply, ok);
            && e.Some? && StateAfter(y, e.value) == (if ok && y.state == Playing then PausedPlayback else y.state)
            && OutAfter(y, e.value).commands
               == y.out.commands + if ok && y.state == Playing then [TogglePause] else []
    ensures var e := EventOf(PlayRequest(Some(id)), reply, ok);
            e.Some? && (ok && (y.state == Playing || y.out.uri.Some?) ==> StateAfter(y, e.value) == Playing)
  {
    assert y.out.commands + [] == y.out.commands;
  }

  lemma UriRequests(y: Sys, id: string, uri: string, meta: Option<string>, reply: Option<int>, ok: bool)
    ensures var e := EventOf(SetAVTransportURI(Some(id), Some(uri), meta), reply, ok);
            e.Some? && OutAfter(y, e.value) == y.out.(uri := NonEmpty(uri))
    ensures var e := EventOf(SetNextAVTransportURI(Some(id), Some(uri), meta), reply, ok);
            e.Some? && OutAfter(y, e.value) == y.out.(uriNext := NonEmpty(uri))
  {
  }

  lemma TimeRequests(y: Sys, id: string, target: string, reply: Option<int>, ok: bool)
    ensures var e := EventOf(SeekRequest(Some(id), Some("REL_TIME"), Some(target)), reply, ok);
            && e.Some? && OutAfter(y, e.value).commands
                          == y.out.commands + if ok then [SeekTo(UpnpTime.Parse(target))] else []
    ensures var e := EventOf(GetPositionInfo(Some(id)), reply, ok);
            && e.Some? && OutAfter(y, e.value).position == reply.GetOr(y.out.position)
            && OutAfter(y, e.value).commands == y.out.commands + if ok then [GetTimePos] else []
  {
    assert y.out.commands + [] == y.out.commands;
  }

  lemma LevelIsKept(y: Sys, e: Option<AvTransport.Event>)
    requires AvTransport.TransportTable(y.table)
    requires e.Some? ==> WritesOf(y, e.value).Some?
    ensures NextIf(y, e).table.open == y.table.open
  {
    if e.Some? {
      WritesArePlain(y, e.value);
      SectionIsLegal(y.table, WritesOf(y, e.value).value);
    }
  }

  /** A request in the three steps it takes. */
  lemma RequestIsBracketed(y: Sys, e: Option<AvTransport.Event>)
    requires AvTransport.TransportTable(y.table) && (e.Some? ==> WritesOf(y, e.value).Some?)
    ensures Next(y, ActionBegins) == y.(table := Start(y.table))
    ensures var done := NextIf(Next(y, ActionBegins), e);
            done.table.open >= 1 && Next(done, ActionEnds) == done.(table := Finish(done.table))
  {
    BracketSteps(y);
    LevelIsKept(y.(table := Start(y.table)), e);
    BracketEnds(NextIf(Next(y, ActionBegins), e));
  }

  lemma WrittenThree(s: State, a: Op, b: Op, c: Op)
    requires AvTransport.TransportTable(s) && PlainWrites([a]) && PlainWrites([b]) && PlainWrites([c])
    ensures PlainWrites([a, b, c])
    ensures Written(s, [a, b, c]) == Written(Written(Written(s, [a]), [b]), [c])
  {
    WrittenConcat(s, [a], [b]);
    assert [a] + [b] == [a, b];
    WrittenConcat(s, [a, b], [c]);
    assert [a, b] + [c] == [a, b, c];
  }

  ghost function WithIgnored(s: State): State {
    s.(ignored := s.ignored + {REL_TIME_POS} + {ABS_TIME_POS} + {REL_CTR_POS} + {ABS_CTR_POS})
  }

  /** What the variables of the transport hold at first. */
  ghost predicate InitialValues(values: seq<Value>) {
    && |values| == COUNT
    && values[TRANSPORT_STATE] == Text("STOPPED") && values[CUR_TRANSPORT_ACTIONS] == Text("PLAY")
    && values[NR_TRACKS] == values[CUR_TRACK] == Text("0")
    && values[AV_URI] == values[CUR_TRACK_URI] == values[NEXT_AV_URI] == Text("")
    && values[LAST_CHANGE].Text?
  }

  lemma DefaultsAreInitial(values: seq<Value>)
    requires |values| == COUNT
    requires forall v :: 0 <= v < COUNT ==> values[v] == TransportNames.Defaults()[v].GetOr(Text(""))
    ensures InitialValues(values)
  {
  }

  lemma IgnoringFour(s: State)
    requires Inv(s)
    ensures Inv(WithIgnored(s))
  {
  }

  /** The table that the initial values and the first document make. */
  lemma InitialTable(values: seq<Value>, lastChange: nat)
    requires InitialValues(values)
    requires lastChange < COUNT && TransportNames.Names()[lastChange] == Some("LastChange")
    ensures var s := WithIgnored(Created(TransportNames.Names(), values, lastChange));
            && AvTransport.TransportTable(s) && Inv(s) && s.open == 0
            && TransportInv(s.values, Stopped) && s.values[NEXT_AV_URI] == Text("")
  {
    var names := TransportNames.Names();
    TransportNames.NamesAreDistinct();
    assert lastChange == LAST_CHANGE;
    CreatedIsInv(names, values, lastChange);
    IgnoringFour(Created(names, values, lastChange));
  }
}
