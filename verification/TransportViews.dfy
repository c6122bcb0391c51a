/** The transport as its subscribers and the player see it, over whole runs. */
module TransportViews {
  import opened Options
  import ChangeLog
  import opened LastChange
  import opened Replica
  import Subscription
  import opened SilanOutput
  import opened AvTransport
  import TransportNames

  // ---- Runs of events ----

  ghost predicate Possible(y: Sys, events: seq<AvTransport.Event>)
    requires TransportTable(y.table)
    decreases |events|
  {
    events == [] || (Enabled(y, events[0]) && Possible(Next(y, events[0]), events[1..]))
  }

  ghost function After(y: Sys, events: seq<AvTransport.Event>): (z: Sys)
    requires TransportTable(y.table) && Possible(y, events)
    ensures TransportTable(z.table) && y.table.sent <= z.table.sent
    decreases |events|
  {
    if events == [] then y
    else
      EventIsLegal(y, events[0]);
      After(Next(y, events[0]), events[1..])
  }

  /** In every run the transport is stopped, playing or paused, its variables go
      together, and the output's next URI is the one in the table. */
  lemma {:induction false} RunKeepsSysInv(y: Sys, events: seq<AvTransport.Event>)
    requires SysInv(y) && Possible(y, events)
    ensures SysInv(After(y, events))
    decreases |events|
  {
    if events != [] {
      EventKeepsInv(y, events[0]);
      RunKeepsSysInv(Next(y, events[0]), events[1..]);
    }
  }

  // ---- What subscribers see ----

  /** A view of the transport in state `st` that makes sense. */
  ghost predicate ViewShows(view: View, st: TransportState) {
    && "TransportState" in view && "CurrentTransportActions" in view
    && "NumberOfTracks" in view && "AVTransportURI" in view && "AVTransportURIMetaData" in view
    && "CurrentTrack" in view && "CurrentTrackURI" in view && "CurrentTrackMetaData" in view
    && st in {Stopped, Playing, PausedPlayback}
    && view["TransportState"] == Text(StateName(st))
    && view["CurrentTransportActions"] == Text(AvailableActions(st).value)
    && view["NumberOfTracks"] == Tracks(view["AVTransportURI"])
    && view["CurrentTrack"] == Tracks(view["CurrentTrackURI"])
    && (st == Playing ==>
          && view["CurrentTrackURI"] == view["AVTransportURI"]
          && view["CurrentTrackMetaData"] == view["AVTransportURIMetaData"])
  }

  ghost predicate ConsistentView(view: View) {
    exists st: TransportState :: ViewShows(view, st)
  }

  lemma AgreeingShows(y: Sys, view: View, v: nat, name: string)
    requires SysInv(y) && Agrees(y.table, view)
    requires v < UNKNOWN && y.table.names[v] == Some(name) && v !in y.table.ignored && !ArgumentType(name)
    ensures name in view && view[name] == y.table.values[v]
  {
    assert Evented(y.table, v);
  }

  lemma ShownNames()
    ensures var names := TransportNames.Names();
            && names[TRANSPORT_STATE] == Some("TransportState")
            && names[CUR_TRANSPORT_ACTIONS] == Some("CurrentTransportActions")
            && names[NR_TRACKS] == Some("NumberOfTracks")
            && names[AV_URI] == Some("AVTransportURI")
            && names[AV_URI_META] == Some("AVTransportURIMetaData")
            && names[CUR_TRACK] == Some("CurrentTrack")
            && names[CUR_TRACK_URI] == Some("CurrentTrackURI")
            && names[CUR_TRACK_META] == Some("CurrentTrackMetaData")
  {
  }

  lemma NoArgumentTypes()
    ensures !ArgumentType("TransportState") && !ArgumentType("CurrentTransportActions")
    ensures !ArgumentType("NumberOfTracks") && !ArgumentType("CurrentTrack")
    ensures !ArgumentType("CurrentTrackURI") && !ArgumentType("CurrentTrackMetaData")
    ensures !ArgumentType("AVTransportURI") && !ArgumentType("AVTransportURIMetaData")
  {
    assert "AVTransportURI"[1] == "AVTransportURIMetaData"[1] == 'V' && "A_ARG_TYPE_"[1] == '_';
  }

  lemma AgreeingShowsUri(y: Sys, view: View)
    requires SysInv(y) && Agrees(y.table, view)
    ensures "AVTransportURI" in view && view["AVTransportURI"] == y.table.values[AV_URI]
    ensures "AVTransportURIMetaData" in view && view["AVTransportURIMetaData"] == y.table.values[AV_URI_META]
  {
    ShownNames();
    NoArgumentTypes();
    AgreeingShows(y, view, AV_URI, "AVTransportURI");
    AgreeingShows(y, view, AV_URI_META, "AVTransportURIMetaData");
  }

  lemma AgreeingShowsTrack(y: Sys, view: View)
    requires SysInv(y) && Agrees(y.table, view)
    ensures "CurrentTrackURI" in view && view["CurrentTrackURI"] == y.table.values[CUR_TRACK_URI]
    ensures "CurrentTrackMetaData" in view && view["CurrentTrackMetaData"] == y.table.values[CUR_TRACK_META]
  {
    ShownNames();
    NoArgumentTypes();
    AgreeingShows(y, view, CUR_TRACK_URI, "CurrentTrackURI");
    AgreeingShows(y, view, CUR_TRACK_META, "CurrentTrackMetaData");
  }

  lemma AgreeingShowsState(y: Sys, view: View)
    requires SysInv(y) && Agrees(y.table, view)
    ensures "TransportState" in view && view["TransportState"] == y.table.values[TRANSPORT_STATE]
    ensures "CurrentTransportActions" in view
    ensures view["CurrentTransportActions"] == y.table.values[CUR_TRANSPORT_ACTIONS]
  {
    ShownNames();
    NoArgumentTypes();
    AgreeingShows(y, view, TRANSPORT_STATE, "TransportState");
    AgreeingShows(y, view, CUR_TRANSPORT_ACTIONS, "CurrentTransportActions");
  }

  lemma AgreeingShowsNumbers(y: Sys, view: View)
    requires SysInv(y) && Agrees(y.table, view)
    ensures "NumberOfTracks" in view && view["NumberOfTracks"] == y.table.values[NR_TRACKS]
    ensures "CurrentTrack" in view && view["CurrentTrack"] == y.table.values[CUR_TRACK]
  {
    ShownNames();
    NoArgumentTypes();
    AgreeingShows(y, view, NR_TRACKS, "NumberOfTracks");
    AgreeingShows(y, view, CUR_TRACK, "CurrentTrack");
  }

  lemma AgreeingIsConsistent(y: Sys, view: View)
    requires SysInv(y) && Agrees(y.table, view)
    ensures ConsistentView(view)
  {
    AgreeingShowsUri(y, view);
    AgreeingShowsTrack(y, view);
    AgreeingShowsState(y, view);
    AgreeingShowsNumbers(y, view);
    assert ViewShows(view, y.state);
  }

  ghost predicate Following(y: Sys, view: View) {
    SysInv(y) && Behind(y.table, view) && !StaleRisk(y.table, view)
  }

  /** An event leaves a consistent view consistent: either the service is idle
      afterwards and the view is the table, or nothing was sent. */
  lemma EventKeepsView(y: Sys, view: View, e: AvTransport.Event)
    requires Following(y, view) && ConsistentView(view) && Enabled(y, e)
    ensures y.table.sent <= Next(y, e).table.sent
    ensures var seen := Advance(view, y.table, Next(y, e).table);
            Following(Next(y, e), seen) && ConsistentView(seen)
  {
    var z := Next(y, e);
    EventIsLegal(y, e);
    EventKeepsInv(y, e);
    RunKeepsSafe(y.table, view, OpsOf(y, e));
    var seen := Advance(view, y.table, z.table);
    if z.table.open == 0 {
      QuiescentAgrees(z.table, seen);
      AgreeingIsConsistent(z, seen);
    } else {
      assert z.table.sent[|y.table.sent|..] == [];
    }
  }

  lemma {:induction false} RunKeepsView(y: Sys, view: View, events: seq<AvTransport.Event>)
    requires Following(y, view) && ConsistentView(view) && Possible(y, events)
    ensures var seen := Advance(view, y.table, After(y, events).table);
            Following(After(y, events), seen) && ConsistentView(seen)
    decreases |events|
  {
    if events == [] {
      assert y.table.sent[|y.table.sent|..] == [];
    } else {
      var z := Next(y, events[0]);
      EventKeepsView(y, view, events[0]);
      RunKeepsView(z, Advance(view, y.table, z.table), events[1..]);
      AdvanceTwice(view, y.table, z.table, After(y, events).table);
    }
  }

  /** A subscriber whose snapshot was taken while no action was open, and that missed
      nothing before it was accepted, holds from then on, after every event of every
      run, a consistent state of the transport; and when no action is open it holds the
      state the transport is in. */
  lemma SubscribersSeeConsistentStates(y: Sys, between: seq<AvTransport.Event>, events: seq<AvTransport.Event>)
    requires SysInv(y) && y.table.open == 0 && Possible(y, between) && Possible(After(y, between), events)
    requires Subscription.NothingMissed(y.table, After(y, between).table)
    requires !StaleRisk(After(y, between).table, Snapshot(y.table))
    ensures var accepted, z := After(y, between), After(After(y, between), events);
            var seen := Subscription.Received(y.table, accepted.table, z.table);
            && ConsistentView(seen)
            && (z.table.open == 0 ==> Agrees(z.table, seen) && SysInv(z))
  {
    var view := Snapshot(y.table);
    SnapshotIsBehind(y.table);
    AgreeingIsConsistent(y, view);
    RunKeepsSysInv(y, between);
    var accepted := After(y, between);
    Subscription.SnapshotCovers(y.table, accepted.table);
    RunKeepsView(accepted, view, events);
    var z := After(accepted, events);
    if z.table.open == 0 {
      QuiescentAgrees(z.table, Subscription.Received(y.table, accepted.table, z.table));
    }
  }

  /** Nothing was missed if no document was sent between snapshot and acceptance. */
  lemma NothingSentNothingMissed(y: Sys, between: seq<AvTransport.Event>)
    requires SysInv(y) && y.table.open == 0 && Possible(y, between)
    requires After(y, between).table.sent == y.table.sent
    ensures Subscription.NothingMissed(y.table, After(y, between).table)
    ensures SysInv(After(y, between)) && !StaleRisk(After(y, between).table, Snapshot(y.table))
  {
    var view := Snapshot(y.table);
    SnapshotIsBehind(y.table);
    QuiescentIsSafe(y.table, view);
    AgreeingIsConsistent(y, view);
    RunKeepsView(y, view, between);
    var accepted := After(y, between);
    assert accepted.table.sent[|y.table.sent|..] == [];
    Subscription.SnapshotCovers(y.table, accepted.table);
  }

  // ---- The hand-over to the next stream ----

  lemma EndOfStreamSteps(y: Sys, state: int, ok: bool)
    requires SysInv(y) && EndOfStream(y.out, state)
    ensures var fb := if y.out.uriNext.Some? then PlayStartedNextStream else PlayStopped;
            var e, z := PlayStateMessage(state, ok), Next(y, PlayStateMessage(state, ok));
            && ChangeLog.SameBut(z.table.values,
                 ChangeLog.PlainTable(y.table.values, FeedbackWrites(y.table.values, fb)), LAST_CHANGE)
            && z.out == AfterPlayState(y.out, state, ok)
            && z.state == if y.out.uriNext.Some? then y.state else Stopped
  {
    EventValues(y, PlayStateMessage(state, ok));
  }

  /** At the end of a stream the next URI goes to the player and becomes the URI of
      transport and track, and the slot for the next one is emptied on both sides. */
  lemma EndOfStreamHandsOver(y: Sys, state: int, ok: bool, uri: string)
    requires SysInv(y) && EndOfStream(y.out, state) && y.out.uriNext == Some(uri)
    ensures var z := Next(y, PlayStateMessage(state, ok));
            var values := z.table.values;
            && y.table.values[NEXT_AV_URI] == Text(uri)
            && z.out.commands == y.out.commands + (if ok then [PlayUri(uri)] else [])
            && values[AV_URI] == values[CUR_TRACK_URI] == Text(uri)
            && values[AV_URI_META] == values[CUR_TRACK_META] == y.table.values[NEXT_AV_URI_META]
            && values[NEXT_AV_URI] == Text("") && z.out.uriNext == None && z.state == y.state
  {
    EndOfStreamSteps(y, state, ok);
    PlainFeedback(y.table.values, y.state, y.out, PlayStartedNextStream);
  }

  /** Without a next URI the transport stops and forgets its URIs. */
  lemma EndOfStreamStops(y: Sys, state: int, ok: bool)
    requires SysInv(y) && EndOfStream(y.out, state) && y.out.uriNext == None
    ensures var z := Next(y, PlayStateMessage(state, ok));
            var values := z.table.values;
            && z.out.commands == y.out.commands && z.state == Stopped
            && values[AV_URI] == values[CUR_TRACK_URI] == values[NEXT_AV_URI] == Text("")
  {
    EndOfStreamSteps(y, state, ok);
    PlainStoppedUris(y.table.values, y.state, y.out);
  }

  lemma PlainStoppedUris(values: seq<Value>, st: TransportState, out: Silan)
    requires TransportInv(values, st) && NextUriRefined(values, out)
    ensures var after := ChangeLog.PlainTable(values, FeedbackWrites(values, PlayStopped));
            after[AV_URI] == after[CUR_TRACK_URI] == Text("") && after[NEXT_AV_URI] == values[NEXT_AV_URI]
  {
    var none := Text("");
    var a, b, c := UriWrites(none, none), CurrentWrites(none, none), StateWrites(values, Stopped);
    PlainConcat(values, a + b, c);
    PlainConcat(values, a, b);
    PlainUri(values, none, none);
    PlainCurrent(ChangeLog.PlainTable(values, a), none, none);
    PlainState(ChangeLog.PlainTable(values, a + b), st, Stopped, values);
  }
}
