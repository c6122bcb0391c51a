/** What a subscriber can come to see when it missed a document between its snapshot and
    the acceptance of its subscription. */
module MissedEvents {
  import opened Options
  import opened LastChange
  import opened Replica
  import opened Subscription
  import opened AvTransport
  import opened TransportViews

  lemma OtherTrackIsNonsense(view: View, uri: Value, other: Value)
    requires "TransportState" in view && "CurrentTrackURI" in view && "AVTransportURI" in view
    requires view["TransportState"] == Text("PLAYING")
    requires view["CurrentTrackURI"] == uri && view["AVTransportURI"] == other != uri
    ensures !ConsistentView(view)
  {
    forall st: TransportState
      ensures !ViewShows(view, st)
    {
      if st in {Stopped, Playing, PausedPlayback} {
        StateNamesDiffer(st, Playing);
      }
    }
  }

  lemma NamedReceived(s: State, t: State, ops: seq<Op>, v: nat, name: string)
    requires TransportTable(s) && TransportTable(t) && Inv(s) && Inv(t) && t.open == 0 && Settles(t, ops)
    requires v < UNKNOWN && t.names[v] == Some(name) && v !in t.ignored && !ArgumentType(name)
    ensures var u := Run(t, ops);
            && name in Received(s, t, u)
            && (t.values[v] == s.values[v] ==> Received(s, t, u)[name] == u.values[v])
            && (Unwritten(ops, v) ==> Received(s, t, u)[name] == s.values[v] && u.values[v] == t.values[v])
  {
    VariableReceived(s, t, ops, v);
  }

  lemma StateReceived(s: State, t: State, ops: seq<Op>)
    requires TransportTable(s) && TransportTable(t) && Inv(s) && Inv(t) && t.open == 0 && Settles(t, ops)
    requires t.values[TRANSPORT_STATE] == s.values[TRANSPORT_STATE]
    ensures var u := Run(t, ops);
            "TransportState" in Received(s, t, u) && Received(s, t, u)["TransportState"] == u.values[TRANSPORT_STATE]
  {
    ShownNames();
    NoArgumentTypes();
    NamedReceived(s, t, ops, TRANSPORT_STATE, "TransportState");
  }

  lemma UrisReceived(s: State, t: State, ops: seq<Op>)
    requires TransportTable(s) && TransportTable(t) && Inv(s) && Inv(t) && t.open == 0 && Settles(t, ops)
    requires t.values[CUR_TRACK_URI] == s.values[CUR_TRACK_URI] && Unwritten(ops, AV_URI)
    ensures var u := Run(t, ops);
            && "CurrentTrackURI" in Received(s, t, u) && "AVTransportURI" in Received(s, t, u)
            && Received(s, t, u)["CurrentTrackURI"] == u.values[CUR_TRACK_URI]
            && Received(s, t, u)["AVTransportURI"] == s.values[AV_URI] && u.values[AV_URI] == t.values[AV_URI]
  {
    ShownNames();
    NoArgumentTypes();
    NamedReceived(s, t, ops, CUR_TRACK_URI, "CurrentTrackURI");
    NamedReceived(s, t, ops, AV_URI, "AVTransportURI");
  }

  /** The snapshot is of `s`, the acceptance at `t`, which has another URI but the same
      state and track. A run from there makes the transport play this URI. */
  lemma MissedUriIsNonsense(s: State, t: State, ops: seq<Op>)
    requires TransportTable(s) && TransportTable(t) && Inv(s) && Inv(t) && t.open == 0
    requires t.values[TRANSPORT_STATE] == s.values[TRANSPORT_STATE]
    requires t.values[CUR_TRACK_URI] == s.values[CUR_TRACK_URI] && t.values[AV_URI] != s.values[AV_URI]
    requires Settles(t, ops) && Unwritten(ops, AV_URI) && TransportInv(Run(t, ops).values, Playing)
    ensures !ConsistentView(Received(s, t, Run(t, ops)))
  {
    StateReceived(s, t, ops);
    UrisReceived(s, t, ops);
    OtherTrackIsNonsense(Received(s, t, Run(t, ops)), t.values[AV_URI], s.values[AV_URI]);
  }

  lemma PlayLeavesUri(y: Sys)
    requires |y.table.values| == COUNT
    ensures Unwritten(PlayWrites(y, true), AV_URI) && Unwritten(OpsOf(y, Play(true)), AV_URI)
  {
    assert OpsOf(y, Play(true)) == [Begin] + PlayWrites(y, true) + [End];
  }

  lemma PlaySettles(y: Sys)
    requires SysInv(y) && y.table.open == 0 && y.state == Stopped && y.out.uri.Some?
    ensures var ops, z := OpsOf(y, Play(true)), Next(y, Play(true));
            Settles(y.table, ops) && z.table == Run(y.table, ops) && z.state == Playing && SysInv(z)
  {
    EventKeepsInv(y, Play(true));
    WritesArePlain(y, Play(true));
    SectionIsLegal(y.table, PlayWrites(y, true));
  }

  lemma SetUriWritesUri(y: Sys, uri: string, meta: Option<string>)
    requires TransportTable(y.table) && y.state == Stopped
    ensures var z := Next(y, SetUri(uri, meta));
            && z.table.values[AV_URI] == Text(uri)
            && z.table.values[TRANSPORT_STATE] == y.table.values[TRANSPORT_STATE]
            && z.table.values[CUR_TRACK_URI] == y.table.values[CUR_TRACK_URI]
  {
    var u, m := Text(uri), Text(meta.GetOr(""));
    assert UriWrites(u, m) + [] == UriWrites(u, m);
    EventValues(y, SetUri(uri, meta));
    PlainUri(y.table.values, u, m);
  }

  lemma SetUriLoads(y: Sys, uri: string, meta: Option<string>)
    requires SysInv(y) && y.table.open == 0 && uri != ""
    ensures var z := Next(y, SetUri(uri, meta));
            SysInv(z) && z.table.open == 0 && z.state == y.state && z.out.uri == Some(uri)
  {
    var e := SetUri(uri, meta);
    EventKeepsInv(y, e);
    WritesArePlain(y, e);
    SectionIsLegal(y.table, WritesOf(y, e).value);
    assert Next(y, e).out == OutAfter(y, e) && Next(y, e).state == StateAfter(y, e);
  }

  /** A subscriber that missed something can hold a state of the transport that never
      was: if it missed that a URI was set on the stopped transport, then after Play it
      sees a playing transport whose track is not the transport's URI. */
  lemma MissedUriShowsNonsense(y: Sys, uri: string, meta: Option<string>)
    requires SysInv(y) && y.table.open == 0 && y.state == Stopped
    requires uri != "" && y.table.values[AV_URI] != Text(uri)
    ensures var accepted := Next(y, SetUri(uri, meta));
            var z := Next(accepted, Play(true));
            && accepted.table.open == 0 && accepted.table.sent <= z.table.sent && SysInv(z) && z.state == Playing
            && !ConsistentView(Received(y.table, accepted.table, z.table))
  {
    SetUriWritesUri(y, uri, meta);
    SetUriLoads(y, uri, meta);
    PlayOnMissedUri(y, Next(y, SetUri(uri, meta)));
  }

  lemma PlayOnMissedUri(y: Sys, t: Sys)
    requires SysInv(y) && SysInv(t) && t.table.open == 0 && t.state == Stopped && t.out.uri.Some?
    requires t.table.values[TRANSPORT_STATE] == y.table.values[TRANSPORT_STATE]
    requires t.table.values[CUR_TRACK_URI] == y.table.values[CUR_TRACK_URI]
    requires t.table.values[AV_URI] != y.table.values[AV_URI]
    ensures var z := Next(t, Play(true));
            && SysInv(z) && z.state == Playing && t.table.sent <= z.table.sent
            && !ConsistentView(Received(y.table, t.table, z.table))
  {
    PlaySettles(t);
    PlayLeavesUri(t);
    MissedUriIsNonsense(y.table, t.table, OpsOf(t, Play(true)));
  }
}
