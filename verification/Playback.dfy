/** What the player is told by Play, by the hand-over to a next stream and by a message
    that it stopped, and what can be known of it before from the events so far. */
module Playback {
  import ChangeLog
  import opened Options
  import opened LastChange
  import opened Sequences
  import opened SilanOutput
  import opened AvTransport
  import opened TransportViews

  // ---- Play after a pause, exactly ----

  /** Told to play, a paused transport lets the player go on exactly if no URI is
      pending in the output, the player said last that it is paused, and the queue
      takes the message. With a URI pending this one is played from its start; with
      none and a player that did not say so, nothing happens and Play fails. */
  lemma PlayResumesIff(y: Sys, ok: bool)
    requires TransportTable(y.table) && y.state == PausedPlayback
    ensures var out, z := y.out, Next(y, Play(ok));
            && (z.out.commands == out.commands + [TogglePause]
                <==> out.uri.None? && out.state == STATE_PAUSE && ok)
            && (out.uri.Some? ==> z.out.commands == out.commands + if ok then [PlayUri(out.uri.value)] else [])
            && (out.uri.None? && out.state != STATE_PAUSE ==> z.out.commands == out.commands)
            && z.state == if PlaySucceeds(out, ok) then Playing else PausedPlayback
  {
    var c := y.out.commands;
    assert Next(y, Play(ok)).out == AfterPlay(y.out, ok);
    assert (c + [TogglePause])[|c|] == TogglePause && |c + [TogglePause]| == |c| + 1;
    if y.out.uri.Some? {
      assert (c + [PlayUri(y.out.uri.value)])[|c|] != TogglePause;
    }
  }

  // ---- Runs from their end ----

  lemma {:induction false} LastEvent(y: Sys, events: seq<AvTransport.Event>)
    requires TransportTable(y.table) && Possible(y, events) && events != []
    ensures var n := |events| - 1;
            && Possible(y, events[..n]) && Enabled(After(y, events[..n]), events[n])
            && After(y, events) == Next(After(y, events[..n]), events[n])
    decreases |events|
  {
    if |events| > 1 {
      LastEvent(Next(y, events[0]), events[1..]);
      assert events[1..][..|events| - 2] == events[..|events| - 1][1..];
    } else {
      assert events[1..] == [];
    }
  }

  /** The state before the last event of a run. */
  ghost function Before(y: Sys, events: seq<AvTransport.Event>): (z: Sys)
    requires TransportTable(y.table) && Possible(y, events) && events != []
    ensures TransportTable(z.table) && Possible(y, events[..|events| - 1]) && z == After(y, events[..|events| - 1])
    ensures Enabled(z, events[|events| - 1]) && After(y, events) == Next(z, events[|events| - 1])
  {
    LastEvent(y, events);
    After(y, events[..|events| - 1])
  }

  // ---- What is pending, from the history ----

  /** At the end of a stream the table has a next URI. */
  ghost predicate HandsOver(y: Sys, e: AvTransport.Event) {
    && |y.table.values| == COUNT
    && e.PlayStateMessage? && EndOfStream(y.out, e.state) && y.table.values[NEXT_AV_URI] != Text("")
  }

  /** A stopped or paused transport is told to play, even if in vain. */
  predicate ToldToPlay(y: Sys, e: AvTransport.Event) {
    e.Play? && (y.state == Stopped || y.state == PausedPlayback)
  }

  /** The transport loses its URIs: the player stopped at the end of the last stream, or
      the S/PDIF key was pressed. */
  ghost predicate Forgets(y: Sys, e: AvTransport.Event) {
    && |y.table.values| == COUNT
    && (e.RadioKey?
        || (e.PlayStateMessage? && EndOfStream(y.out, e.state) && y.table.values[NEXT_AV_URI] == Text("")))
  }

  /** The URI of the last event that set one or handed over to the next one, unless the
      transport was told to play since, even in vain. */
  ghost function PendingUri(y: Sys, events: seq<AvTransport.Event>): Option<string>
    requires TransportTable(y.table) && Possible(y, events)
    decreases |events|
  {
    if events == [] then y.out.uri
    else
      var z, e := Before(y, events), events[|events| - 1];
      if e.SetUri? then NonEmpty(e.uri)
      else if HandsOver(z, e) then TextOf(z.table.values[NEXT_AV_URI])
      else if ToldToPlay(z, e) then None
      else PendingUri(y, events[..|events| - 1])
  }

  function TextOf(v: Value): Option<string> {
    if v.Text? then Some(v.text) else None
  }

  lemma EventPending(y: Sys, e: AvTransport.Event)
    requires NextUriRefined(y.table.values, y.out)
    ensures OutAfter(y, e).uri == if e.SetUri? then NonEmpty(e.uri)
                                  else if HandsOver(y, e) then TextOf(y.table.values[NEXT_AV_URI])
                                  else if ToldToPlay(y, e) then None
                                  else y.out.uri
  {
    if e.IdleTick? {
      TickKeepsOutput(y, e);
    }
  }

  /** In every run: whether a URI is pending in the output, and which, is told by the
      events. */
  lemma {:induction false} PendingIff(y: Sys, events: seq<AvTransport.Event>)
    requires SysInv(y) && Possible(y, events)
    ensures After(y, events).out.uri == PendingUri(y, events)
    decreases |events|
  {
    if events != [] {
      var z, e := Before(y, events), events[|events| - 1];
      PendingIff(y, events[..|events| - 1]);
      RunKeepsSysInv(y, events[..|events| - 1]);
      EventPending(z, e);
      assert Next(z, e).out == OutAfter(z, e);
    }
  }

  /** What the player said last about its state. */
  function LastReport(before: int, events: seq<AvTransport.Event>): int {
    if events == [] then before
    else if events[|events| - 1].PlayStateMessage? then events[|events| - 1].state
    else LastReport(before, events[..|events| - 1])
  }

  lemma {:induction false} StateIsLastReport(y: Sys, events: seq<AvTransport.Event>)
    requires TransportTable(y.table) && Possible(y, events)
    ensures After(y, events).out.state == LastReport(y.out.state, events)
    decreases |events|
  {
    if events != [] {
      var z, e := Before(y, events), events[|events| - 1];
      StateIsLastReport(y, events[..|events| - 1]);
      StateReported(z, e);
      assert Next(z, e).out == OutAfter(z, e);
    }
  }

  lemma StateReported(y: Sys, e: AvTransport.Event)
    ensures OutAfter(y, e).state == if e.PlayStateMessage? then e.state else y.out.state
  {
    if e.IdleTick? {
      TickKeepsOutput(y, e);
    }
  }

  /** Over runs: Play on a paused transport makes the player go on exactly if the player
      said last that it is paused, and since the transport was last told to play while
      stopped or paused, even in vain, neither was a URI set nor a next one taken over. */
  lemma PlayResumesAfterRunIff(y: Sys, events: seq<AvTransport.Event>, ok: bool)
    requires SysInv(y) && Possible(y, events) && After(y, events).state == PausedPlayback
    ensures var z := After(y, events);
            Next(z, Play(ok)).out.commands == z.out.commands + [TogglePause]
            <==> ok && LastReport(y.out.state, events) == STATE_PAUSE && PendingUri(y, events).None?
  {
    PendingIff(y, events);
    StateIsLastReport(y, events);
    PlayResumesIff(After(y, events), ok);
  }

  /** Over runs: Play on a transport that is not playing succeeds exactly if the queue
      takes the message, and a URI is pending or the player said last that it is paused.
      That the available actions offer PLAY is not enough. */
  lemma PlaySucceedsAfterRunIff(y: Sys, events: seq<AvTransport.Event>, ok: bool)
    requires SysInv(y) && Possible(y, events) && After(y, events).state != Playing
    ensures Next(After(y, events), Play(ok)).state == Playing
            <==> ok && (PendingUri(y, events).Some? || LastReport(y.out.state, events) == STATE_PAUSE)
  {
    PendingIff(y, events);
    StateIsLastReport(y, events);
    RunKeepsSysInv(y, events);
    var z := After(y, events);
    assert Next(z, Play(ok)).state == StateAfter(z, Play(ok));
  }

  // ---- Is the URI that is played the one that is shown? ----

  /** Did the transport lose its URIs after the URI that is pending was loaded? */
  ghost predicate ForgottenSince(y: Sys, events: seq<AvTransport.Event>)
    requires TransportTable(y.table) && Possible(y, events)
    decreases |events|
  {
    events != [] &&
    var z, e := Before(y, events), events[|events| - 1];
    !e.SetUri? && !HandsOver(z, e) && (Forgets(z, e) || ForgottenSince(y, events[..|events| - 1]))
  }

  lemma {:induction false} PlainUnwritten(values: seq<Value>, ops: seq<Op>, v: nat)
    requires v < |values| && Unwritten(ops, v)
    ensures ChangeLog.PlainTable(values, ops)[v] == values[v]
    decreases |ops|
  {
    if ops != [] {
      PlainUnwritten(ChangeLog.Overwrite(values, ops[0]), ops[1..], v);
    }
  }

  lemma PlainFirst(values: seq<Value>, v: nat, x: Value, rest: seq<Op>)
    requires v < |values| && Unwritten(rest, v)
    ensures ChangeLog.PlainTable(values, [Write(v, x)] + rest)[v] == x
  {
    assert ([Write(v, x)] + rest)[1..] == rest;
    PlainUnwritten(values[v := x], rest, v);
  }

  lemma UriFirst(values: seq<Value>, uri: Value, meta: Value, rest: seq<Op>)
    requires |values| == COUNT && Unwritten(rest, AV_URI)
    ensures ChangeLog.PlainTable(values, UriWrites(uri, meta) + rest)[AV_URI] == uri
  {
    var more := [Write(AV_URI_META, meta), Write(NR_TRACKS, Tracks(uri))] + rest;
    assert UriWrites(uri, meta) + rest == [Write(AV_URI, uri)] + more;
    PlainFirst(values, AV_URI, uri, more);
  }

  /** The events that change the transport's URI, and what they make it. */
  ghost function UriAfter(y: Sys, e: AvTransport.Event): Value
    requires |y.table.values| == COUNT
  {
    if e.SetUri? then Text(e.uri)
    else if HandsOver(y, e) then y.table.values[NEXT_AV_URI]
    else if Forgets(y, e) then Text("")
    else y.table.values[AV_URI]
  }

  lemma FeedbackUri(values: seq<Value>, fb: Feedback)
    requires |values| == COUNT
    ensures ChangeLog.PlainTable(values, FeedbackWrites(values, fb))[AV_URI]
         == if fb.PlayStopped? then Text("") else values[NEXT_AV_URI]
  {
    var uri := if fb.PlayStopped? then Text("") else values[NEXT_AV_URI];
    var meta := if fb.PlayStopped? then Text("") else values[NEXT_AV_URI_META];
    var rest := if fb.PlayStopped? then StateWrites(values, Stopped)
                else [Write(NEXT_AV_URI, Text("")), Write(NEXT_AV_URI_META, Text(""))];
    Regroup(UriWrites(uri, meta), CurrentWrites(uri, meta), rest);
    UnwrittenConcat(CurrentWrites(uri, meta), rest, AV_URI);
    UriFirst(values, uri, meta, CurrentWrites(uri, meta) + rest);
  }

  lemma UnwrittenConcat(a: seq<Op>, b: seq<Op>, v: nat)
    requires Unwritten(a, v) && Unwritten(b, v)
    ensures Unwritten(a + b, v)
  {
  }

  lemma WritesUri(y: Sys, e: AvTransport.Event)
    requires |y.table.values| == COUNT && NextUriRefined(y.table.values, y.out) && WritesOf(y, e).Some?
    ensures ChangeLog.PlainTable(y.table.values, WritesOf(y, e).value)[AV_URI] == UriAfter(y, e)
  {
    var values := y.table.values;
    if e.SetUri? {
      var u, m := Text(e.uri), Text(e.meta.GetOr(""));
      UriFirst(values, u, m, if y.state == Playing then CurrentWrites(u, m) else []);
    } else if e.PlayStateMessage? {
      FeedbackUri(values, FeedbackOn(y.out, e.state).value);
    } else if e.RadioKey? {
      FeedbackUri(values, PlayStopped);
    } else {
      PlainUnwritten(values, WritesOf(y, e).value, AV_URI);
    }
  }

  lemma EventUri(y: Sys, e: AvTransport.Event)
    requires SysInv(y) && Enabled(y, e)
    ensures Next(y, e).table.values[AV_URI] == UriAfter(y, e)
  {
    if WritesOf(y, e).Some? {
      EventValues(y, e);
      WritesUri(y, e);
    } else {
      SilentEventKeepsValues(y, e);
    }
  }

  /** While a URI is pending, it is the transport's URI unless that was lost since. */
  lemma {:induction false} PendingIsShownIff(y: Sys, events: seq<AvTransport.Event>)
    requires SysInv(y) && y.out.uri.None? && Possible(y, events) && PendingUri(y, events).Some?
    ensures var shown, uri := After(y, events).table.values[AV_URI], PendingUri(y, events).value;
            uri != "" && shown == if ForgottenSince(y, events) then Text("") else Text(uri)
    decreases |events|
  {
    if events != [] {
      var front, e := events[..|events| - 1], events[|events| - 1];
      var z := Before(y, events);
      RunKeepsSysInv(y, front);
      EventUri(z, e);
      if !e.SetUri? && !HandsOver(z, e) {
        PendingIsShownIff(y, front);
      }
    }
  }

  lemma PlayShowsUri(y: Sys, ok: bool)
    requires SysInv(y) && Starting(y, ok)
    ensures Next(y, Play(ok)).table.values[CUR_TRACK_URI] == y.table.values[AV_URI]
  {
    EventKeepsInv(y, Play(ok));
    EventUri(y, Play(ok));
    assert Next(y, Play(ok)).state == StateAfter(y, Play(ok));
  }

  /** Over runs, from a state with nothing pending, as after the initialisation: the URI
      that Play tells the player is the one shown as that of the current track exactly
      if the transport did not lose its URIs after that URI was loaded. */
  lemma PlayedUriIsShownIff(y: Sys, events: seq<AvTransport.Event>)
    requires SysInv(y) && y.out.uri.None? && Possible(y, events)
    requires After(y, events).state != Playing && PendingUri(y, events).Some?
    ensures var z, uri := After(y, events), PendingUri(y, events).value;
            var w := Next(z, Play(true));
            && w.state == Playing && w.out.commands == z.out.commands + [PlayUri(uri)]
            && (w.table.values[CUR_TRACK_URI] == Text(uri) <==> !ForgottenSince(y, events))
  {
    var z := After(y, events);
    RunKeepsSysInv(y, events);
    PendingIff(y, events);
    PendingIsShownIff(y, events);
    PlayPending(z, PendingUri(y, events).value);
  }

  lemma PlayPending(y: Sys, uri: string)
    requires SysInv(y) && y.state != Playing && y.out.uri == Some(uri)
    ensures var w := Next(y, Play(true));
            && w.state == Playing && w.out.commands == y.out.commands + [PlayUri(uri)]
            && w.table.values[CUR_TRACK_URI] == y.table.values[AV_URI]
  {
    PlayShowsUri(y, true);
    assert Next(y, Play(true)).out == OutAfter(y, Play(true));
    assert Next(y, Play(true)).state == StateAfter(y, Play(true));
  }

  /** Pause and then Play: the player must have said in between that it is paused, and
      even then it goes on only if nothing was pending when the transport was paused. */
  lemma PauseThenPlayIff(y: Sys, reported: bool, sent: bool, ok: bool)
    requires TransportTable(y.table) && y.state == Playing
    ensures var paused := Next(y, Pause(true));
            var z := if reported then Next(paused, PlayStateMessage(STATE_PAUSE, sent)) else paused;
            && z.state == PausedPlayback && z.out.commands == y.out.commands + [TogglePause]
            && (Next(z, Play(ok)).out.commands == z.out.commands + [TogglePause]
                <==> ok && y.out.uri.None? && (reported || y.out.state == STATE_PAUSE))
  {
    var paused := Next(y, Pause(true));
    assert paused.out == OutAfter(y, Pause(true)) && paused.state == StateAfter(y, Pause(true));
    PauseReported(paused, sent);
    var z := if reported then Next(paused, PlayStateMessage(STATE_PAUSE, sent)) else paused;
    PlayResumesIff(z, ok);
  }

  lemma PauseReported(y: Sys, sent: bool)
    requires TransportTable(y.table)
    ensures var z := Next(y, PlayStateMessage(STATE_PAUSE, sent));
            z.state == y.state && z.out == y.out.(state := STATE_PAUSE)
  {
    var z := Next(y, PlayStateMessage(STATE_PAUSE, sent));
    assert z.out == OutAfter(y, PlayStateMessage(STATE_PAUSE, sent));
    assert z.state == StateAfter(y, PlayStateMessage(STATE_PAUSE, sent));
  }

  // ---- When transport and player disagree ----

  /** A message of the player stops the transport exactly if it says STOP, the last
      position reported is the last duration reported and not zero, and the table has no
      next URI. */
  lemma MessageStopsIff(y: Sys, state: int, ok: bool)
    requires SysInv(y) && y.state != Stopped
    ensures Next(y, PlayStateMessage(state, ok)).state == Stopped
            <==> EndOfStream(y.out, state) && y.table.values[NEXT_AV_URI] == Text("")
  {
    StopsOnMessage(y, state, ok);
    assert Next(y, PlayStateMessage(state, ok)).state == StateAfter(y, PlayStateMessage(state, ok));
  }

  lemma StopsOnMessage(y: Sys, state: int, ok: bool)
    requires NextUriRefined(y.table.values, y.out) && y.state != Stopped
    ensures StateAfter(y, PlayStateMessage(state, ok)) == Stopped
            <==> EndOfStream(y.out, state) && y.table.values[NEXT_AV_URI] == Text("")
  {
  }

  /** A hand-over leaves the state of the transport as it is, and tells the player to
      play whatever that state is, if the queue takes the message. Told and shown agree
      afterwards exactly if the message was taken by a playing transport's player, or
      refused while the transport was not playing. */
  lemma HandOverAgreesIff(y: Sys, state: int, ok: bool)
    requires SysInv(y) && HandsOver(y, PlayStateMessage(state, ok))
    ensures var z := Next(y, PlayStateMessage(state, ok));
            var told := z.out.commands == y.out.commands + [PlayUri(y.out.uriNext.GetOr(""))];
            var shown := z.table.values[TRANSPORT_STATE] == Text("PLAYING");
            && (told <==> ok) && (shown <==> y.state == Playing)
            && ((told <==> shown) <==> (ok <==> y.state == Playing))
            && z.table.values[CUR_TRACK_URI] == Text(y.out.uriNext.GetOr("")) && SysInv(z)
            && (!ok ==> z.out.commands == y.out.commands)
  {
    HandOverStep(y, state, ok);
    EventKeepsInv(y, PlayStateMessage(state, ok));
    StateNamesDiffer(y.state, Playing);
    EndOfStreamHandsOver(y, state, ok, y.out.uriNext.GetOr(""));
    assert |y.out.commands + [PlayUri(y.out.uriNext.GetOr(""))]| == |y.out.commands| + 1;
  }

  lemma HandOverStep(y: Sys, state: int, ok: bool)
    requires TransportTable(y.table) && NextUriRefined(y.table.values, y.out)
    requires HandsOver(y, PlayStateMessage(state, ok))
    ensures var z := Next(y, PlayStateMessage(state, ok));
            var uri := y.out.uriNext.GetOr("");
            && y.out.uriNext == Some(uri) && Text(uri) == y.table.values[NEXT_AV_URI] && z.state == y.state
            && z.out == y.out.(state := state, uri := y.out.uriNext, uriNext := None,
                               commands := y.out.commands + if ok then [PlayUri(uri)] else [])
  {
    var e := PlayStateMessage(state, ok);
    assert Next(y, e).out == OutAfter(y, e) && Next(y, e).state == StateAfter(y, e);
  }

  /** Position and duration outlive the hand-over, so a second STOP message directly
      after it stops the transport, although the player was just told to play. */
  lemma SecondStopStops(y: Sys, ok: bool)
    requires SysInv(y) && HandsOver(y, PlayStateMessage(STATE_STOP, true))
    ensures var z := Next(y, PlayStateMessage(STATE_STOP, true));
            var w := Next(z, PlayStateMessage(STATE_STOP, ok));
            && z.out.commands == y.out.commands + [PlayUri(y.out.uriNext.GetOr(""))]
            && w.out.commands == z.out.commands && w.state == Stopped
  {
    HandOverStep(y, STATE_STOP, true);
    StopTwice(Next(y, PlayStateMessage(STATE_STOP, true)), ok);
  }

  lemma StopTwice(y: Sys, ok: bool)
    requires TransportTable(y.table) && EndOfStream(y.out, STATE_STOP) && y.out.uriNext.None?
    ensures var z := Next(y, PlayStateMessage(STATE_STOP, ok));
            z.out.commands == y.out.commands && z.state == Stopped
  {
    var e := PlayStateMessage(STATE_STOP, ok);
    assert Next(y, e).out == OutAfter(y, e) && Next(y, e).state == StateAfter(y, e);
  }

  /** The hand-over leaves the URI pending in the output, too: pausing and then
      playing again starts the track from its beginning instead of going on. */
  lemma PausedAfterHandOverRestarts(y: Sys, uri: string, sent: bool, ok: bool)
    requires SysInv(y) && y.state == Playing && y.out.uriNext == Some(uri)
    requires EndOfStream(y.out, STATE_STOP)
    ensures var handedOver := Next(y, PlayStateMessage(STATE_STOP, true));
            var paused := Next(Next(handedOver, Pause(true)), PlayStateMessage(STATE_PAUSE, sent));
            && Next(paused, Play(ok)).state == (if ok then Playing else PausedPlayback)
            && Next(paused, Play(ok)).out.commands
            == y.out.commands + [PlayUri(uri), TogglePause] + if ok then [PlayUri(uri)] else []
  {
    var handedOver := Next(y, PlayStateMessage(STATE_STOP, true));
    HandOverStep(y, STATE_STOP, true);
    PausedStep(handedOver, sent);
    PlayResumesIff(Next(Next(handedOver, Pause(true)), PlayStateMessage(STATE_PAUSE, sent)), ok);
    assert y.out.commands + [PlayUri(uri)] + [TogglePause] == y.out.commands + [PlayUri(uri), TogglePause];
  }

  lemma PausedStep(y: Sys, sent: bool)
    requires TransportTable(y.table) && y.state == Playing
    ensures var z := Next(Next(y, Pause(true)), PlayStateMessage(STATE_PAUSE, sent));
            z.state == PausedPlayback && z.out.uri == y.out.uri && z.out.commands == y.out.commands + [TogglePause]
  {
    var paused := Next(y, Pause(true));
    assert paused.out == OutAfter(y, Pause(true)) && paused.state == StateAfter(y, Pause(true));
    PauseReported(paused, sent);
  }
}
