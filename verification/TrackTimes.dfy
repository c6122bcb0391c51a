/** Duration and position of a track over whole runs, and with them when a message of the
    player ends a stream. */
module TrackTimes {
  import opened Options
  import opened LastChange
  import opened SilanOutput
  import opened AvTransport
  import opened TransportViews
  import opened Playback
  import opened TransportEffects

  // ---- What is known, from the history ----

  /** A pending URI is played, even in vain: a new track begins. */
  predicate TrackBegins(y: Sys, e: AvTransport.Event) {
    ToldToPlay(y, e) && y.out.uri.Some?
  }

  /** The duration reported last, 0 if a new track began since */
  ghost function ReportedDuration(y: Sys, events: seq<AvTransport.Event>): int
    requires TransportTable(y.table) && Possible(y, events)
    decreases |events|
  {
    if events == [] then y.out.duration
    else
      var front, e := events[..|events| - 1], events[|events| - 1];
      var z := Before(y, events);
      if e.TotalTimeMessage? then e.duration
      else if ToldToPlay(z, e) && PendingUri(y, front).Some? then 0
      else ReportedDuration(y, front)
  }

  /** The position reported or answered last, 0 if a new track began since */
  ghost function ReportedPosition(y: Sys, events: seq<AvTransport.Event>): int
    requires TransportTable(y.table) && Possible(y, events)
    decreases |events|
  {
    if events == [] then y.out.position
    else
      var front, e := events[..|events| - 1], events[|events| - 1];
      var z := Before(y, events);
      if e.TimePosMessage? then e.position
      else if e.UpdateTime? && e.reply.Some? then e.reply.value
      else if ToldToPlay(z, e) && PendingUri(y, front).Some? then 0
      else ReportedPosition(y, front)
  }

  lemma EventTimes(y: Sys, e: AvTransport.Event)
    ensures OutAfter(y, e).duration == if e.TotalTimeMessage? then e.duration
                                       else if TrackBegins(y, e) then 0
                                       else y.out.duration
    ensures OutAfter(y, e).position == if e.TimePosMessage? then e.position
                                       else if e.UpdateTime? && e.reply.Some? then e.reply.value
                                       else if TrackBegins(y, e) then 0
                                       else y.out.position
  {
    if e.IdleTick? {
      TickKeepsOutput(y, e);
    }
  }

  /** In every run the output knows just the times reported for the current track. */
  lemma {:induction false} TimesAreReported(y: Sys, events: seq<AvTransport.Event>)
    requires SysInv(y) && Possible(y, events)
    ensures After(y, events).out.duration == ReportedDuration(y, events)
    ensures After(y, events).out.position == ReportedPosition(y, events)
    decreases |events|
  {
    if events != [] {
      var front, e := events[..|events| - 1], events[|events| - 1];
      var z := Before(y, events);
      TimesAreReported(y, front);
      PendingIff(y, front);
      EventTimes(z, e);
      assert Next(z, e).out == OutAfter(z, e);
    }
  }

  /** Over runs: what GetPositionInfo answers. The text for the duration reads as the one
      reported for this track, that for the position as the answer of the player, or
      else the one reported last. */
  lemma TimesAreAnswered(y: Sys, events: seq<AvTransport.Event>, reply: Option<int>, ok: bool)
    requires SysInv(y) && Possible(y, events)
    ensures var t := Next(After(y, events), UpdateTime(reply, ok)).table;
            var duration, position := ReportedDuration(y, events), reply.GetOr(ReportedPosition(y, events));
            && (duration >= 0 ==> ReadsAs(Shown(t, "CurrentTrackDuration"), duration))
            && (position >= 0 ==> ReadsAs(Shown(t, "RelativeTimePosition"), position))
  {
    TimesAreReported(y, events);
    RunKeepsSysInv(y, events);
    TimesAreShown(After(y, events), reply, ok);
  }

  // ---- When a stream ends ----

  /** Nothing but the output's play state changes: nothing is shown or sent. */
  ghost predicate OnlyReported(y: Sys, z: Sys, state: int) {
    z == y.(out := y.out.(state := state))
  }

  lemma OtherMessageIsReported(y: Sys, state: int, ok: bool)
    requires TransportTable(y.table) && !Ended(y.out, state)
    ensures OnlyReported(y, Next(y, PlayStateMessage(state, ok)), state)
  {
    var e := PlayStateMessage(state, ok);
    assert OpsOf(y, e) == [] && OutAfter(y, e) == y.out.(state := state) && StateAfter(y, e) == y.state;
  }

  lemma EndsIff(out: Silan, state: int)
    ensures FeedbackOn(out, state).Some? <==> Ended(out, state)
    ensures EndOfStream(out, state) <==> Ended(out, state)
  {
  }

  /** Over runs: a message of the player ends the stream, so that the transport hands over
      or stops, if and only if it is STOP and the position reported last for this track
      is the duration reported for it, and not zero. Any other message changes nothing. */
  lemma StreamEndsIff(y: Sys, events: seq<AvTransport.Event>, state: int, ok: bool)
    requires SysInv(y) && Possible(y, events)
    ensures var z := After(y, events);
            var d := ReportedDuration(y, events);
            && (FeedbackOn(z.out, state).Some? <==> state == 0 && d != 0 && ReportedPosition(y, events) == d)
            && (FeedbackOn(z.out, state).None? ==> OnlyReported(z, Next(z, PlayStateMessage(state, ok)), state))
  {
    TimesAreReported(y, events);
    EndsIff(After(y, events).out, state);
    if !Ended(After(y, events).out, state) {
      OtherMessageIsReported(After(y, events), state, ok);
    }
  }

  // ---- A new track ----

  /** The player has not reported a duration other than 0. */
  predicate NoDuration(events: seq<AvTransport.Event>) {
    forall i :: 0 <= i < |events| && events[i].TotalTimeMessage? ==> events[i].duration == 0
  }

  lemma {:induction false} DurationStaysZero(y: Sys, events: seq<AvTransport.Event>)
    requires SysInv(y) && Possible(y, events) && y.out.duration == 0 && NoDuration(events)
    ensures After(y, events).out.duration == 0
    decreases |events|
  {
    if events != [] {
      var z := Next(y, events[0]);
      EventTimes(y, events[0]);
      EventKeepsInv(y, events[0]);
      assert z.out == OutAfter(y, events[0]);
      DurationStaysZero(z, events[1..]);
    }
  }

  /** After Play of a pending URI, even in vain, no message of the player ends a stream or
      hands over, whatever happens, until the player has reported a duration that is not 0:
      the times of the track before do not count. */
  lemma NewTrackDoesNotEnd(y: Sys, play: bool, events: seq<AvTransport.Event>, state: int, ok: bool)
    requires SysInv(y) && y.state != Playing && y.out.uri.Some?
    requires Possible(Next(y, Play(play)), events) && NoDuration(events)
    ensures var z := After(Next(y, Play(play)), events);
            && FeedbackOn(z.out, state).None? && !EndOfStream(z.out, state)
            && OnlyReported(z, Next(z, PlayStateMessage(state, ok)), state)
  {
    var z := Next(y, Play(play));
    EventTimes(y, Play(play));
    EventKeepsInv(y, Play(play));
    assert z.out == OutAfter(y, Play(play));
    DurationStaysZero(z, events);
    EndsIff(After(z, events).out, state);
    OtherMessageIsReported(After(z, events), state, ok);
  }
}
