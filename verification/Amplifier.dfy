/** The amplifier's loop next to the transport: when a transport that plays is in S/PDIF
    mode, and when its amplifier keeps power. */
module Amplifier {
  import opened Options
  import opened LastChange
  import opened Playback
  import opened SilanOutput
  import opened AvTransport
  import opened TransportViews
  import opened Watchdog
  import UpnpTime

  // ---- Runs with the loop's own counters ----

  ghost function CountersOf(y: Sys, c: Counters, events: seq<AvTransport.Event>): Counters
    requires TransportTable(y.table) && Possible(y, events)
    decreases |events|
  {
    if events == [] then c
    else
      var z, e := Before(y, events), events[|events| - 1];
      var d := CountersOf(y, c, events[..|events| - 1]);
      if e.IdleTick? then AfterTurn(z.out, d, Idle(e.locked, e.ok)).1 else d
  }

  /** Each idle tick of the run goes on with the counters of the one before. */
  ghost predicate Clocked(y: Sys, c: Counters, events: seq<AvTransport.Event>)
    requires TransportTable(y.table) && Possible(y, events)
    decreases |events|
  {
    events == [] ||
    var z, e := Before(y, events), events[|events| - 1];
    && Clocked(y, c, events[..|events| - 1])
    && (e.IdleTick? ==> e.counters == CountersOf(y, c, events[..|events| - 1]))
  }

  /** The idle ticks of a run. */
  ghost function History(y: Sys, events: seq<AvTransport.Event>): seq<Tick>
    requires TransportTable(y.table) && Possible(y, events)
    decreases |events|
  {
    if events == [] then []
    else
      var z, e := Before(y, events), events[|events| - 1];
      History(y, events[..|events| - 1]) + if e.IdleTick? then [TickOf(z.out, e.locked)] else []
  }

  lemma TickStep(y: Sys, c: Counters, locked: bool, ok: bool)
    requires TransportTable(y.table)
    ensures var z := Next(y, IdleTick(c, locked, ok));
            && z.out == AfterTurn(y.out, c, Idle(locked, ok)).0 && z.state == y.state
            && SamePlayback(y.out, z.out)
  {
    var e := IdleTick(c, locked, ok);
    assert Next(y, e).out == OutAfter(y, e) && Next(y, e).state == StateAfter(y, e);
    TickKeepsPlayback(y.out, c, locked, ok);
  }

  predicate SameAmplifier(s: Silan, t: Silan) {
    t.ampPower == s.ampPower && t.ampMute == s.ampMute && t.pinPower == s.pinPower && t.pinMute == s.pinMute
  }

  lemma SendKeepsAmplifier(s: Silan, c: Command, ok: bool)
    ensures SameAmplifier(s, Send(s, c, ok))
  {
  }

  lemma PlayKeepsAmplifier(s: Silan, ok: bool)
    ensures SameAmplifier(s, AfterPlay(s, ok)) && SameAmplifier(s, AfterSetSpdifIn(s, ok))
  {
  }

  lemma MessageKeepsAmplifier(s: Silan, state: int, ok: bool)
    ensures SameAmplifier(s, AfterPlayState(s, state, ok))
  {
  }

  lemma OtherEventKeepsAmplifier(y: Sys, e: AvTransport.Event)
    requires !e.IdleTick?
    ensures SameAmplifier(y.out, OutAfter(y, e))
  {
    if e.Play? {
      PlayKeepsAmplifier(y.out, e.ok);
    } else if e.PlayStateMessage? {
      MessageKeepsAmplifier(y.out, e.state, e.ok);
    } else if e.RadioKey? {
      PlayKeepsAmplifier(y.out, e.ok);
    } else if e.Seek? {
      SendKeepsAmplifier(y.out, SeekTo(UpnpTime.Parse(e.target)), e.ok);
    }
  }

  lemma EventExplained(y: Sys, c: Counters, h: seq<Tick>, e: AvTransport.Event)
    requires Explains(h, y.out, c) && (e.IdleTick? ==> e.counters == c)
    ensures e.IdleTick? ==> Explains(h + [TickOf(y.out, e.locked)], OutAfter(y, e),
                                     AfterTurn(y.out, c, Idle(e.locked, e.ok)).1)
    ensures !e.IdleTick? ==> Explains(h, OutAfter(y, e), c)
  {
    if e.IdleTick? {
      TickExplained(h, y.out, c, e.locked, e.ok);
    } else {
      OtherEventKeepsAmplifier(y, e);
    }
  }

  /** In every run of the whole system, counters, status and lines of the amplifier are
      explained by the idle ticks alone. */
  lemma {:induction false} SystemExplained(y: Sys, c: Counters, h: seq<Tick>, events: seq<AvTransport.Event>)
    requires TransportTable(y.table) && Possible(y, events) && Clocked(y, c, events) && Explains(h, y.out, c)
    ensures Explains(h + History(y, events), After(y, events).out, CountersOf(y, c, events))
    decreases |events|
  {
    if events == [] {
      assert h + [] == h;
    } else {
      var front, e := events[..|events| - 1], events[|events| - 1];
      var z := Before(y, events);
      SystemExplained(y, c, h, front);
      EventExplained(z, CountersOf(y, c, front), h + History(y, front), e);
      assert Next(z, e).out == OutAfter(z, e);
      if e.IdleTick? {
        assert h + History(y, events) == h + History(y, front) + [TickOf(z.out, e.locked)];
      } else {
        assert History(y, front) + [] == History(y, front);
      }
    }
  }

  // ---- S/PDIF mode ----

  /** The idle tick that selects the S/PDIF input. */
  predicate TickSelects(y: Sys, e: AvTransport.Event) {
    e.IdleTick? && !y.out.spdifIn && y.out.state != STATE_PLAY && e.counters.stop == AUTO_SPDIF_IN
  }

  lemma TickSpdif(y: Sys, e: AvTransport.Event)
    requires e.IdleTick?
    ensures OutAfter(y, e).spdifIn == (TickSelects(y, e) || y.out.spdifIn)
  {
  }

  lemma OtherSpdif(y: Sys, e: AvTransport.Event)
    requires !e.IdleTick?
    ensures OutAfter(y, e).spdifIn == if e.RadioKey? then true
                                      else if ToldToPlay(y, e) && y.out.uri.Some? then false
                                      else y.out.spdifIn
  {
  }

  /** S/PDIF is selected by its key and by the loop, and left when a pending URI is played,
      even in vain. */
  ghost predicate InSpdif(y: Sys, events: seq<AvTransport.Event>)
    requires TransportTable(y.table) && Possible(y, events)
    decreases |events|
  {
    if events == [] then y.out.spdifIn
    else
      var front, e := events[..|events| - 1], events[|events| - 1];
      var z := Before(y, events);
      if e.RadioKey? || TickSelects(z, e) then true
      else !(ToldToPlay(z, e) && PendingUri(y, front).Some?) && InSpdif(y, front)
  }

  lemma {:induction false} SpdifIff(y: Sys, events: seq<AvTransport.Event>)
    requires SysInv(y) && Possible(y, events)
    ensures After(y, events).out.spdifIn <==> InSpdif(y, events)
    decreases |events|
  {
    if events != [] {
      var front, e := events[..|events| - 1], events[|events| - 1];
      var z := Before(y, events);
      SpdifIff(y, front);
      PendingIff(y, front);
      assert Next(z, e).out == OutAfter(z, e);
      if e.IdleTick? {
        TickSpdif(z, e);
      } else {
        OtherSpdif(z, e);
      }
    }
  }

  /** Since the transport plays: it began without a pending URI, in S/PDIF mode, or a tick
      selected S/PDIF afterwards because the player had not reported that it plays. */
  ghost predicate SpdifSincePlay(y: Sys, events: seq<AvTransport.Event>)
    requires TransportTable(y.table) && Possible(y, events)
    decreases |events|
  {
    if events == [] then y.out.spdifIn
    else
      var front, e := events[..|events| - 1], events[|events| - 1];
      var z := Before(y, events);
      if z.state == Playing then TickSelects(z, e) || SpdifSincePlay(y, front)
      else PendingUri(y, front).None? && InSpdif(y, front)
  }

  lemma PlayingBefore(y: Sys, e: AvTransport.Event)
    requires StateAfter(y, e) == Playing
    ensures y.state != Playing ==> e.Play? && Starting(y, e.ok)
    ensures y.state == Playing ==> !e.RadioKey? && !ToldToPlay(y, e)
  {
  }

  /** Over runs: exactly when a playing transport is in S/PDIF mode. */
  lemma {:induction false} PlayingInSpdifIff(y: Sys, events: seq<AvTransport.Event>)
    requires SysInv(y) && Possible(y, events) && After(y, events).state == Playing
    ensures After(y, events).out.spdifIn <==> SpdifSincePlay(y, events)
    decreases |events|
  {
    if events != [] {
      var front, e := events[..|events| - 1], events[|events| - 1];
      var z := Before(y, events);
      assert Next(z, e).out == OutAfter(z, e) && Next(z, e).state == StateAfter(z, e);
      PlayingBefore(z, e);
      PendingIff(y, front);
      SpdifIff(y, front);
      if z.state == Playing {
        PlayingInSpdifIff(y, front);
      }
      if e.IdleTick? {
        TickSpdif(z, e);
      } else {
        OtherSpdif(z, e);
      }
    }
  }

  // ---- Power ----

  lemma TickCutsPowerIff(s: Silan, c: Counters, h: seq<Tick>, locked: bool, ok: bool)
    requires Explains(h, s, c) && s.ampPower
    ensures !AfterTurn(s, c, Idle(locked, ok)).0.ampPower
            <==> s.spdifIn && !locked && BadTicks(h + [Tick(true, false)], true) == AUTO_POWER_OFF + 1
  {
    TickExplained(h, s, c, locked, ok);
    var k := h + [TickOf(s, locked)];
    assert k[..|k| - 1] == h;
  }

  /** Over runs: a tick cuts the power of a playing transport exactly if the transport is
      in S/PDIF mode, and this is the 301st tick in a row in that mode without a lock. */
  lemma PlayingLosesPowerIff(y: Sys, c: Counters, h: seq<Tick>, events: seq<AvTransport.Event>, locked: bool, ok: bool)
    requires SysInv(y) && Possible(y, events) && Clocked(y, c, events) && Explains(h, y.out, c)
    requires After(y, events).state == Playing && After(y, events).out.ampPower
    ensures var w := Next(After(y, events), IdleTick(CountersOf(y, c, events), locked, ok));
            && w.state == Playing
            && (!w.out.ampPower
                <==> && SpdifSincePlay(y, events) && !locked
                     && BadTicks(h + History(y, events) + [Tick(true, false)], true) == AUTO_POWER_OFF + 1)
  {
    var z, d := After(y, events), CountersOf(y, c, events);
    SystemExplained(y, c, h, events);
    PlayingInSpdifIff(y, events);
    TickCutsPowerIff(z.out, d, h + History(y, events), locked, ok);
    TickStep(z, d, locked, ok);
  }

  // ---- It happens ----

  /** A paused track, the tick that selects S/PDIF, and Play: the track goes on, and the
      mode stays. */
  lemma ResumedInSpdif(y: Sys, c: Counters, locked: bool, ok: bool)
    requires SysInv(y) && y.state == PausedPlayback && y.out.uri.None? && y.out.state == STATE_PAUSE
    requires !y.out.spdifIn && c.stop == AUTO_SPDIF_IN
    ensures var ticked := Next(y, IdleTick(c, locked, ok));
            var z := Next(ticked, Play(true));
            SysInv(z) && z.state == Playing && z.out.spdifIn
  {
    EventKeepsInv(y, IdleTick(c, locked, ok));
    TickStep(y, c, locked, ok);
    TickSpdif(y, IdleTick(c, locked, ok));
    ResumedKeepsMode(Next(y, IdleTick(c, locked, ok)));
  }

  lemma ResumedKeepsMode(y: Sys)
    requires SysInv(y) && y.state == PausedPlayback && y.out.uri.None? && y.out.state == STATE_PAUSE
    ensures var z := Next(y, Play(true));
            SysInv(z) && z.state == Playing && z.out.spdifIn == y.out.spdifIn
  {
    EventKeepsInv(y, Play(true));
    assert Next(y, Play(true)).out == OutAfter(y, Play(true));
    assert Next(y, Play(true)).state == StateAfter(y, Play(true));
  }

  /** A number of idle ticks without a lock, the loop counting on. */
  function QuietEvents(s: Silan, c: Counters, n: nat): (events: seq<AvTransport.Event>)
    ensures |events| == n
  {
    if n == 0 then [] else QuietEvents(s, c, n - 1) + [IdleTick(AfterTurns(s, c, Unlocked(n - 1)).1, false, true)]
  }

  lemma {:induction false} PossibleAppend(y: Sys, events: seq<AvTransport.Event>, e: AvTransport.Event)
    requires TransportTable(y.table) && Possible(y, events) && Enabled(After(y, events), e)
    ensures Possible(y, events + [e]) && After(y, events + [e]) == Next(After(y, events), e)
    decreases |events|
  {
    if events == [] {
      assert ([] + [e])[0] == e && ([] + [e])[1..] == [];
    } else {
      assert (events + [e])[0] == events[0] && (events + [e])[1..] == events[1..] + [e];
      PossibleAppend(Next(y, events[0]), events[1..], e);
    }
  }

  lemma {:induction false} QuietEventsAreTurns(y: Sys, c: Counters, n: nat)
    requires TransportTable(y.table)
    ensures var events := QuietEvents(y.out, c, n);
            && Possible(y, events) && After(y, events).state == y.state
            && After(y, events).out == AfterTurns(y.out, c, Unlocked(n)).0
    decreases n
  {
    if n > 0 {
      QuietEventsAreTurns(y, c, n - 1);
      var front := QuietEvents(y.out, c, n - 1);
      var d := AfterTurns(y.out, c, Unlocked(n - 1)).1;
      PossibleAppend(y, front, IdleTick(d, false, true));
      TickStep(After(y, front), d, false, true);
      assert Unlocked(n)[..n - 1] == Unlocked(n - 1);
    }
  }

  /** A playing transport in S/PDIF mode: without a lock its amplifier is without power
      after 301 ticks, while the track goes on. */
  lemma PlayingWithoutPower(y: Sys, c: Counters)
    requires SysInv(y) && y.state == Playing && y.out.spdifIn && c.unlock <= AUTO_POWER_OFF
    ensures var events := QuietEvents(y.out, c, AUTO_POWER_OFF + 1);
            && Possible(y, events) && !After(y, events).out.ampPower
            && After(y, events).state == Playing && SysInv(After(y, events))
  {
    QuietEventsAreTurns(y, c, AUTO_POWER_OFF + 1);
    QuietTicks(y.out, c, AUTO_POWER_OFF + 1);
    RunKeepsSysInv(y, QuietEvents(y.out, c, AUTO_POWER_OFF + 1));
  }
}
