/** The loop of the output module: it powers, mutes and unmutes the amplifier and
    selects the S/PDIF input, by counting idle ticks of about a second. */
module Watchdog {
  import opened SilanOutput

  const AUTO_POWER_OFF := 300
  const AUTO_SPDIF_IN := 120
  const AMP_UNMUTE := 3

  datatype Counters = Counters(stop: nat, unlock: nat, mute: nat)

  /** What one turn of the loop meets: an idle tick, with the lock state of the
      S/PDIF receiver (no information counts as not locked); a key; or that other
      threads changed the play state and the input selection in the meantime. */
  datatype Turn =
    | Idle(locked: bool, ok: bool)
    | RadioKey(ok: bool)
    | OtherKey
    | Meanwhile(spdifIn: bool, state: int)

  // ---- One turn ----

  function PowerUp(s: Silan, c: Counters): (Silan, Counters) {
    if s.ampPower then (s, c) else (AfterSetAmpPower(s, true), c.(mute := 0))
  }

  /** What is played, and what is known of it, is the same. */
  predicate SamePlayback(s: Silan, t: Silan) {
    && t.uri == s.uri && t.uriNext == s.uriNext && t.state == s.state
    && t.duration == s.duration && t.position == s.position
  }

  function AfterInputs(s: Silan, c: Counters, locked: bool, ok: bool): (r: (Silan, Counters))
    ensures SamePlayback(s, r.0)
  {
    if s.spdifIn then
      if locked then PowerUp(s, c.(unlock := 0))
      else if c.unlock < AUTO_POWER_OFF then (s, c.(unlock := c.unlock + 1))
      else if c.unlock == AUTO_POWER_OFF then (AfterSetAmpPower(s, false), c.(unlock := c.unlock + 1))
      else (s, c)
    else
      if s.state == STATE_PLAY then PowerUp(s, c.(stop := 0))
      else if c.stop < AUTO_SPDIF_IN then (s, c.(stop := c.stop + 1))
      else if c.stop == AUTO_SPDIF_IN then (AfterSetSpdifIn(s, ok), c.(stop := c.stop + 1))
      else (s, c)
  }

  function AfterUnmute(s: Silan, c: Counters): (r: (Silan, Counters))
    ensures SamePlayback(s, r.0)
  {
    if !(s.ampPower && s.ampMute) then (s, c)
    else if c.mute < AMP_UNMUTE then (s, c.(mute := c.mute + 1))
    else if c.mute == AMP_UNMUTE then (AfterSetAmpMute(s, false), c.(mute := c.mute + 1))
    else (s, c)
  }

  function AfterTurn(s: Silan, c: Counters, turn: Turn): (r: (Silan, Counters))
    ensures r.0.uri == s.uri && r.0.uriNext == s.uriNext
  {
    match turn
    case Idle(locked, ok) =>
      var (t, d) := AfterInputs(s, c, locked, ok);
      AfterUnmute(t, d)
    case RadioKey(ok) => (AfterSetSpdifIn(s, ok), c)
    case OtherKey => (s, c)
    case Meanwhile(spdifIn, state) => (s.(spdifIn := spdifIn, state := state), c)
  }

  lemma TickKeepsPlayback(s: Silan, c: Counters, locked: bool, ok: bool)
    ensures SamePlayback(s, AfterTurn(s, c, Idle(locked, ok)).0)
  {
    var (t, d) := AfterInputs(s, c, locked, ok);
    assert AfterTurn(s, c, Idle(locked, ok)) == AfterUnmute(t, d);
  }

  function AfterTurns(s: Silan, c: Counters, turns: seq<Turn>): (Silan, Counters) {
    if turns == [] then (s, c)
    else
      var (t, d) := AfterTurns(s, c, turns[..|turns| - 1]);
      AfterTurn(t, d, turns[|turns| - 1])
  }

  /** The first half of an idle tick: the inputs. */
  method WatchInputs(o: Output, locked: bool, ok: bool, stop: nat, unlock: nat, mute: nat)
    returns (cntStop: nat, cntUnlock: nat, cntMute: nat)
    modifies o
    ensures (o.Model(), Counters(cntStop, cntUnlock, cntMute))
         == AfterInputs(old(o.Model()), Counters(stop, unlock, mute), locked, ok)
  {
    cntStop, cntUnlock, cntMute := stop, unlock, mute;
    if o.spdifIn {
      if locked {
        cntUnlock := 0;
        if !o.ampPower {
          cntMute := 0;
          o.SetAmpPower(true);
        }
      } else if cntUnlock < AUTO_POWER_OFF {
        cntUnlock := cntUnlock + 1;
      } else if cntUnlock == AUTO_POWER_OFF {
        cntUnlock := cntUnlock + 1;
        if o.ampPower {
          o.SetAmpPower(false);
        }
      }
    } else {
      if o.state == STATE_PLAY {
        cntStop := 0;
        if !o.ampPower {
          cntMute := 0;
          o.SetAmpPower(true);
        }
      } else if cntStop < AUTO_SPDIF_IN {
        cntStop := cntStop + 1;
      } else if cntStop == AUTO_SPDIF_IN {
        cntStop := cntStop + 1;
        o.SetSpdifIn(ok);
      }
    }
  }

  /** The second half: the unmuting. */
  method WatchMute(o: Output, ghost stop: nat, ghost unlock: nat, mute: nat) returns (cntMute: nat)
    modifies o
    ensures (o.Model(), Counters(stop, unlock, cntMute)) == AfterUnmute(old(o.Model()), Counters(stop, unlock, mute))
  {
    cntMute := mute;
    if o.ampPower && o.ampMute {
      if cntMute < AMP_UNMUTE {
        cntMute := cntMute + 1;
      } else if cntMute == AMP_UNMUTE {
        cntMute := cntMute + 1;
        o.SetAmpMute(false);
      }
    }
  }

  /** The loop, over any finite number of turns. */
  method Loop(o: Output, turns: seq<Turn>) returns (ghost c: Counters)
    modifies o
    ensures (o.Model(), c) == AfterTurns(old(o.Model()), Counters(0, 0, 0), turns)
  {
    var cntStop, cntUnlock, cntMute := 0, 0, 0;
    for i := 0 to |turns|
      invariant cntStop >= 0 && cntUnlock >= 0 && cntMute >= 0
      invariant (o.Model(), Counters(cntStop, cntUnlock, cntMute))
             == AfterTurns(old(o.Model()), Counters(0, 0, 0), turns[..i])
    {
      assert turns[..i + 1][..|turns[..i + 1]| - 1] == turns[..i];
      match turns[i]
      case Idle(locked, ok) =>
        cntStop, cntUnlock, cntMute := WatchInputs(o, locked, ok, cntStop, cntUnlock, cntMute);
        cntMute := WatchMute(o, cntStop, cntUnlock, cntMute);
      case RadioKey(ok) =>
        o.SetSpdifIn(ok);
      case OtherKey =>
      case Meanwhile(spdifIn, state) =>
        o.spdifIn := spdifIn;
        o.state := state;
    }
    assert turns[..|turns|] == turns;
    c := Counters(cntStop, cntUnlock, cntMute);
  }

  // ---- The history of idle ticks ----

  /** An idle tick in S/PDIF mode is good when the receiver is locked, one in the
      other mode when the player plays. */
  datatype Tick = Tick(spdif: bool, good: bool)

  function TickOf(s: Silan, locked: bool): Tick {
    Tick(s.spdifIn, if s.spdifIn then locked else s.state == STATE_PLAY)
  }

  /** The idle ticks of a sequence of turns. */
  function Ticks(s: Silan, c: Counters, turns: seq<Turn>): seq<Tick> {
    if turns == [] then []
    else
      var before := turns[..|turns| - 1];
      var turn := turns[|turns| - 1];
      Ticks(s, c, before) +
      if turn.Idle? then [TickOf(AfterTurns(s, c, before).0, turn.locked)] else []
  }

  /** Bad ticks in one mode since the last good one in that mode. */
  function BadTicks(h: seq<Tick>, spdif: bool): nat {
    if h == [] then 0
    else
      var rest := h[..|h| - 1];
      if h[|h| - 1].spdif != spdif then BadTicks(rest, spdif)
      else if h[|h| - 1].good then 0
      else 1 + BadTicks(rest, spdif)
  }

  /** Powered to begin with; every good tick powers, and the 301st bad S/PDIF tick
      in a row, but no later one, cuts the power. */
  function Powered(h: seq<Tick>): bool {
    if h == [] then true
    else
      var last := h[|h| - 1];
      if last.good then true
      else if last.spdif && BadTicks(h, true) == AUTO_POWER_OFF + 1 then false
      else Powered(h[..|h| - 1])
  }

  /** Ticks of the current stretch of power, counting the one that gave it. */
  function PoweredTicks(h: seq<Tick>): nat {
    if h == [] || !Powered(h) then 0 else 1 + PoweredTicks(h[..|h| - 1])
  }

  function Capped(n: nat, cap: nat): nat {
    if n < cap then n else cap
  }

  /** The counters, the amplifier's status and its lines, from the history alone. */
  ghost predicate Explains(h: seq<Tick>, s: Silan, c: Counters) {
    && c.unlock == Capped(BadTicks(h, true), AUTO_POWER_OFF + 1)
    && c.stop == Capped(BadTicks(h, false), AUTO_SPDIF_IN + 1)
    && s.ampPower == Powered(h)
    && s.ampMute == !(Powered(h) && PoweredTicks(h) > AMP_UNMUTE)
    && (Powered(h) ==> c.mute == Capped(PoweredTicks(h), AMP_UNMUTE + 1))
    && s.pinMute == s.ampMute
    && s.pinPower == !s.ampPower
  }

  lemma TickExplained(h: seq<Tick>, s: Silan, c: Counters, locked: bool, ok: bool)
    requires Explains(h, s, c)
    ensures var (t, d) := AfterTurn(s, c, Idle(locked, ok)); Explains(h + [TickOf(s, locked)], t, d)
  {
    var k := h + [TickOf(s, locked)];
    assert k[..|k| - 1] == h;
  }

  /** After init, in every run: the counters are what their names say, the lines
      match the status, an unpowered amplifier is muted, and a powered one is
      unmuted exactly from the fourth tick of its stretch of power on. */
  lemma {:induction false} WatchdogExplained(s: Silan, turns: seq<Turn>)
    requires s.ampMute && s.ampPower && s.pinMute && !s.pinPower
    ensures var c := Counters(0, 0, 0);
            Explains(Ticks(s, c, turns), AfterTurns(s, c, turns).0, AfterTurns(s, c, turns).1)
    decreases |turns|
  {
    if turns != [] {
      var c := Counters(0, 0, 0);
      var before := turns[..|turns| - 1];
      WatchdogExplained(s, before);
      var (t, d) := AfterTurns(s, c, before);
      if turns[|turns| - 1].Idle? {
        TickExplained(Ticks(s, c, before), t, d, turns[|turns| - 1].locked, turns[|turns| - 1].ok);
      } else {
        assert Ticks(s, c, turns) == Ticks(s, c, before);
      }
    }
  }

  /** Power goes only in the tick that makes 301 bad S/PDIF ticks in a row, and the
      input is selected by itself only in the tick that makes 121 in the other mode. */
  lemma ChangesByTick(h: seq<Tick>, s: Silan, c: Counters, locked: bool, ok: bool)
    requires Explains(h, s, c)
    ensures var t := AfterTurn(s, c, Idle(locked, ok)).0;
            var k := h + [TickOf(s, locked)];
            && (s.ampPower && !t.ampPower ==> s.spdifIn && BadTicks(k, true) == AUTO_POWER_OFF + 1)
            && (t.spdifIn != s.spdifIn <==>
                !s.spdifIn && s.state != STATE_PLAY && BadTicks(k, false) == AUTO_SPDIF_IN + 1)
            && (s.ampMute && !t.ampMute ==> t.ampPower && PoweredTicks(k) == AMP_UNMUTE + 1)
  {
  }

  // ---- The order of the line writes ----

  /** The mute line is set by the initialisation. */
  function MuteHigh(lines: seq<LineWrite>): bool {
    if lines == [] then true
    else if lines[|lines| - 1].MuteLine? then lines[|lines| - 1].high
    else MuteHigh(lines[..|lines| - 1])
  }

  /** Whenever the power line was written, the mute line was high already. */
  predicate SwitchedMuted(lines: seq<LineWrite>) {
    forall i :: 0 <= i < |lines| && lines[i].PowerLine? ==> MuteHigh(lines[..i])
  }

  lemma OneMoreLine(lines: seq<LineWrite>, w: LineWrite)
    requires SwitchedMuted(lines) && (w.PowerLine? ==> MuteHigh(lines))
    ensures SwitchedMuted(lines + [w])
    ensures MuteHigh(lines + [w]) == if w.MuteLine? then w.high else MuteHigh(lines)
  {
    var more := lines + [w];
    assert more[..|lines|] == lines;
    forall i | 0 <= i < |lines|
      ensures more[..i] == lines[..i]
    {
    }
  }

  ghost predicate LinesInOrder(s: Silan) {
    SwitchedMuted(s.lines) && s.ampMute == MuteHigh(s.lines)
  }

  /** What the initialisation writes is in order. */
  lemma InitialLinesInOrder(s: Silan)
    requires s.lines == [MuteLine(true), PowerLine(false)] && s.ampMute
    ensures LinesInOrder(s)
  {
    OneMoreLine([], MuteLine(true));
    OneMoreLine([MuteLine(true)], PowerLine(false));
    assert [] + [MuteLine(true)] == [MuteLine(true)];
    assert [MuteLine(true)] + [PowerLine(false)] == s.lines;
  }

  /** Muting and switching append the writes they make; the one for power comes last. */
  lemma SwitchingKeepsOrder(s: Silan, m: bool)
    requires LinesInOrder(s)
    ensures LinesInOrder(AfterSetAmpMute(s, m)) && LinesInOrder(AfterSetAmpPower(s, m))
  {
    OneMoreLine(s.lines, MuteLine(m));
    OneMoreLine(s.lines, MuteLine(true));
    var muted := AfterSetAmpMute(s, true);
    OneMoreLine(muted.lines, PowerLine(!m));
  }

  lemma InputsKeepOrder(s: Silan, c: Counters, locked: bool, ok: bool)
    requires LinesInOrder(s)
    ensures LinesInOrder(AfterInputs(s, c, locked, ok).0)
  {
    SwitchingKeepsOrder(s, true);
    SwitchingKeepsOrder(s, false);
  }

  lemma TurnKeepsOrder(s: Silan, c: Counters, turn: Turn)
    requires LinesInOrder(s)
    ensures LinesInOrder(AfterTurn(s, c, turn).0)
  {
    if turn.Idle? {
      InputsKeepOrder(s, c, turn.locked, turn.ok);
      SwitchingKeepsOrder(AfterInputs(s, c, turn.locked, turn.ok).0, false);
    }
  }

  /** In every run the power line is only ever written while the mute line is high. */
  lemma {:induction false} PowerIsSwitchedMuted(s: Silan, c: Counters, turns: seq<Turn>)
    requires LinesInOrder(s)
    ensures LinesInOrder(AfterTurns(s, c, turns).0)
    decreases |turns|
  {
    if turns != [] {
      var before := turns[..|turns| - 1];
      PowerIsSwitchedMuted(s, c, before);
      var (t, d) := AfterTurns(s, c, before);
      TurnKeepsOrder(t, d, turns[|turns| - 1]);
    }
  }

  // ---- When a lost signal switches the amplifier off ----

  function Unlocked(n: nat): seq<Turn> {
    seq(n, _ => Idle(false, true))
  }

  lemma {:induction false} QuietTicks(s: Silan, c: Counters, n: nat)
    requires s.spdifIn
    ensures var (t, d) := AfterTurns(s, c, Unlocked(n));
            && t.spdifIn
            && d.unlock == (if c.unlock > AUTO_POWER_OFF then c.unlock else Capped(c.unlock + n, AUTO_POWER_OFF + 1))
            && (t.ampPower <==> s.ampPower && !(c.unlock <= AUTO_POWER_OFF && c.unlock + n > AUTO_POWER_OFF))
  {
    if n > 0 {
      assert Unlocked(n)[..n - 1] == Unlocked(n - 1);
      QuietTicks(s, c, n - 1);
    }
  }

  /** Does enough silence on S/PDIF switch the amplifier off? Exactly if the
      counter has not passed its limit before: it is not reset by leaving the
      S/PDIF mode, only by a locked tick. */
  lemma SilencePowersOffIff(s: Silan, c: Counters)
    requires s.spdifIn && s.ampPower
    ensures (exists n: nat :: !AfterTurns(s, c, Unlocked(n)).0.ampPower) <==> c.unlock <= AUTO_POWER_OFF
  {
    forall n: nat
      ensures AfterTurns(s, c, Unlocked(n)).0.ampPower <==>
              !(c.unlock <= AUTO_POWER_OFF && c.unlock + n > AUTO_POWER_OFF)
    {
      QuietTicks(s, c, n);
    }
    if c.unlock <= AUTO_POWER_OFF {
      assert !AfterTurns(s, c, Unlocked(AUTO_POWER_OFF + 1)).0.ampPower;
    }
  }

  lemma TurnsConcat(s: Silan, c: Counters, a: seq<Turn>, b: seq<Turn>)
    ensures AfterTurns(s, c, a + b) == AfterTurns(AfterTurns(s, c, a).0, AfterTurns(s, c, a).1, b)
    decreases |b|
  {
    if b == [] {
      assert a + b == a;
    } else {
      assert (a + b)[..|a + b| - 1] == a + b[..|b| - 1];
      TurnsConcat(s, c, a, b[..|b| - 1]);
    }
  }

  /** It does happen: silence cuts the power, a track is played, S/PDIF is selected
      again without a signal, and the amplifier then stays on for ever. */
  lemma StaysOnAfterInterlude(s: Silan, n: nat)
    requires s.spdifIn && s.ampPower
    ensures var turns := Unlocked(301) + [Meanwhile(false, STATE_PLAY), Idle(false, true), Meanwhile(true, STATE_STOP)];
            && !AfterTurns(s, Counters(0, 0, 0), Unlocked(301)).0.ampPower
            && AfterTurns(s, Counters(0, 0, 0), turns + Unlocked(n)).0.ampPower
  {
    var c := Counters(0, 0, 0);
    var play := [Meanwhile(false, STATE_PLAY), Idle(false, true), Meanwhile(true, STATE_STOP)];
    QuietTicks(s, c, 301);
    var (t, d) := AfterTurns(s, c, Unlocked(301));
    var (t1, d1) := AfterTurn(t, d, play[0]);
    var (t2, d2) := AfterTurn(t1, d1, play[1]);
    var (t3, d3) := AfterTurn(t2, d2, play[2]);
    assert play[..2][..1] == play[..1] && play[..1][..0] == [];
    assert AfterTurns(t, d, play[..1]) == (t1, d1);
    assert AfterTurns(t, d, play[..2]) == (t2, d2);
    assert AfterTurns(t, d, play) == (t3, d3);
    TurnsConcat(s, c, Unlocked(301), play);
    TurnsConcat(s, c, Unlocked(301) + play, Unlocked(n));
    QuietTicks(t3, d3, n);
  }

  // ---- The counts ----

  /** Without a signal on S/PDIF the amplifier has power for 300 ticks and no longer. */
  lemma KeepsPowerFor300(s: Silan, n: nat)
    requires s.spdifIn && s.ampPower
    ensures AfterTurns(s, Counters(0, 0, 0), Unlocked(n)).0.ampPower <==> n <= 300
  {
    QuietTicks(s, Counters(0, 0, 0), n);
  }

  /** While the player does not play, the S/PDIF input is selected by the 121st tick and
      by no other; the player is told once. */
  lemma {:induction false} SelectsSpdifAfter120(s: Silan, n: nat)
    requires !s.spdifIn && s.state != 2
    ensures var (t, d) := AfterTurns(s, Counters(0, 0, 0), Unlocked(n));
            && t.state == s.state && t.padmux == s.padmux && (n <= 120 ==> d.stop == n)
            && (t.spdifIn <==> n > 120)
            && t.commands == if n > 120 then s.commands + [SetPadMux(s.padmux), SpdifIn] else s.commands
    decreases n
  {
    if n > 0 {
      assert Unlocked(n)[..n - 1] == Unlocked(n - 1);
      SelectsSpdifAfter120(s, n - 1);
      var (t, d) := AfterTurns(s, Counters(0, 0, 0), Unlocked(n - 1));
      StoppedTick(t, d);
      assert t.commands + [SetPadMux(t.padmux)] + [SpdifIn] == t.commands + [SetPadMux(t.padmux), SpdifIn];
    }
  }

  lemma StoppedTick(s: Silan, c: Counters)
    requires s.spdifIn || s.state != 2
    ensures var (t, d) := AfterTurn(s, c, Idle(false, true));
            && t.state == s.state && t.padmux == s.padmux
            && (!s.spdifIn && c.stop < 120 ==> d.stop == c.stop + 1)
            && (t.spdifIn <==> s.spdifIn || c.stop == 120)
            && t.commands == if !s.spdifIn && c.stop == 120 then s.commands + [SetPadMux(s.padmux)] + [SpdifIn]
                             else s.commands
  {
    var (t, d) := AfterInputs(s, c, false, true);
    assert AfterTurn(s, c, Idle(false, true)) == AfterUnmute(t, d);
  }

  function Locked(n: nat): seq<Turn> {
    seq(n, _ => Idle(true, true))
  }

  /** A signal on S/PDIF powers the amplifier with the first tick and unmutes it with the
      fourth, whatever the counters were. */
  lemma {:induction false} UnmutesAfter3(s: Silan, c: Counters, n: nat)
    requires s.spdifIn && !s.ampPower && s.ampMute
    ensures var (t, d) := AfterTurns(s, c, Locked(n));
            && t.spdifIn && (t.ampPower <==> n >= 1) && (t.ampMute <==> n <= 3)
            && (n >= 1 ==> d.mute == Capped(n, 4))
    decreases n
  {
    if n > 0 {
      assert Locked(n)[..n - 1] == Locked(n - 1);
      UnmutesAfter3(s, c, n - 1);
      var (t, d) := AfterTurns(s, c, Locked(n - 1));
      LockedTick(t, d);
    }
  }

  lemma LockedTick(s: Silan, c: Counters)
    requires s.spdifIn && (!s.ampPower ==> s.ampMute)
    ensures var (t, d) := AfterTurn(s, c, Idle(true, true));
            var before := if s.ampPower then c.mute else 0;
            && t.spdifIn && t.ampPower
            && (t.ampMute <==> s.ampMute && before != 3)
            && d.mute == if s.ampMute && before <= 3 then before + 1 else before
  {
    var (t, d) := AfterInputs(s, c, true, true);
    assert AfterTurn(s, c, Idle(true, true)) == AfterUnmute(t, d);
  }
}
