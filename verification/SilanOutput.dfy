/** The output module: what is to be played next, the messages exchanged with the
    player process, and the power and mute lines of the amplifier. Functions on
    the record Silan say what each operation does; the class does it in place. */
module SilanOutput {
  import opened Options

  const STATE_STOP := 0
  const STATE_PAUSE := 1
  const STATE_PLAY := 2

  datatype Command =
    | PlayUri(uri: string)
    | TogglePause
    | StopPlaying
    | SeekTo(seconds: int)
    | GetTimePos
    | SetPadMux(padmux: int)
    | SpdifIn

  datatype Feedback = PlayStopped | PlayStartedNextStream

  /** A write to one of the amplifier's lines. */
  datatype LineWrite = MuteLine(high: bool) | PowerLine(high: bool)

  datatype Silan = Silan(
    state: int,                // last play state reported by the player
    spdifIn: bool,             // status bits
    ampMute: bool,
    ampPower: bool,
    pinMute: bool,             // levels of the amplifier's lines; power is active low
    pinPower: bool,
    lines: seq<LineWrite>,     // writes to them, in order
    uri: Option<string>,
    uriNext: Option<string>,
    duration: int,
    position: int,
    padmux: int,
    commands: seq<Command>)    // messages sent to the player

  // ---- Operations on the record ----

  function NonEmpty(uri: string): Option<string> {
    if uri == "" then None else Some(uri)
  }

  /** `ok` says whether the queue takes messages at the moment. */
  function Send(s: Silan, c: Command, ok: bool): Silan {
    if ok then s.(commands := s.commands + [c]) else s
  }

  function AfterSetSpdifIn(s: Silan, ok: bool): Silan {
    if s.spdifIn then s
    else Send(Send(s.(spdifIn := true), SetPadMux(s.padmux), ok), SpdifIn, ok)
  }

  function AfterSetAmpMute(s: Silan, m: bool): Silan {
    if m == s.ampMute then s else s.(ampMute := m, pinMute := m, lines := s.lines + [MuteLine(m)])
  }

  function AfterSetAmpPower(s: Silan, m: bool): Silan {
    if m == s.ampPower then s
    else
      var muted := AfterSetAmpMute(s, true);
      muted.(pinPower := !m, ampPower := m, lines := muted.lines + [PowerLine(!m)])
  }

  /** A pending URI is played from its start; otherwise a paused player goes on. */
  function AfterPlay(s: Silan, ok: bool): Silan {
    if s.uri.Some? then
      Send(s.(spdifIn := false, duration := 0, position := 0), PlayUri(s.uri.value), ok).(uri := None)
    else if s.state == STATE_PAUSE then Send(s, TogglePause, ok)
    else s
  }

  predicate PlaySucceeds(s: Silan, ok: bool) {
    (s.uri.Some? || s.state == STATE_PAUSE) && ok
  }

  predicate EndOfStream(s: Silan, state: int) {
    state == STATE_STOP && s.duration != 0 && s.position == s.duration
  }

  function AfterPlayState(s: Silan, state: int, ok: bool): Silan {
    var t := s.(state := state);
    if EndOfStream(s, state) && s.uriNext.Some? then
      Send(t.(uri := s.uriNext, uriNext := None), PlayUri(s.uriNext.value), ok)
    else t
  }

  /** What the transport is told about a play state message. */
  function FeedbackOn(s: Silan, state: int): Option<Feedback> {
    if !EndOfStream(s, state) then None
    else if s.uriNext.Some? then Some(PlayStartedNextStream)
    else Some(PlayStopped)
  }

  // ---- The module's state ----

  class Output {
    var state: int
    var spdifIn: bool
    var ampMute: bool
    var ampPower: bool
    var pinMute: bool
    var pinPower: bool
    var lines: seq<LineWrite>
    var uri: Option<string>
    var uriNext: Option<string>
    var duration: int
    var position: int
    var padmux: int
    var commands: seq<Command>

    function Model(): Silan
      reads this
    {
      Silan(state, spdifIn, ampMute, ampPower, pinMute, pinPower, lines,
            uri, uriNext, duration, position, padmux, commands)
    }

    /** Both lines are set high first: amplifier off and muted. Then it is powered. */
    constructor (padmux: int, ok: bool)
      ensures state == STATE_STOP && spdifIn && ampMute && ampPower && pinMute && !pinPower
      ensures lines == [MuteLine(true), PowerLine(false)]
      ensures uri == None && uriNext == None && duration == 0 && position == 0
      ensures this.padmux == padmux && commands == if ok then [SetPadMux(padmux), SpdifIn] else []
    {
      state, spdifIn, ampMute, ampPower := STATE_STOP, false, false, false;
      pinMute, pinPower, lines := true, true, [];
      uri, uriNext, duration, position := None, None, 0, 0;
      this.padmux := padmux;
      commands := [];
      new;
      SetAmpPower(true);
      SetSpdifIn(ok);
    }

    method SendCommand(c: Command, ok: bool) returns (failed: bool)
      modifies this`commands
      ensures failed == !ok && Model() == Send(old(Model()), c, ok)
    {
      if ok {
        commands := commands + [c];
      }
      return !ok;
    }

    method SetSpdifIn(ok: bool)
      modifies this
      ensures Model() == AfterSetSpdifIn(old(Model()), ok)
    {
      if spdifIn {
        return;
      }
      spdifIn := true;
      var _ := SendCommand(SetPadMux(padmux), ok);
      var _ := SendCommand(SpdifIn, ok);
    }

    method SetUri(u: string)
      modifies this`uri
      ensures Model() == old(Model()).(uri := NonEmpty(u))
    {
      uri := NonEmpty(u);
    }

    method SetNextUri(u: string)
      modifies this`uriNext
      ensures Model() == old(Model()).(uriNext := NonEmpty(u))
    {
      uriNext := NonEmpty(u);
    }

    method Play(ok: bool) returns (failed: bool)
      modifies this
      ensures Model() == AfterPlay(old(Model()), ok)
      ensures failed <==> !PlaySucceeds(old(Model()), ok)
    {
      if uri.Some? {
        spdifIn := false;
        duration := 0;
        position := 0;
        failed := SendCommand(PlayUri(uri.value), ok);
        uri := None;
        return;
      }
      if state == STATE_PAUSE {
        failed := SendCommand(TogglePause, ok);
        return;
      }
      return true;
    }

    /** A message from the player about its state; the result is what to tell the transport. */
    method ReceivePlayState(s: int, ok: bool) returns (feedback: Option<Feedback>)
      modifies this
      ensures Model() == AfterPlayState(old(Model()), s, ok)
      ensures feedback == FeedbackOn(old(Model()), s)
    {
      state := s;
      feedback := None;
      if state == STATE_STOP && duration != 0 && position == duration {
        if uriNext.Some? {
          uri := uriNext;
          uriNext := None;
          var _ := SendCommand(PlayUri(uri.value), ok);
          feedback := Some(PlayStartedNextStream);
        } else {
          feedback := Some(PlayStopped);
        }
      }
    }

    method ReceiveTimePos(p: int)
      modifies this`position
      ensures Model() == old(Model()).(position := p)
    {
      position := p;
    }

    method ReceiveTotalTime(d: int)
      modifies this`duration
      ensures Model() == old(Model()).(duration := d)
    {
      duration := d;
    }

    /** Asks the player, and waits until its answer has been stored or too long;
        then the stored values are taken in any case. */
    method GetPosition(reply: Option<int>, ok: bool) returns (trackDuration: int, trackPosition: int)
      modifies this
      ensures Model() == Send(old(Model()), GetTimePos, ok).(position := reply.GetOr(old(position)))
      ensures trackDuration == duration && trackPosition == position
    {
      var _ := SendCommand(GetTimePos, ok);
      position := reply.GetOr(position);
      return duration, position;
    }

    method GpioWrite(w: LineWrite)
      modifies this`pinMute, this`pinPower, this`lines
      ensures lines == old(lines) + [w]
      ensures pinMute == if w.MuteLine? then w.high else old(pinMute)
      ensures pinPower == if w.PowerLine? then w.high else old(pinPower)
    {
      lines := lines + [w];
      match w
      case MuteLine(high) => pinMute := high;
      case PowerLine(high) => pinPower := high;
    }

    method SetAmpMute(m: bool)
      modifies this`ampMute, this`pinMute, this`pinPower, this`lines
      ensures Model() == AfterSetAmpMute(old(Model()), m)
    {
      if m != ampMute {
        GpioWrite(MuteLine(m));
      }
      ampMute := m;
    }

    method SetAmpPower(m: bool)
      modifies this`ampMute, this`pinMute, this`ampPower, this`pinPower, this`lines
      ensures Model() == AfterSetAmpPower(old(Model()), m)
    {
      if m != ampPower {
        SetAmpMute(true);
        GpioWrite(PowerLine(!m));
      }
      ampPower := m;
    }
  }
}
