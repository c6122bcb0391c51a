/** The decoder of the LG remote control: an interrupt on every edge of the
    infrared signal, fed with the time since the edge before. Declared next to the
    automaton is the language of frames and repeat bursts it is meant to accept,
    and both are proved to agree on every trace. */
module IrDecoder {
  import opened Options

  const ERR: nat := 100
  const HEADER_PULSE: nat := 9000
  const HEADER_SPACE: nat := 4500
  const REPEAT_SPACE: nat := 2300
  const DATA_PULSE: nat := 510
  const DATA_1_SPACE: nat := 1750
  const DATA_0_SPACE: nat := 600
  const GAP: nat := 96400
  const BITS: nat := 32
  const SKIP_REPEAT: nat := 2
  const UINT: nat := 0x1_0000_0000

  predicate Near(w: nat, nominal: nat) {
    nominal - ERR <= w <= nominal + ERR
  }

  // ---- The automaton ----

  /** What the next width is expected to be. */
  datatype Phase = Idle | HeaderPulse | HeaderSpace | RepeatPulse | RepeatSpace | DataPulse | DataSpace

  /** `work` lists the words that were current whenever work was scheduled. */
  datatype Decoder = Decoder(phase: Phase, idx: nat, data: nat, dataOk: nat, repeat: nat, work: seq<nat>)

  const BOOT := Decoder(Idle, 0, 0, 0, 0, [])

  /** A shift of the 32-bit word by one place, then the bit is put in. */
  function ShiftIn(data: nat, bit: nat): nat {
    data * 2 % UINT + bit
  }

  function Step(d: Decoder, w: nat): Decoder {
    if w > GAP + ERR then d.(phase := HeaderPulse)
    else
      match d.phase
      case Idle => d
      case HeaderPulse => d.(phase := if Near(w, HEADER_PULSE) then HeaderSpace else Idle)
      case HeaderSpace =>
        if Near(w, HEADER_SPACE) then d.(phase := DataPulse, idx := 0, data := 0, repeat := 0)
        else d.(phase := if Near(w, REPEAT_SPACE) then RepeatPulse else Idle)
      case RepeatPulse => d.(phase := if Near(w, DATA_PULSE) then RepeatSpace else Idle)
      case RepeatSpace =>
        if w > HEADER_PULSE + ERR then
          d.(phase := HeaderPulse, repeat := d.repeat + 1,
             work := if d.repeat + 1 > SKIP_REPEAT then d.work + [d.dataOk] else d.work)
        else d.(phase := Idle)
      case DataPulse =>
        if !Near(w, DATA_PULSE) then d.(phase := Idle)
        else if d.idx >= BITS then d.(phase := RepeatSpace, dataOk := d.data, work := d.work + [d.data])
        else d.(phase := DataSpace)
      case DataSpace =>
        if Near(w, DATA_1_SPACE) then d.(phase := DataPulse, data := ShiftIn(d.data, 1), idx := d.idx + 1)
        else if Near(w, DATA_0_SPACE) then d.(phase := DataPulse, data := ShiftIn(d.data, 0), idx := d.idx + 1)
        else d.(phase := Idle)
  }

  /** The decoder after the first `n` widths of a trace. */
  function After(d: Decoder, ws: seq<nat>, n: nat): Decoder
    requires n <= |ws|
  {
    if n == 0 then d else Step(After(d, ws, n - 1), ws[n - 1])
  }

  /** Microseconds between two edges, as an unsigned 32-bit number. */
  function Width(sec: int, usec: int, baseSec: int, baseUsec: int): (w: nat)
    ensures w < UINT
    ensures var elapsed := 1000000 * (sec - baseSec) + usec - baseUsec;
            w == elapsed <==> 0 <= elapsed < UINT
  {
    (1000000 * (sec - baseSec) + usec - baseUsec) % UINT
  }

  class Receiver {
    var phase: Phase
    var idx: nat
    var data: nat
    var dataOk: nat
    var repeat: nat
    var baseSec: int
    var baseUsec: int
    var work: seq<nat>
    ghost var widths: seq<nat>

    ghost function Model(): Decoder
      reads this
    {
      Decoder(phase, idx, data, dataOk, repeat, work)
    }

    ghost predicate Valid()
      reads this
    {
      Model() == After(BOOT, widths, |widths|)
    }

    constructor ()
      ensures Valid() && widths == []
    {
      phase, idx, data, dataOk, repeat, baseSec, baseUsec, work, widths := Idle, 0, 0, 0, 0, 0, 0, [], [];
    }

    /** The interrupt at time `sec`, `usec`. */
    method Isr(sec: int, usec: int)
      requires Valid()
      modifies this
      ensures Valid() && baseSec == sec && baseUsec == usec
      ensures widths == old(widths) + [Width(sec, usec, old(baseSec), old(baseUsec))]
      ensures Model() == Step(old(Model()), Width(sec, usec, old(baseSec), old(baseUsec)))
    {
      var width := Width(sec, usec, baseSec, baseUsec);
      baseSec, baseUsec := sec, usec;
      Appended(BOOT, widths, width);
      widths := widths + [width];
      Take(width);
    }

    /** The state machine of the interrupt. */
    method Take(width: nat)
      modifies this`phase, this`idx, this`data, this`dataOk, this`repeat, this`work
      ensures Model() == Step(old(Model()), width)
    {
      if width > GAP + ERR {
        phase := HeaderPulse;
        return;
      }
      match phase {
        case HeaderPulse =>
          phase := if Near(width, HEADER_PULSE) then HeaderSpace else Idle;
        case HeaderSpace =>
          if Near(width, HEADER_SPACE) {
            idx, data, repeat := 0, 0, 0;
            phase := DataPulse;
          } else if Near(width, REPEAT_SPACE) {
            phase := RepeatPulse;
          } else {
            phase := Idle;
          }
        case RepeatPulse =>
          phase := if Near(width, DATA_PULSE) then RepeatSpace else Idle;
        case RepeatSpace =>
          if width > HEADER_PULSE + ERR && width <= GAP + ERR {
            phase := HeaderPulse;
            repeat := repeat + 1;
            if repeat > SKIP_REPEAT {
              work := work + [dataOk];
            }
          } else {
            phase := Idle;
          }
        case DataPulse =>
          if Near(width, DATA_PULSE) {
            if idx >= BITS {
              phase := RepeatSpace;
              dataOk := data;
              work := work + [dataOk];
            } else {
              phase := DataSpace;
            }
          } else {
            phase := Idle;
          }
        case DataSpace =>
          if Near(width, DATA_1_SPACE) {
            phase := DataPulse;
            data := ShiftIn(data, 1);
            idx := idx + 1;
          } else if Near(width, DATA_0_SPACE) {
            phase := DataPulse;
            data := ShiftIn(data, 0);
            idx := idx + 1;
          } else {
            phase := Idle;
          }
        case Idle =>
      }
    }
  }

  lemma {:induction false} Extend(d: Decoder, ws: seq<nat>, more: seq<nat>, n: nat)
    requires n <= |ws|
    ensures After(d, ws + more, n) == After(d, ws, n)
    decreases n
  {
    if n > 0 {
      Extend(d, ws, more, n - 1);
    }
  }

  lemma Appended(d: Decoder, ws: seq<nat>, w: nat)
    ensures After(d, ws + [w], |ws| + 1) == Step(After(d, ws, |ws|), w)
  {
    Extend(d, ws, [w], |ws|);
  }

  // ---- The language ----

  /** The width at `a` and those after it begin a frame of at least `k` bits. */
  predicate FramePrefix(ws: seq<nat>, a: nat, k: nat) {
    && a + 2 + 2 * k <= |ws|
    && Near(ws[a], HEADER_PULSE) && Near(ws[a + 1], HEADER_SPACE)
    && forall i :: 0 <= i < k ==> BitShape(ws, a, i)
  }

  predicate BitShape(ws: seq<nat>, a: nat, i: nat)
    requires a + 4 + 2 * i <= |ws|
  {
    && Near(ws[a + 2 + 2 * i], DATA_PULSE)
    && (Near(ws[a + 3 + 2 * i], DATA_1_SPACE) || Near(ws[a + 3 + 2 * i], DATA_0_SPACE))
  }

  /** A whole frame: 67 widths. */
  predicate Frame(ws: seq<nat>, a: nat) {
    FramePrefix(ws, a, BITS) && a + 67 <= |ws| && Near(ws[a + 66], DATA_PULSE)
  }

  predicate IsOne(ws: seq<nat>, a: nat, i: nat)
    requires a + 4 + 2 * i <= |ws|
  {
    Near(ws[a + 3 + 2 * i], DATA_1_SPACE)
  }

  /** The first `k` bits of a frame, most significant first. */
  function Word(ws: seq<nat>, a: nat, k: nat): (word: nat)
    requires a + 2 + 2 * k <= |ws|
    ensures word < Pow2(k)
  {
    if k == 0 then 0 else 2 * Word(ws, a, k - 1) + if IsOne(ws, a, k - 1) then 1 else 0
  }

  function Pow2(k: nat): (p: nat)
    ensures p > 0
  {
    if k == 0 then 1 else 2 * Pow2(k - 1)
  }

  predicate RepeatBurst(ws: seq<nat>, a: nat) {
    a + 3 <= |ws| && Near(ws[a], HEADER_PULSE) && Near(ws[a + 1], REPEAT_SPACE) && Near(ws[a + 2], DATA_PULSE)
  }

  /** A silence short enough to come between a burst and its repetition. */
  predicate RepeatGap(w: nat) {
    HEADER_PULSE + ERR < w <= GAP + ERR
  }

  /** May a frame begin after `n` widths? There was a long silence, or one after a burst. */
  predicate Armed(ws: seq<nat>, n: nat)
    requires n <= |ws|
    decreases n, 0
  {
    n > 0 && (ws[n - 1] > GAP + ERR || (RepeatGap(ws[n - 1]) && BurstEnd(ws, n - 1)))
  }

  /** Does a frame or a repeat burst end after `n` widths? */
  predicate BurstEnd(ws: seq<nat>, n: nat)
    requires n <= |ws|
    decreases n, 1
  {
    || (n >= 67 && FrameAt(ws, n - 67))
    || (n >= 3 && RepeatBurst(ws, n - 3) && Armed(ws, n - 3))
  }

  /** A frame at a place where one may begin. */
  predicate FrameAt(ws: seq<nat>, a: nat)
    requires a <= |ws|
    decreases a, 1
  {
    Frame(ws, a) && Armed(ws, a)
  }

  // ---- Soundness ----

  /** What a phase of the decoder says about the widths so far. */
  ghost predicate Describes(ws: seq<nat>, n: nat, d: Decoder)
    requires n <= |ws|
  {
    && d.idx <= BITS && d.data < Pow2(d.idx)
    && match d.phase
       case Idle => true
       case HeaderPulse => Armed(ws, n)
       case HeaderSpace => n >= 1 && Near(ws[n - 1], HEADER_PULSE) && Armed(ws, n - 1)
       case RepeatPulse =>
         n >= 2 && Near(ws[n - 2], HEADER_PULSE) && Near(ws[n - 1], REPEAT_SPACE) && Armed(ws, n - 2)
       case RepeatSpace => BurstEnd(ws, n)
       case DataPulse => n >= 2 + 2 * d.idx && Collected(ws, n - 2 - 2 * d.idx, d)
       case DataSpace =>
         && n >= 3 + 2 * d.idx && d.idx < BITS
         && Collected(ws, n - 3 - 2 * d.idx, d) && Near(ws[n - 1], DATA_PULSE)
  }

  /** A frame began at `a`, and its bits so far are in the word. */
  ghost predicate Collected(ws: seq<nat>, a: nat, d: Decoder)
    requires a <= |ws|
  {
    FramePrefix(ws, a, d.idx) && Armed(ws, a) && d.data == Word(ws, a, d.idx)
  }

  lemma {:induction false} Pow2Grows(j: nat, k: nat)
    requires j <= k
    ensures Pow2(j) <= Pow2(k)
    decreases k
  {
    if j < k {
      Pow2Grows(j, k - 1);
    }
  }

  lemma Pow2Eight(k: nat)
    ensures Pow2(k + 8) == 256 * Pow2(k)
  {
    assert Pow2(k + 4) == 2 * Pow2(k + 3) && Pow2(k + 2) == 2 * Pow2(k + 1);
    assert Pow2(k + 8) == 2 * Pow2(k + 7) && Pow2(k + 6) == 2 * Pow2(k + 5);
  }

  lemma Pow2Of31()
    ensures Pow2(31) == 0x8000_0000 && Pow2(32) == UINT
  {
    Pow2Eight(0);
    Pow2Eight(8);
    Pow2Eight(16);
    Pow2Eight(24);
  }

  /** The shift never loses a bit. */
  lemma ShiftFits(data: nat, idx: nat, bit: nat)
    requires data < Pow2(idx) && idx < BITS && bit <= 1
    ensures ShiftIn(data, bit) == 2 * data + bit < Pow2(idx + 1)
  {
    Pow2Grows(idx, 31);
    Pow2Of31();
  }

  lemma DataStepDescribes(ws: seq<nat>, n: nat, d: Decoder)
    requires n < |ws| && Describes(ws, n, d) && d.phase == DataSpace
    ensures Describes(ws, n + 1, Step(d, ws[n]))
  {
    if ws[n] <= GAP + ERR {
      ShiftFits(d.data, d.idx, 0);
      ShiftFits(d.data, d.idx, 1);
    }
  }

  lemma PulseStepDescribes(ws: seq<nat>, n: nat, d: Decoder)
    requires n < |ws| && Describes(ws, n, d) && d.phase == DataPulse
    ensures Describes(ws, n + 1, Step(d, ws[n]))
  {
  }

  lemma StepDescribes(ws: seq<nat>, n: nat, d: Decoder)
    requires n < |ws| && Describes(ws, n, d)
    ensures Describes(ws, n + 1, Step(d, ws[n]))
  {
    if d.phase == DataSpace {
      DataStepDescribes(ws, n, d);
    } else if d.phase == DataPulse {
      PulseStepDescribes(ws, n, d);
    }
  }

  lemma {:induction false} TraceIsDescribed(ws: seq<nat>, n: nat)
    requires n <= |ws|
    ensures Describes(ws, n, After(BOOT, ws, n))
    decreases n
  {
    if n > 0 {
      TraceIsDescribed(ws, n - 1);
      StepDescribes(ws, n - 1, After(BOOT, ws, n - 1));
    }
  }

  // ---- Completeness ----

  /** Two widths of a frame add a bit. */
  lemma BitIsCollected(d: Decoder, pulse: nat, space: nat)
    requires d.phase == DataPulse && d.idx < BITS && d.data < Pow2(d.idx) && Near(pulse, DATA_PULSE)
    requires Near(space, DATA_1_SPACE) || Near(space, DATA_0_SPACE)
    ensures Step(Step(d, pulse), space)
         == d.(idx := d.idx + 1, data := 2 * d.data + if Near(space, DATA_1_SPACE) then 1 else 0)
  {
    ShiftFits(d.data, d.idx, 0);
    ShiftFits(d.data, d.idx, 1);
  }

  /** The decoder after `k` bits of the frame at `a`, which leave it at `n`. */
  ghost predicate Collecting(d: Decoder, ws: seq<nat>, a: nat, k: nat, n: nat)
    requires n == a + 2 + 2 * k <= |ws|
  {
    After(d, ws, n) == After(d, ws, a).(phase := DataPulse, idx := k, data := Word(ws, a, k), repeat := 0)
  }

  lemma {:induction false} BitsFollow(d: Decoder, ws: seq<nat>, a: nat, k: nat, n: nat)
    requires k <= BITS && n == a + 2 + 2 * k && FramePrefix(ws, a, k) && After(d, ws, a).phase == HeaderPulse
    ensures Collecting(d, ws, a, k, n)
    decreases k
  {
    if k == 0 {
      TwoSteps(d, ws, a);
      HeaderIsTaken(After(d, ws, a), ws[a], ws[a + 1]);
    } else {
      BitsFollow(d, ws, a, k - 1, n - 2);
      assert BitShape(ws, a, k - 1);
      NextBitIsCollected(d, ws, a, k - 1, n - 2);
    }
  }

  /** From any state that waits for a header, the bits of a frame are collected. */
  lemma BitsAreCollected(d: Decoder, ws: seq<nat>, a: nat, k: nat)
    requires k <= BITS && FramePrefix(ws, a, k) && After(d, ws, a).phase == HeaderPulse
    ensures After(d, ws, a + 2 + 2 * k)
         == After(d, ws, a).(phase := DataPulse, idx := k, data := Word(ws, a, k), repeat := 0)
  {
    BitsFollow(d, ws, a, k, a + 2 + 2 * k);
  }

  lemma NextBitIsCollected(d: Decoder, ws: seq<nat>, a: nat, i: nat, n: nat)
    requires i < BITS && n == a + 2 + 2 * i && n + 2 <= |ws| && BitShape(ws, a, i) && Collecting(d, ws, a, i, n)
    ensures Collecting(d, ws, a, i + 1, n + 2)
  {
    TwoSteps(d, ws, n);
    BitIsCollected(After(d, ws, n), ws[n], ws[n + 1]);
  }

  lemma TwoSteps(d: Decoder, ws: seq<nat>, n: nat)
    requires n + 2 <= |ws|
    ensures After(d, ws, n + 2) == Step(Step(After(d, ws, n), ws[n]), ws[n + 1])
  {
    assert After(d, ws, n + 1) == Step(After(d, ws, n), ws[n]);
  }

  lemma HeaderIsTaken(d: Decoder, pulse: nat, space: nat)
    requires d.phase == HeaderPulse && Near(pulse, HEADER_PULSE) && Near(space, HEADER_SPACE)
    ensures Step(Step(d, pulse), space) == d.(phase := DataPulse, idx := 0, data := 0, repeat := 0)
  {
  }

  lemma FrameIsDecoded(d: Decoder, ws: seq<nat>, a: nat)
    requires Frame(ws, a) && After(d, ws, a).phase == HeaderPulse
    ensures var word := Word(ws, a, BITS);
            var e := After(d, ws, a);
            After(d, ws, a + 67)
            == e.(phase := RepeatSpace, idx := BITS, data := word, repeat := 0, dataOk := word, work := e.work + [word])
  {
    BitsAreCollected(d, ws, a, BITS);
  }

  lemma BurstIsSkipped(d: Decoder, ws: seq<nat>, a: nat)
    requires RepeatBurst(ws, a) && After(d, ws, a).phase == HeaderPulse
    ensures After(d, ws, a + 3) == After(d, ws, a).(phase := RepeatSpace)
  {
    assert After(d, ws, a + 1) == Step(After(d, ws, a), ws[a]);
    assert After(d, ws, a + 2) == Step(After(d, ws, a + 1), ws[a + 1]);
  }

  lemma {:induction false} ArmedIsWaiting(ws: seq<nat>, n: nat)
    requires n <= |ws|
    ensures Armed(ws, n) ==> After(BOOT, ws, n).phase == HeaderPulse
    ensures BurstEnd(ws, n) ==> After(BOOT, ws, n).phase == RepeatSpace
    decreases n
  {
    if n > 0 {
      ArmedIsWaiting(ws, n - 1);
    }
    if n >= 67 && FrameAt(ws, n - 67) {
      ArmedIsWaiting(ws, n - 67);
      FrameIsDecoded(BOOT, ws, n - 67);
    }
    if n >= 3 && RepeatBurst(ws, n - 3) && Armed(ws, n - 3) {
      ArmedIsWaiting(ws, n - 3);
      BurstIsSkipped(BOOT, ws, n - 3);
    }
  }

  // ---- The decoder accepts exactly the language ----

  /** On every trace: the decoder waits for a header exactly where a frame may begin,
      and for a gap exactly where a frame or a repeat burst ended. */
  lemma PhasesAreExact(ws: seq<nat>, n: nat)
    requires n <= |ws|
    ensures After(BOOT, ws, n).phase == HeaderPulse <==> Armed(ws, n)
    ensures After(BOOT, ws, n).phase == RepeatSpace <==> BurstEnd(ws, n)
    ensures After(BOOT, ws, n).phase == HeaderSpace <==> n >= 1 && Near(ws[n - 1], HEADER_PULSE) && Armed(ws, n - 1)
  {
    TraceIsDescribed(ws, n);
    ArmedIsWaiting(ws, n);
    if n >= 1 {
      ArmedIsWaiting(ws, n - 1);
    }
  }

  /** On every trace: a word is published exactly at the end of a frame, and it is the
      bits of this frame. At most 32 bits are ever counted. */
  lemma PublishesFrames(ws: seq<nat>, n: nat)
    requires n < |ws|
    ensures var d, e := After(BOOT, ws, n), After(BOOT, ws, n + 1);
            && (d.phase == DataPulse && e.phase == RepeatSpace <==> n >= 66 && FrameAt(ws, n - 66))
            && (n >= 66 && FrameAt(ws, n - 66) ==> e.dataOk == Word(ws, n - 66, BITS))
            && d.idx <= BITS && d.data < Pow2(d.idx)
  {
    TraceIsDescribed(ws, n);
    if n >= 66 && FrameAt(ws, n - 66) {
      ArmedIsWaiting(ws, n - 66);
      BitsAreCollected(BOOT, ws, n - 66, BITS);
    }
  }

  // ---- What work is scheduled ----

  /** Did a frame begin with the last two widths? */
  predicate HeaderEnds(ws: seq<nat>, n: nat)
    requires n <= |ws|
  {
    n >= 2 && Near(ws[n - 1], HEADER_SPACE) && Near(ws[n - 2], HEADER_PULSE) && Armed(ws, n - 2)
  }

  /** Was the last width a gap after a frame or a repeat burst? */
  predicate GapAfterBurst(ws: seq<nat>, n: nat)
    requires n <= |ws|
  {
    n > 0 && RepeatGap(ws[n - 1]) && BurstEnd(ws, n - 1)
  }

  /** The gaps after bursts since a frame last began. */
  function Gaps(ws: seq<nat>, n: nat): nat
    requires n <= |ws|
  {
    if n == 0 then 0
    else if HeaderEnds(ws, n) then 0
    else if GapAfterBurst(ws, n) then Gaps(ws, n - 1) + 1
    else Gaps(ws, n - 1)
  }

  /** The word of the last whole frame, 0 before the first one. */
  function LastWord(ws: seq<nat>, n: nat): nat
    requires n <= |ws|
  {
    if n == 0 then 0
    else if n >= 67 && FrameAt(ws, n - 67) then Word(ws, n - 67, BITS)
    else LastWord(ws, n - 1)
  }

  /** A piece of work for each frame, and for each gap after a burst from the third on. */
  function WorkOf(ws: seq<nat>, n: nat): seq<nat>
    requires n <= |ws|
  {
    if n == 0 then []
    else if n >= 67 && FrameAt(ws, n - 67) then WorkOf(ws, n - 1) + [Word(ws, n - 67, BITS)]
    else if GapAfterBurst(ws, n) && Gaps(ws, n) > SKIP_REPEAT
    then WorkOf(ws, n - 1) + [LastWord(ws, n - 1)]
    else WorkOf(ws, n - 1)
  }

  /** The decoder's account of its work is right after `n` widths. */
  ghost predicate Accounted(ws: seq<nat>, n: nat)
    requires n <= |ws|
  {
    var d := After(BOOT, ws, n);
    d.work == WorkOf(ws, n) && d.dataOk == LastWord(ws, n) && d.repeat == Gaps(ws, n)
  }

  lemma FrameIsAccounted(ws: seq<nat>, n: nat)
    requires 67 <= n <= |ws| && FrameAt(ws, n - 67) && Accounted(ws, n - 1)
    ensures Accounted(ws, n)
  {
    PublishesFrames(ws, n - 1);
    StepSchedules(After(BOOT, ws, n - 1), ws[n - 1]);
    assert Near(ws[n - 67 + 66], DATA_PULSE);
  }

  lemma OtherStep(ws: seq<nat>, n: nat)
    requires 0 < n <= |ws| && !(n >= 67 && FrameAt(ws, n - 67))
    ensures var d, e := After(BOOT, ws, n - 1), After(BOOT, ws, n);
            && e.dataOk == d.dataOk
            && e.repeat == (if HeaderEnds(ws, n) then 0 else if GapAfterBurst(ws, n) then d.repeat + 1 else d.repeat)
            && e.work == if GapAfterBurst(ws, n) && e.repeat > SKIP_REPEAT then d.work + [d.dataOk] else d.work
  {
    var d := After(BOOT, ws, n - 1);
    PhasesAreExact(ws, n - 1);
    PublishesFrames(ws, n - 1);
    StepSchedules(d, ws[n - 1]);
    assert d.phase == HeaderSpace && Near(ws[n - 1], HEADER_SPACE) <==> HeaderEnds(ws, n);
    assert d.phase == RepeatSpace && RepeatGap(ws[n - 1]) <==> GapAfterBurst(ws, n);
  }

  lemma OtherStepIsAccounted(ws: seq<nat>, n: nat)
    requires 0 < n <= |ws| && !(n >= 67 && FrameAt(ws, n - 67)) && Accounted(ws, n - 1)
    ensures Accounted(ws, n)
  {
    OtherStep(ws, n);
    assert Gaps(ws, n) == After(BOOT, ws, n).repeat;
  }

  /** On every trace the decoder schedules just the work that the language tells. */
  lemma {:induction false} WorkIsExact(ws: seq<nat>, n: nat)
    requires n <= |ws|
    ensures var d := After(BOOT, ws, n);
            d.work == WorkOf(ws, n) && d.dataOk == LastWord(ws, n) && d.repeat == Gaps(ws, n)
    decreases n
  {
    if n > 0 {
      WorkIsExact(ws, n - 1);
      if n >= 67 && FrameAt(ws, n - 67) {
        FrameIsAccounted(ws, n);
      } else {
        OtherStepIsAccounted(ws, n);
      }
    }
  }

  /** When a step changes the word, the counter of gaps, or the work. */
  lemma StepSchedules(d: Decoder, w: nat)
    ensures var e := Step(d, w);
            if d.phase == DataPulse && e.phase == RepeatSpace then
              e.dataOk == d.data && e.work == d.work + [e.dataOk] && e.repeat == d.repeat
            else
              && e.dataOk == d.dataOk
              && e.repeat == (if d.phase == HeaderSpace && Near(w, HEADER_SPACE) then 0
                              else if d.phase == RepeatSpace && RepeatGap(w) then d.repeat + 1 else d.repeat)
              && e.work == if d.phase == RepeatSpace && RepeatGap(w) && e.repeat > SKIP_REPEAT
                           then d.work + [d.dataOk] else d.work
  {
  }

  // ---- Any word, from any state ----

  /** A frame whose spaces spell `word`, most significant bit first. */
  predicate Encodes(ws: seq<nat>, a: nat, word: nat) {
    Frame(ws, a) && forall i :: 0 <= i < BITS ==> (IsOne(ws, a, i) <==> word / Pow2(BITS - 1 - i) % 2 == 1)
  }

  lemma HalfThenShift(word: nat, j: nat)
    ensures word / 2 / Pow2(j) == word / Pow2(j + 1)
  {
    var p := Pow2(j);
    var q := word / 2 / p;
    assert word == 2 * (p * q + word / 2 % p) + word % 2;
    assert word == Pow2(j + 1) * q + (2 * (word / 2 % p) + word % 2) by {
      assert 2 * (p * q) == (2 * p) * q;
    }
    QuotientIsUnique(word, Pow2(j + 1), q, 2 * (word / 2 % p) + word % 2);
  }

  lemma AtLeastOnce(d: int, m: int)
    requires d > 0 && m >= 1
    ensures d * m >= d
  {
  }

  lemma QuotientIsUnique(n: nat, d: nat, q: nat, r: nat)
    requires d > 0 && n == d * q + r && r < d
    ensures n / d == q
  {
    var k := n / d - q;
    assert d * k == r - n % d;
    if k >= 1 {
      AtLeastOnce(d, k);
    } else if k <= -1 {
      AtLeastOnce(d, -k);
    }
  }

  lemma {:induction false} BitsSpellWord(ws: seq<nat>, a: nat, k: nat, word: nat)
    requires FramePrefix(ws, a, k) && word < Pow2(k)
    requires forall i :: 0 <= i < k ==> (IsOne(ws, a, i) <==> word / Pow2(k - 1 - i) % 2 == 1)
    ensures Word(ws, a, k) == word
    decreases k
  {
    if k > 0 {
      assert Pow2(0) == 1;
      assert IsOne(ws, a, k - 1) <==> word / Pow2(0) % 2 == 1;
      forall i | 0 <= i < k - 1
        ensures IsOne(ws, a, i) <==> word / 2 / Pow2(k - 1 - 1 - i) % 2 == 1
      {
        HalfThenShift(word, k - 2 - i);
      }
      BitsSpellWord(ws, a, k - 1, word / 2);
    }
  }

  /** From any state of the decoder, a long silence and then any encoding of any
      32-bit word publish this word, as one piece of work. */
  lemma AnyWordIsDecoded(d: Decoder, ws: seq<nat>, word: nat)
    requires |ws| >= 68 && ws[0] > GAP + ERR && Encodes(ws, 1, word) && word < UINT
    ensures var e := After(d, ws, 68);
            e.phase == RepeatSpace && e.dataOk == word && e.work == d.work + [word]
  {
    assert After(d, ws, 1) == Step(After(d, ws, 0), ws[0]);
    FrameIsDecoded(d, ws, 1);
    Pow2Of31();
    BitsSpellWord(ws, 1, BITS, word);
  }

  // ---- A key held down ----

  predicate RepeatTrain(ws: seq<nat>, a: nat, k: nat) {
    a + 4 * k <= |ws| && forall j :: 0 <= j < k ==> RepeatBurst(ws, a + 4 * j) && RepeatGap(ws[a + 4 * j + 3])
  }

  function Copies(word: nat, n: nat): seq<nat> {
    if n == 0 then [] else Copies(word, n - 1) + [word]
  }

  lemma {:induction false} TrainSchedules(d: Decoder, ws: seq<nat>, a: nat, k: nat)
    requires RepeatTrain(ws, a, k) && After(d, ws, a).phase == HeaderPulse && After(d, ws, a).repeat == 1
    ensures var c, e := After(d, ws, a), After(d, ws, a + 4 * k);
            && e.phase == HeaderPulse && e.repeat == k + 1 && e.dataOk == c.dataOk
            && e.work == c.work + Copies(c.dataOk, if k == 0 then 0 else k - 1)
    decreases k
  {
    if k > 0 {
      TrainSchedules(d, ws, a, k - 1);
      var n := a + 4 * (k - 1);
      assert RepeatBurst(ws, n) && RepeatGap(ws[n + 3]);
      BurstIsSkipped(d, ws, n);
      assert After(d, ws, n + 4) == Step(After(d, ws, n + 3), ws[n + 3]);
    }
  }

  /** A key pressed and held for `k` repetitions: its word is produced once, and once
      more for every repetition but the first. */
  lemma HeldKeyRepeats(d: Decoder, ws: seq<nat>, word: nat, k: nat)
    requires |ws| >= 69 && ws[0] > GAP + ERR && Encodes(ws, 1, word) && word < UINT
    requires RepeatGap(ws[68]) && RepeatTrain(ws, 69, k)
    ensures var e := After(d, ws, 69 + 4 * k);
            e.dataOk == word && e.work == d.work + [word] + Copies(word, if k == 0 then 0 else k - 1)
  {
    AnyWordIsDecoded(d, ws, word);
    FrameIsDecoded(After(d, ws, 0), ws, 1);
    assert After(d, ws, 69) == Step(After(d, ws, 68), ws[68]);
    TrainSchedules(d, ws, 69, k);
  }

  const BURST: seq<nat> := [9000, 2300, 510, 40000]

  /** Repetitions need no frame before them: after a silence three of them make the
      decoder schedule work, with the word 0 it was started with. */
  lemma RepetitionsWithoutFrame()
    ensures var ws := [100000] + BURST + BURST + BURST;
            After(BOOT, ws, 13).work == [0] && forall a :: 0 <= a <= 13 ==> !Frame(ws, a)
  {
    var ws := [100000] + BURST + BURST + BURST;
    assert ws[0] == 100000;
    assert After(BOOT, ws, 1) == Step(After(BOOT, ws, 0), ws[0]);
    assert RepeatBurst(ws, 1) && RepeatBurst(ws, 5) && RepeatBurst(ws, 9);
    BurstIsSkipped(BOOT, ws, 1);
    assert After(BOOT, ws, 5) == Step(After(BOOT, ws, 4), ws[4]);
    BurstIsSkipped(BOOT, ws, 5);
    assert After(BOOT, ws, 9) == Step(After(BOOT, ws, 8), ws[8]);
    BurstIsSkipped(BOOT, ws, 9);
    assert After(BOOT, ws, 13) == Step(After(BOOT, ws, 12), ws[12]);
  }

  // ---- From words to keys ----

  const DATA_PRE: nat := 0x20DF

  datatype KeyCode = KeyCode(irCode: nat, key: string)

  /** The second byte of a code is the complement of the first one. */
  predicate Checked(code: nat) {
    code / 256 + code % 256 == 255
  }

  function FirstKeys(i: nat): (k: KeyCode)
    ensures Checked(k.irCode)
  {
    match i
    case 0 => KeyCode(0x10EF, "POWER")
    case 1 => KeyCode(0x0FF0, "RADIO")
    case 2 => KeyCode(0xD02F, "AUX")
    case 3 => KeyCode(0xC23D, "SETUP")
    case 4 => KeyCode(0x9E61, "SCALE")
    case 5 => KeyCode(0x9C63, "SUBTITLE")
    case 6 => KeyCode(0x8877, "NUMERIC_1")
    case 7 => KeyCode(0x48B7, "NUMERIC_2")
    case 8 => KeyCode(0xC837, "NUMERIC_3")
    case 9 => KeyCode(0x28D7, "NUMERIC_4")
    case 10 => KeyCode(0xA857, "NUMERIC_5")
    case 11 => KeyCode(0x6897, "NUMERIC_6")
    case 12 => KeyCode(0xE817, "NUMERIC_7")
    case 13 => KeyCode(0x18E7, "NUMERIC_8")
    case 14 => KeyCode(0x9867, "NUMERIC_9")
    case _ => KeyCode(0xD52A, "PROGRAM")
  }

  function MoreKeys(i: nat): (k: KeyCode)
    ensures Checked(k.irCode)
  {
    match i
    case 0 => KeyCode(0x08F7, "NUMERIC_0")
    case 1 => KeyCode(0x58A7, "PREVIOUS")
    case 2 => KeyCode(0x40BF, "VOLUMEUP")
    case 3 => KeyCode(0x7887, "FAVORITES")
    case 4 => KeyCode(0x00FF, "CHANNELUP")
    case 5 => KeyCode(0x55AA, "INFO")
    case 6 => KeyCode(0xC03F, "VOLUMEDOWN")
    case 7 => KeyCode(0x906F, "MUTE")
    case 8 => KeyCode(0x807F, "CHANNELDOWN")
    case 9 => KeyCode(0xF906, "PROG1")
    case 10 => KeyCode(0x3EC1, "HOME")
    case 11 => KeyCode(0x42BD, "DASHBOARD")
    case 12 => KeyCode(0x04FB, "TEXT")
    case 13 => KeyCode(0x02FD, "UP")
    case 14 => KeyCode(0x847B, "OPTION")
    case _ => KeyCode(0xE01F, "LEFT")
  }

  function LastKeys(i: nat): (k: KeyCode)
    ensures Checked(k.irCode)
  {
    match i
    case 0 => KeyCode(0x22DD, "OK")
    case 1 => KeyCode(0x609F, "RIGHT")
    case 2 => KeyCode(0x14EB, "BACK")
    case 3 => KeyCode(0x827D, "DOWN")
    case 4 => KeyCode(0xDA25, "EXIT")
    case 5 => KeyCode(0x8976, "ADDRESSBOOK")
    case 6 => KeyCode(0xBD42, "RECORD")
    case 7 => KeyCode(0x8D72, "STOP")
    case 8 => KeyCode(0xF10E, "REWIND")
    case 9 => KeyCode(0x0DF2, "PLAY")
    case 10 => KeyCode(0x718E, "FORWARD")
    case 11 => KeyCode(0x5DA2, "PAUSE")
    case 12 => KeyCode(0x4EB1, "RED")
    case 13 => KeyCode(0x8E71, "GREEN")
    case 14 => KeyCode(0xC639, "YELLOW")
    case _ => KeyCode(0x8679, "BLUE")
  }

  function KeyAt(i: nat): (k: KeyCode)
    ensures Checked(k.irCode)
  {
    if i < 16 then FirstKeys(i) else if i < 32 then MoreKeys(i - 16) else LastKeys(i - 32)
  }

  function KeyTable(): (table: seq<KeyCode>)
    ensures |table| == 48
  {
    seq(48, i requires 0 <= i < 48 => KeyAt(i))
  }

  ghost predicate FirstEntry(i: nat, code: nat, key: string) {
    && i < |KeyTable()| && KeyTable()[i] == KeyCode(code, key)
    && forall j :: 0 <= j < i ==> KeyTable()[j].irCode != code
  }

  /** The key of a word: that of the first entry with its low half, if its high half
      is the prefix of this remote control. */
  method Produce(word: nat) returns (key: Option<string>)
    requires word < UINT
    ensures key.Some? ==> word / 0x1_0000 == 0x20DF
    ensures key.Some? ==> exists i :: 0 <= i < |KeyTable()| && FirstEntry(i, word % 0x1_0000, key.value)
    ensures key.None? && word / 0x1_0000 == 0x20DF ==>
              forall i :: 0 <= i < |KeyTable()| ==> KeyTable()[i].irCode != word % 0x1_0000
  {
    key := None;
    if word / 0x1_0000 == DATA_PRE {
      var code := word % 0x1_0000;
      var table := KeyTable();
      for i := 0 to |table|
        invariant forall j :: 0 <= j < i ==> table[j].irCode != code
      {
        if code == table[i].irCode {
          assert FirstEntry(i, code, table[i].key);
          return Some(table[i].key);
        }
      }
    }
  }
}
