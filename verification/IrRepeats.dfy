/** Which key a held button repeats. The decoder counts the gaps after bursts since a
    frame last began, but keeps the word of the frame that was last received whole. */
module IrRepeats {
  import opened Options
  import opened IrDecoder

  // ---- Repetitions without any frame ----

  lemma {:induction false} NoFrameNoWord(ws: seq<nat>, n: nat)
    requires n <= |ws| && forall a: nat :: a + 67 <= n ==> !FrameAt(ws, a)
    ensures LastWord(ws, n) == 0 && forall i :: 0 <= i < |WorkOf(ws, n)| ==> WorkOf(ws, n)[i] == 0
    decreases n
  {
    if n > 0 {
      NoFrameNoWord(ws, n - 1);
    }
  }

  /** Never more than two gaps followed a burst without a frame beginning in between. */
  ghost predicate FewGaps(ws: seq<nat>, n: nat)
    requires n <= |ws|
  {
    forall m: nat :: m <= n ==> Gaps(ws, m) <= SKIP_REPEAT
  }

  lemma FewMoreGaps(ws: seq<nat>, n: nat)
    requires 0 < n <= |ws|
    ensures FewGaps(ws, n) <==> FewGaps(ws, n - 1) && Gaps(ws, n) <= SKIP_REPEAT
  {
    if FewGaps(ws, n - 1) && Gaps(ws, n) <= SKIP_REPEAT {
      forall m: nat | m <= n
        ensures Gaps(ws, m) <= SKIP_REPEAT
      {
        assert m == n || m <= n - 1;
      }
    }
  }

  lemma {:induction false} NoFrameWork(ws: seq<nat>, n: nat)
    requires n <= |ws| && forall a: nat :: a + 67 <= n ==> !FrameAt(ws, a)
    ensures WorkOf(ws, n) == [] <==> FewGaps(ws, n)
    decreases n
  {
    if n > 0 {
      NoFrameWork(ws, n - 1);
      FewMoreGaps(ws, n);
      if FewGaps(ws, n - 1) {
        assert Gaps(ws, n - 1) <= SKIP_REPEAT;
      }
    }
  }

  /** As long as no whole frame was received, work is scheduled exactly if more than two
      gaps followed a burst without a frame beginning in between, and it is for the
      word 0 then. */
  lemma RepeatsWithoutFrameIff(ws: seq<nat>, n: nat)
    requires n <= |ws| && forall a: nat :: a + 67 <= n ==> !FrameAt(ws, a)
    ensures var work := After(BOOT, ws, n).work;
            && (work == [] <==> FewGaps(ws, n))
            && forall i :: 0 <= i < |work| ==> work[i] == 0
  {
    WorkIsExact(ws, n);
    NoFrameNoWord(ws, n);
    NoFrameWork(ws, n);
  }

  // ---- The frame that began last, and the one received last ----

  /** A header at a place where a frame may begin. */
  predicate Begins(ws: seq<nat>, a: nat)
    requires a <= |ws|
  {
    a + 2 <= |ws| && Armed(ws, a) && Near(ws[a], HEADER_PULSE) && Near(ws[a + 1], HEADER_SPACE)
  }

  function LastBegun(ws: seq<nat>, n: nat): (a: Option<nat>)
    requires n <= |ws|
    ensures a.Some? ==> a.value + 2 <= n && Begins(ws, a.value)
    ensures forall b: nat :: b + 2 <= n && Begins(ws, b) ==> a.Some? && b <= a.value
  {
    if n < 2 then None
    else if Begins(ws, n - 2) then Some(n - 2)
    else LastBegun(ws, n - 1)
  }

  function LastWhole(ws: seq<nat>, n: nat): (a: Option<nat>)
    requires n <= |ws|
    ensures a.Some? ==> a.value + 67 <= n && FrameAt(ws, a.value)
    ensures forall b: nat :: b + 67 <= n && FrameAt(ws, b) ==> a.Some? && b <= a.value
  {
    if n < 67 then None
    else if FrameAt(ws, n - 67) then Some(n - 67)
    else LastWhole(ws, n - 1)
  }

  lemma {:induction false} LastWordIsOfLastWhole(ws: seq<nat>, n: nat)
    requires n <= |ws|
    ensures var a := LastWhole(ws, n);
            LastWord(ws, n) == if a.Some? then Word(ws, a.value, BITS) else 0
    decreases n
  {
    if n > 0 {
      LastWordIsOfLastWhole(ws, n - 1);
    }
  }

  lemma FrameWidthsAreShort(ws: seq<nat>, a: nat, i: nat)
    requires Frame(ws, a) && i < 67
    ensures ws[a + i] <= HEADER_PULSE + ERR
  {
    if 2 <= i < 66 {
      var k := (i - 2) / 2;
      assert BitShape(ws, a, k) && (i == 2 + 2 * k || i == 3 + 2 * k);
    }
  }

  /** All widths of a frame are too short for another one to begin inside it. */
  lemma NothingBeginsInside(ws: seq<nat>, a: nat, b: nat)
    requires Frame(ws, a) && a < b <= |ws| && Begins(ws, b)
    ensures a + 67 <= b
  {
    if b < a + 67 {
      FrameWidthsAreShort(ws, a, b - 1 - a);
    }
  }

  /** The word that a repetition carries is that of the frame that began last if and
      only if this frame was received whole. Otherwise it is the word of an older
      frame, that was over when this one began, or 0 if there was none. */
  lemma RepeatsLastFrameIff(ws: seq<nat>, n: nat)
    requires n <= |ws|
    ensures var begun, whole := LastBegun(ws, n), LastWhole(ws, n);
            && (whole.Some? && whole == begun <==> begun.Some? && begun.value + 67 <= n && Frame(ws, begun.value))
            && (whole.Some? && whole != begun ==> begun.Some? && whole.value + 67 <= begun.value)
            && LastWord(ws, n) == if whole.Some? then Word(ws, whole.value, BITS) else 0
  {
    var begun, whole := LastBegun(ws, n), LastWhole(ws, n);
    LastWordIsOfLastWhole(ws, n);
    if whole.Some? {
      assert Begins(ws, whole.value);
      if whole != begun {
        NothingBeginsInside(ws, whole.value, begun.value);
      }
    }
    if begun.Some? && begun.value + 67 <= n && Frame(ws, begun.value) {
      assert FrameAt(ws, begun.value);
      assert whole.Some? && begun.value <= whole.value;
    }
  }

  /** On every trace: what a gap adds to the work when it is the third after a burst, or
      a later one, since a frame last began. */
  lemma RepeatWorkIsOfLastFrameIff(ws: seq<nat>, n: nat)
    requires 0 < n <= |ws| && GapAfterBurst(ws, n) && Gaps(ws, n) > SKIP_REPEAT
    ensures var begun, whole := LastBegun(ws, n - 1), LastWhole(ws, n - 1);
            var word := if whole.Some? then Word(ws, whole.value, BITS) else 0;
            && After(BOOT, ws, n).work == After(BOOT, ws, n - 1).work + [word]
            && (whole.Some? && whole == begun
                <==> begun.Some? && begun.value + 67 <= n - 1 && Frame(ws, begun.value))
            && (whole.Some? && whole != begun ==> begun.Some? && whole.value + 67 <= begun.value)
  {
    RepeatsLastFrameIff(ws, n - 1);
    WorkIsExact(ws, n);
    WorkIsExact(ws, n - 1);
    assert n >= 67 ==> !FrameAt(ws, n - 67);
  }

  // ---- Every word can be sent ----

  predicate BitSet(word: nat, j: nat) {
    word / Pow2(j) % 2 == 1
  }

  /** The widths of the frame of a word, without tolerance. */
  function NominalWidth(word: nat, i: nat): nat
    requires i < 67
  {
    if i == 0 then HEADER_PULSE
    else if i == 1 then HEADER_SPACE
    else if i % 2 == 0 then DATA_PULSE
    else if BitSet(word, 31 - (i - 3) / 2) then DATA_1_SPACE
    else DATA_0_SPACE
  }

  function FrameOf(word: nat): (f: seq<nat>)
    ensures |f| == 67 && forall i :: 0 <= i < 67 ==> f[i] == NominalWidth(word, i)
  {
    seq(67, i requires 0 <= i < 67 => NominalWidth(word, i))
  }

  lemma BitWidths(word: nat, i: nat)
    requires i < BITS
    ensures NominalWidth(word, 2 + 2 * i) == DATA_PULSE
    ensures NominalWidth(word, 3 + 2 * i) == if BitSet(word, BITS - 1 - i) then DATA_1_SPACE else DATA_0_SPACE
  {
    assert (2 + 2 * i) % 2 == 0 && (3 + 2 * i) % 2 == 1 && (3 + 2 * i - 3) / 2 == i;
  }

  lemma FrameOfEncodes(word: nat)
    ensures Encodes(FrameOf(word), 0, word)
  {
    var f := FrameOf(word);
    forall i | 0 <= i < BITS
      ensures BitShape(f, 0, i) && (IsOne(f, 0, i) <==> BitSet(word, BITS - 1 - i))
    {
      BitWidths(word, i);
    }
    assert f[0] == NominalWidth(word, 0) && f[1] == NominalWidth(word, 1);
    assert NominalWidth(word, 66) == DATA_PULSE;
  }

  lemma EncodedAnywhere(before: seq<nat>, f: seq<nat>, after: seq<nat>, word: nat)
    requires |f| == 67 && Encodes(f, 0, word)
    ensures Encodes(before + f + after, |before|, word)
  {
    var ws, a := before + f + after, |before|;
    forall i | 0 <= i < 67
      ensures ws[a + i] == f[i]
    {
    }
    assert ws[a + 0] == f[0] && ws[a + 1] == f[1] && ws[a + 66] == f[66];
    forall i | 0 <= i < BITS
      ensures BitShape(ws, a, i) && IsOne(ws, a, i) == IsOne(f, 0, i)
    {
      assert BitShape(f, 0, i);
      assert ws[a + (2 + 2 * i)] == f[2 + 2 * i] && ws[a + (3 + 2 * i)] == f[3 + 2 * i];
    }
  }

  /** Every word has a frame that encodes it, wherever it stands in a trace. */
  lemma EveryWordIsEncoded(before: seq<nat>, word: nat, after: seq<nat>)
    ensures Encodes(before + FrameOf(word) + after, |before|, word)
  {
    FrameOfEncodes(word);
    EncodedAnywhere(before, FrameOf(word), after, word);
  }

  // ---- A garbled frame ----

  lemma {:induction false} AfterConcat(d: Decoder, a: seq<nat>, b: seq<nat>, n: nat)
    requires n <= |b|
    ensures After(d, a + b, |a| + n) == After(After(d, a, |a|), b, n)
    decreases n
  {
    if n == 0 {
      Extend(d, a, b, |a|);
    } else {
      AfterConcat(d, a, b, n - 1);
    }
  }

  /** A frame of which only the header comes through, then a silence and three bursts */
  function GarbledAndHeld(): seq<nat> {
    [100000, 9000, 4500, 100000,
     9000, 2300, 510, 40000, 9000, 2300, 510, 40000, 9000, 2300, 510, 40000]
  }

  lemma GarbledHeader(d: Decoder)
    ensures After(d, GarbledAndHeld(), 4) == d.(phase := HeaderPulse, idx := 0, data := 0, repeat := 0)
  {
    var ws := GarbledAndHeld();
    var d1 := Step(d, 100000);
    assert After(d, ws, 0) == d && After(d, ws, 1) == d1;
    var d2 := Step(d1, 9000);
    assert After(d, ws, 2) == d2;
    var d3 := Step(d2, 4500);
    assert After(d, ws, 3) == d3;
  }

  predicate HeldAt(ws: seq<nat>, a: nat) {
    a + 4 <= |ws| && RepeatBurst(ws, a) && RepeatGap(ws[a + 3])
  }

  lemma GarbledIsHeld()
    ensures HeldAt(GarbledAndHeld(), 4) && HeldAt(GarbledAndHeld(), 8) && HeldAt(GarbledAndHeld(), 12)
  {
  }

  lemma HeldThrice(d: Decoder, ws: seq<nat>, a: nat)
    requires HeldAt(ws, a) && HeldAt(ws, a + 4) && HeldAt(ws, a + 8)
    requires After(d, ws, a).phase == HeaderPulse && After(d, ws, a).repeat == 0
    ensures var c, e := After(d, ws, a), After(d, ws, a + 12);
            e.work == c.work + [c.dataOk]
  {
    HeldBurst(d, ws, a);
    HeldBurst(d, ws, a + 4);
    HeldBurst(d, ws, a + 8);
  }

  lemma GarbledThenRepeated(d: Decoder)
    ensures After(d, GarbledAndHeld(), 16).work == d.work + [d.dataOk]
  {
    GarbledHeader(d);
    GarbledIsHeld();
    HeldThrice(d, GarbledAndHeld(), 4);
  }

  lemma HeldBurst(d: Decoder, ws: seq<nat>, a: nat)
    requires HeldAt(ws, a) && After(d, ws, a).phase == HeaderPulse
    ensures var c := After(d, ws, a);
            After(d, ws, a + 4)
            == c.(repeat := c.repeat + 1, work := if c.repeat + 1 > SKIP_REPEAT then c.work + [c.dataOk] else c.work)
  {
    BurstIsSkipped(d, ws, a);
    assert After(d, ws, a + 4) == Step(After(d, ws, a + 3), ws[a + 3]);
  }

  /** For every word: its frame, then a frame of another key that is garbled, and that
      key held down. The third repetition produces the first key again. */
  lemma GarbledFrameRepeatsOldKey(d: Decoder, word: nat)
    requires word < UINT
    ensures var ws := [100000] + FrameOf(word) + GarbledAndHeld();
            After(d, ws, |ws|).work == d.work + [word, word]
  {
    var first := [100000] + FrameOf(word);
    EveryWordIsEncoded([100000], word, []);
    assert first + [] == first;
    AnyWordIsDecoded(d, first, word);
    AfterConcat(d, first, GarbledAndHeld(), 16);
    GarbledThenRepeated(After(d, first, 68));
    assert d.work + [word] + [word] == d.work + [word, word];
  }
}
