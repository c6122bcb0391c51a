/** The remote control as it is sold: the widths of its signal in microseconds, and the
    words of its keys. Here the decoder is held against numbers, not names. */
module RemoteControl {
  import opened Options
  import opened IrDecoder

  predicate Between(lo: nat, w: nat, hi: nat) {
    lo <= w <= hi
  }

  predicate IsBit(word: nat, i: nat)
    requires i < 32
  {
    word / Pow2(31 - i) % 2 == 1
  }

  /** A pulse of about 510, and a space of about 1750 for a 1 and of about 600 for a 0 */
  predicate BitSent(ws: seq<nat>, a: nat, word: nat, i: nat)
    requires i < 32 && a + 4 + 2 * i <= |ws|
  {
    && Between(410, ws[a + 2 + 2 * i], 610)
    && if IsBit(word, i) then Between(1650, ws[a + 3 + 2 * i], 1850) else Between(500, ws[a + 3 + 2 * i], 700)
  }

  /** The word as it is sent from `a` on: a header, 32 bits, the most significant
      first, and a last pulse. */
  predicate WordSent(ws: seq<nat>, a: nat, word: nat) {
    && a + 67 <= |ws|
    && Between(8900, ws[a], 9100) && Between(4400, ws[a + 1], 4600) && Between(410, ws[a + 66], 610)
    && forall i :: 0 <= i < 32 ==> BitSent(ws, a, word, i)
  }

  /** What a held key sends instead of its word */
  predicate RepeatSent(ws: seq<nat>, a: nat) {
    && a + 3 <= |ws|
    && Between(8900, ws[a], 9100) && Between(2200, ws[a + 1], 2400) && Between(410, ws[a + 2], 610)
  }

  lemma BitIsSentIff(ws: seq<nat>, a: nat, word: nat, i: nat)
    requires i < 32 && a + 4 + 2 * i <= |ws|
    ensures BitSent(ws, a, word, i) <==> BitShape(ws, a, i) && (IsOne(ws, a, i) <==> word / Pow2(BITS - 1 - i) % 2 == 1)
  {
  }

  /** The language of frames is the signal of the remote control, width by width. */
  lemma WordIsSentIff(ws: seq<nat>, a: nat, word: nat)
    ensures WordSent(ws, a, word) <==> Encodes(ws, a, word)
  {
    if a + 67 <= |ws| {
      forall i | 0 <= i < 32
        ensures BitSent(ws, a, word, i)
                <==> BitShape(ws, a, i) && (IsOne(ws, a, i) <==> word / Pow2(BITS - 1 - i) % 2 == 1)
      {
        BitIsSentIff(ws, a, word, i);
      }
    }
  }

  /** And so are the repeat bursts, and the gaps in front of them. */
  lemma RepeatIsSentIff(ws: seq<nat>, a: nat)
    ensures RepeatSent(ws, a) <==> RepeatBurst(ws, a)
    ensures a < |ws| ==> (RepeatGap(ws[a]) <==> Between(9101, ws[a], 96500))
  {
  }

  /** From any state of the decoder: a silence of more than 96.5 ms, and then the signal
      of any 32-bit word. The decoder publishes this word, once. */
  lemma SentWordIsDecoded(d: Decoder, ws: seq<nat>, word: nat)
    requires |ws| >= 68 && word < 0x1_0000_0000 && ws[0] > 96500 && WordSent(ws, 1, word)
    ensures var e := After(d, ws, 68);
            e.dataOk == word && e.work == d.work + [word] && e.phase == RepeatSpace
  {
    WordIsSentIff(ws, 1, word);
    AnyWordIsDecoded(d, ws, word);
  }

  /** The same with a key that is held: after a gap of 9.1 to 96.5 ms come `k` repeat
      bursts, each followed by such a gap. The first of them produces nothing. */
  lemma HeldKeyIsDecoded(d: Decoder, ws: seq<nat>, word: nat, k: nat)
    requires |ws| >= 69 + 4 * k && word < 0x1_0000_0000 && ws[0] > 96500 && WordSent(ws, 1, word)
    requires Between(9101, ws[68], 96500)
    requires forall j :: 0 <= j < k ==> RepeatSent(ws, 69 + 4 * j) && Between(9101, ws[72 + 4 * j], 96500)
    ensures var e := After(d, ws, 69 + 4 * k);
            e.dataOk == word && e.work == d.work + [word] + Copies(word, if k == 0 then 0 else k - 1)
  {
    WordIsSentIff(ws, 1, word);
    RepeatIsSentIff(ws, 68);
    forall j | 0 <= j < k
      ensures RepeatBurst(ws, 69 + 4 * j) && RepeatGap(ws[69 + 4 * j + 3])
    {
      assert RepeatSent(ws, 69 + 4 * j) && Between(9101, ws[72 + 4 * j], 96500);
      RepeatIsSentIff(ws, 69 + 4 * j);
    }
    HeldKeyRepeats(d, ws, word, k);
  }

  /** Any width outside these windows stops the decoding of a word: on every trace from
      power-on, a word is published only for a signal of this word, after a silence of
      more than 9.1 ms. */
  lemma OnlySentWordsAreDecoded(ws: seq<nat>, n: nat)
    requires n < |ws| && After(BOOT, ws, n).phase == DataPulse && After(BOOT, ws, n + 1).phase == RepeatSpace
    ensures n >= 67 && ws[n - 67] > 9100 && WordSent(ws, n - 66, After(BOOT, ws, n + 1).dataOk)
  {
    PublishesFrames(ws, n);
    var a := n - 66;
    var word := Word(ws, a, BITS);
    Pow2Of31();
    forall i | 0 <= i < 32
      ensures IsOne(ws, a, i) <==> word / Pow2(BITS - 1 - i) % 2 == 1
    {
      WordIsSpelt(ws, a, BITS, i);
    }
    WordIsSentIff(ws, a, word);
  }

  lemma LastBitIsSpelt(ws: seq<nat>, a: nat, k: nat)
    requires 0 < k && FramePrefix(ws, a, k)
    ensures Word(ws, a, k) / 2 == Word(ws, a, k - 1)
    ensures IsOne(ws, a, k - 1) <==> Word(ws, a, k) / Pow2(0) % 2 == 1
  {
    assert Pow2(0) == 1;
  }

  /** The bits of a frame are those of the word collected from it. */
  lemma {:induction false} WordIsSpelt(ws: seq<nat>, a: nat, k: nat, i: nat)
    requires i < k && FramePrefix(ws, a, k)
    ensures IsOne(ws, a, i) <==> Word(ws, a, k) / Pow2(k - 1 - i) % 2 == 1
    decreases k
  {
    LastBitIsSpelt(ws, a, k);
    if i < k - 1 {
      WordIsSpelt(ws, a, k - 1, i);
      HalfThenShift(Word(ws, a, k), k - 2 - i);
    }
  }

  // ---- Keys ----

  /** The first half of a word names the remote control, the second half a key. */
  ghost predicate Means(word: nat, key: string) {
    word / 0x1_0000 == 0x20DF && exists i :: 0 <= i < |KeyTable()| && KeyTable()[i] == KeyCode(word % 0x1_0000, key)
  }

  /** Words that mean something differ in both of their last two bytes, so that no error
      in one byte turns a key into another one. */
  lemma KeysDifferInTwoBytes(word: nat, key: string, other: nat, otherKey: string)
    requires Means(word, key) && Means(other, otherKey) && word != other
    ensures word / 256 != other / 256 && word % 256 != other % 256
  {
    MeantIsChecked(word, key);
    MeantIsChecked(other, otherKey);
    TwoBytes(word);
    TwoBytes(other);
  }

  lemma MeantIsChecked(word: nat, key: string)
    requires Means(word, key)
    ensures Checked(word % 0x1_0000)
  {
    var i :| 0 <= i < |KeyTable()| && KeyTable()[i] == KeyCode(word % 0x1_0000, key);
    assert KeyTable()[i] == KeyAt(i);
  }

  lemma TwoBytes(word: nat)
    ensures word % 0x1_0000 / 256 == word / 256 - word / 0x1_0000 * 256
    ensures word % 0x1_0000 % 256 == word % 256
  {
  }

  /** The words of the first two keys; their complements mean nothing. */
  lemma PowerAndRadio(key: string)
    ensures FirstEntry(0, 0x20DF10EF % 0x1_0000, "POWER") && Means(0x20DF10EF, "POWER")
    ensures FirstEntry(1, 0x20DF0FF0 % 0x1_0000, "RADIO") && Means(0x20DF0FF0, "RADIO")
    ensures !Means(0xDF20EF10, key) && !Means(0xDF20F00F, key)
  {
    assert KeyTable()[0] == KeyCode(0x10EF, "POWER") && KeyTable()[1] == KeyCode(0x0FF0, "RADIO");
  }
}
