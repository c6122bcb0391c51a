/** The interrupt of the infrared receiver: every edge of the signal becomes a pulse or a
    space for the noise filter, as long as the time since the edge before. Which level
    means a pulse is the sense; a long pause can only be a space, and corrects it. */
module EdgeDriver {
  import opened NoiseFilter
  import opened Sequences

  // ---- One edge ----

  /** The level after an edge, and its time */
  datatype Edge = Edge(signal: int, sec: int, usec: int)

  /** What the driver takes for the edge before the first one */
  const EPOCH := Edge(0, 0, 0)

  predicate Possible(e: Edge) {
    0 <= e.signal <= 1 && 0 <= e.usec < 1000000
  }

  /** Microseconds from one edge to the next, negative if the clock went back */
  function Elapsed(last: Edge, e: Edge): int {
    1000000 * (e.sec - last.sec) + e.usec - last.usec
  }

  predicate LongPause(last: Edge, e: Edge) {
    Elapsed(last, e) >= 0 && e.sec - last.sec > 15
  }

  /** The sample of an edge `elapsed` microseconds after the last one, which was
      `seconds` before on the clock; `pulse` says which of both the level means.
      A clock that went back counts as the longest time, and so does a long pause,
      which is a space for sure. No edge is shorter than the pause before it. */
  function EdgeSample(pulse: bool, elapsed: int, seconds: int): (s: Sample)
    requires elapsed < (seconds + 1) * 1000000
    ensures s.width <= 0xFF_FFFF
    ensures 0 <= elapsed ==> s.width >= if elapsed < 0xFF_FFFF then elapsed else 0xFF_FFFF
    ensures 0 <= elapsed && seconds <= 15 ==> s.width == elapsed && s.Pulse? == pulse
    ensures 0 <= elapsed && seconds > 15 ==> s == Space(0xFF_FFFF)
    ensures elapsed < 0 ==> s.width == 0xFF_FFFF && s.Pulse? == pulse
  {
    if elapsed < 0 then (if pulse then Pulse(PULSE_MASK) else Space(PULSE_MASK))
    else if seconds > 15 then Space(PULSE_MASK)
    else if pulse then Pulse(elapsed) else Space(elapsed)
  }

  function SampleOf(sense: int, last: Edge, e: Edge): Sample
    requires Possible(last) && Possible(e)
  {
    EdgeSample(e.signal == sense, Elapsed(last, e), e.sec - last.sec)
  }

  function SenseAfter(sense: int, last: Edge, e: Edge): int {
    if LongPause(last, e) then 1 - e.signal else sense
  }

  // ---- Any number of edges ----

  predicate AllPossible(edges: seq<Edge>) {
    forall i :: 0 <= i < |edges| ==> Possible(edges[i])
  }

  function Last(last: Edge, edges: seq<Edge>): (e: Edge)
    requires Possible(last) && AllPossible(edges)
    ensures Possible(e)
  {
    if edges == [] then last else edges[|edges| - 1]
  }

  function Sense(sense: int, last: Edge, edges: seq<Edge>): int
    requires Possible(last) && AllPossible(edges)
  {
    if edges == [] then sense
    else
      var front := edges[..|edges| - 1];
      SenseAfter(Sense(sense, last, front), Last(last, front), edges[|edges| - 1])
  }

  function Samples(sense: int, last: Edge, edges: seq<Edge>): (samples: seq<Sample>)
    requires Possible(last) && AllPossible(edges)
    ensures |samples| == |edges|
  {
    if edges == [] then []
    else
      var front := edges[..|edges| - 1];
      Samples(sense, last, front) + [SampleOf(Sense(sense, last, front), Last(last, front), edges[|edges| - 1])]
  }

  lemma {:induction false} RunAppended(f: Filter, input: seq<Sample>, s: Sample)
    ensures Run(f, input + [s]) == Step(Run(f, input), s)
    decreases |input|
  {
    if input == [] {
      assert ([] + [s])[1..] == [];
    } else {
      assert (input + [s])[1..] == input[1..] + [s];
      RunAppended(Step(f, input[0]), input[1..], s);
    }
  }

  lemma OneMoreEdge(sense: int, last: Edge, edges: seq<Edge>, e: Edge)
    requires Possible(last) && AllPossible(edges) && Possible(e)
    ensures var more, now := edges + [e], Sense(sense, last, edges);
            && AllPossible(more) && Last(last, more) == e
            && Sense(sense, last, more) == SenseAfter(now, Last(last, edges), e)
            && Run(START, Samples(sense, last, more))
               == Step(Run(START, Samples(sense, last, edges)), SampleOf(now, Last(last, edges), e))
  {
    assert (edges + [e])[..|edges|] == edges;
    RunAppended(START, Samples(sense, last, edges), SampleOf(Sense(sense, last, edges), Last(last, edges), e));
  }

  class Driver {
    const filter: NoiseFilter
    var sense: int      // the level that means a pulse, -1 while it is not known
    var lastSec: int
    var lastUsec: int
    ghost const firstSense: int
    ghost var edges: seq<Edge>

    constructor (sense: int)
      requires -1 <= sense <= 1
      ensures Valid() && fresh(filter) && filter.Model() == START
      ensures this.sense == firstSense == sense && edges == []
    {
      filter := new NoiseFilter();
      this.sense, lastSec, lastUsec := sense, 0, 0;
      firstSense, edges := sense, [];
    }

    /** The filter has seen the samples of all edges since the clock's beginning. */
    ghost predicate Valid()
      reads this, filter
    {
      && filter.Valid() && -1 <= sense <= 1 && 0 <= lastUsec < 1000000 && AllPossible(edges)
      && (firstSense == -1 ==> sense == -1)
      && (firstSense != -1 ==>
            && sense != -1 && sense == Sense(firstSense, EPOCH, edges)
            && lastSec == Last(EPOCH, edges).sec && lastUsec == Last(EPOCH, edges).usec
            && filter.Model() == Run(START, Samples(firstSense, EPOCH, edges)))
    }

    /** An edge to level `signal`. The sense is turned round when it would make a
        pulse of a long pause. */
    method IrqHandler(signal: int, sec: int, usec: int)
      requires Valid() && Possible(Edge(signal, sec, usec))
      modifies this, filter
      ensures Valid() && edges == old(edges) + [Edge(signal, sec, usec)]
      ensures old(sense) == -1 ==> sense == -1 && filter.Model() == old(filter.Model())
      ensures old(sense) != -1 ==>
                var elapsed := 1000000 * (sec - old(lastSec)) + usec - old(lastUsec);
                && filter.Model() == Step(old(filter.Model()),
                                          EdgeSample(signal == old(sense), elapsed, sec - old(lastSec)))
                && sense == (if elapsed >= 0 && sec - old(lastSec) > 15 then 1 - signal else old(sense))
                && lastSec == sec && lastUsec == usec
    {
      ghost var before, e := edges, Edge(signal, sec, usec);
      edges := before + [e];
      if sense != -1 {
        ghost var last := Last(EPOCH, before);
        assert Elapsed(last, e) == 1000000 * (sec - lastSec) + usec - lastUsec;
        TakeEdge(signal, sec, usec);
        assert filter.Model() == Step(old(filter.Model()), SampleOf(old(sense), last, e));
        OneMoreEdge(firstSense, EPOCH, before, e);
      }
    }

    /** The same while the sense is known. */
    method TakeEdge(signal: int, sec: int, usec: int)
      requires filter.Valid() && 0 <= sense <= 1 && 0 <= lastUsec < 1000000 && Possible(Edge(signal, sec, usec))
      modifies this`sense, this`lastSec, this`lastUsec, filter
      ensures filter.Valid() && lastSec == sec && lastUsec == usec
      ensures var elapsed := 1000000 * (sec - old(lastSec)) + usec - old(lastUsec);
              && filter.Model() == Step(old(filter.Model()),
                                        EdgeSample(signal == old(sense), elapsed, sec - old(lastSec)))
              && sense == (if elapsed >= 0 && sec - old(lastSec) > 15 then 1 - signal else old(sense))
    {
      var deltv := sec - lastSec;
      var data: nat;
      if sec < lastSec || (sec == lastSec && usec < lastUsec) {
        data := PULSE_MASK;
      } else if deltv > 15 {
        data := PULSE_MASK;
        if signal == sense {
          sense := if sense != 0 then 0 else 1;
        }
      } else {
        data := deltv * 1000000 + (usec - lastUsec);
      }
      filter.Frbwrite(if signal != sense then data else WithPulseBit(data));
      lastSec, lastUsec := sec, usec;
    }
  }

  // ---- What the filter is fed ----

  /** Every edge goes to the other level. */
  predicate LevelsAlternate(edges: seq<Edge>) {
    forall i :: 0 < i < |edges| ==> edges[i - 1].signal != edges[i].signal
  }

  /** A long pause seems to be a pulse: the sense was wrong. */
  predicate TurnsAt(sense: int, last: Edge, edges: seq<Edge>, i: nat)
    requires Possible(last) && AllPossible(edges) && i < |edges|
  {
    LongPause(Last(last, edges[..i]), edges[i]) && edges[i].signal == Sense(sense, last, edges[..i])
  }

  /** The last sample is a pulse exactly if the level after its edge now means one. */
  lemma LastSampleFitsSense(sense: int, last: Edge, edges: seq<Edge>)
    requires Possible(last) && AllPossible(edges) && edges != []
    ensures var n := |edges| - 1;
            Samples(sense, last, edges)[n].Pulse? <==> edges[n].signal == Sense(sense, last, edges)
  {
  }

  lemma SenseIsLevel(sense: int, last: Edge, edges: seq<Edge>)
    requires Possible(last) && AllPossible(edges) && 0 <= sense <= 1
    ensures 0 <= Sense(sense, last, edges) <= 1
  {
  }

  /** Two samples in a row are of different kinds unless the second one turns the sense. */
  lemma NeighboursDifferIff(sense: int, last: Edge, edges: seq<Edge>)
    requires Possible(last) && AllPossible(edges) && 0 <= sense <= 1 && LevelsAlternate(edges) && |edges| >= 2
    ensures var n := |edges| - 1;
            var samples := Samples(sense, last, edges);
            samples[n - 1].Pulse? != samples[n].Pulse? <==> !TurnsAt(sense, last, edges, n)
  {
    var n := |edges| - 1;
    var front := edges[..n];
    LastSampleFitsSense(sense, last, front);
    SenseIsLevel(sense, last, front);
    assert edges[n - 1] == front[n - 1] && Possible(edges[n]);
  }

  lemma TurnsInFront(sense: int, last: Edge, edges: seq<Edge>, i: nat)
    requires Possible(last) && AllPossible(edges) && i + 1 < |edges|
    ensures TurnsAt(sense, last, edges, i) == TurnsAt(sense, last, edges[..|edges| - 1], i)
  {
    assert edges[..|edges| - 1][..i] == edges[..i];
  }

  /** For every signal that changes its level with every edge, whatever its clock does:
      the filter is fed pulses and spaces in turn, exactly if no long pause but the first
      edge turns the sense. */
  lemma {:induction false} AlternatesIff(sense: int, last: Edge, edges: seq<Edge>)
    requires Possible(last) && AllPossible(edges) && 0 <= sense <= 1 && LevelsAlternate(edges)
    ensures Alternating(Samples(sense, last, edges))
            <==> forall i :: 0 < i < |edges| ==> !TurnsAt(sense, last, edges, i)
    decreases |edges|
  {
    if |edges| >= 2 {
      var n := |edges| - 1;
      AlternatesIff(sense, last, edges[..n]);
      NeighboursDifferIff(sense, last, edges);
      forall i | 0 < i < n
        ensures TurnsAt(sense, last, edges, i) == TurnsAt(sense, last, edges[..n], i)
      {
        TurnsInFront(sense, last, edges, i);
      }
      var a, b := Samples(sense, last, edges[..n]), Samples(sense, last, edges);
      assert b[..n] == a;
      AlternatingFront(b, a);
    }
  }

  lemma AlternatingFront(b: seq<Sample>, a: seq<Sample>)
    requires |b| >= 2 && b[..|b| - 1] == a
    ensures Alternating(b) <==> Alternating(a) && b[|b| - 2].Pulse? != b[|b| - 1].Pulse?
  {
    forall i | 0 <= i < |a|
      ensures a[i] == b[i]
    {
    }
  }

  /** Whatever the sense: a pause of more than 15 seconds is the longest space there is,
      which an idle filter holds back. */
  lemma LongPauseIsHeldBack(f: Filter, sense: int, last: Edge, e: Edge)
    requires Possible(last) && Possible(e) && LongPause(last, e) && f.ptr == 0
    ensures SampleOf(sense, last, e) == Space(0xFF_FFFF) && SenseAfter(sense, last, e) == 1 - e.signal
    ensures Step(f, SampleOf(sense, last, e)) == f.(space := 0xFF_FFFF, ptr := 1)
  {
  }

  // ---- What the filter makes of the edges ----

  /** The clock does not go back, and no pause is a long one. */
  predicate Timely(last: Edge, edges: seq<Edge>)
    requires Possible(last) && AllPossible(edges)
  {
    forall i :: 0 <= i < |edges| ==>
      Elapsed(Last(last, edges[..i]), edges[i]) >= 0 && edges[i].sec - Last(last, edges[..i]).sec <= 15
  }

  lemma {:induction false} SamplesFit(sense: int, last: Edge, edges: seq<Edge>)
    requires Possible(last) && AllPossible(edges)
    ensures Fits(Samples(sense, last, edges))
    decreases |edges|
  {
    if edges != [] {
      SamplesFit(sense, last, edges[..|edges| - 1]);
    }
  }

  lemma TimelyFront(last: Edge, edges: seq<Edge>)
    requires Possible(last) && AllPossible(edges) && edges != [] && Timely(last, edges)
    ensures Timely(last, edges[..|edges| - 1])
  {
    var front := edges[..|edges| - 1];
    forall i | 0 <= i < |front|
      ensures front[..i] == edges[..i] && front[i] == edges[i]
    {
    }
  }

  /** Without long pauses the samples last as long as the signal, and the sense stays. */
  lemma {:induction false} SamplesKeepTime(sense: int, last: Edge, edges: seq<Edge>)
    requires Possible(last) && AllPossible(edges) && Timely(last, edges)
    ensures Time(Samples(sense, last, edges)) == Elapsed(last, Last(last, edges))
    ensures Sense(sense, last, edges) == sense
    decreases |edges|
  {
    if edges != [] {
      var front, e := edges[..|edges| - 1], edges[|edges| - 1];
      TimelyFront(last, edges);
      SamplesKeepTime(sense, last, front);
      var s := SampleOf(sense, Last(last, front), e);
      assert s.width == Elapsed(Last(last, front), e);
      TimeConcat(Samples(sense, last, front), [s]);
      assert Time([s]) == s.width + Time([s][1..]);
    }
  }

  /** For every signal that changes its level with every edge, whatever its clock does:
      unless a long pause but the first edge turns the sense, the filter writes the denoised
      samples but for what it holds back, and nothing that is noise. */
  lemma EdgesAreDenoised(sense: int, last: Edge, edges: seq<Edge>)
    requires Possible(last) && AllPossible(edges) && 0 <= sense <= 1 && LevelsAlternate(edges)
    requires forall i :: 0 < i < |edges| ==> !TurnsAt(sense, last, edges, i)
    ensures var samples := Samples(sense, last, edges);
            var f := Run(START, samples);
            f.out + Pending(f, EndsInPulse(samples, false)) == Denoise(samples) && Clean(f.out)
  {
    AlternatesIff(sense, last, edges);
    SamplesFit(sense, last, edges);
    FilterDenoises(Samples(sense, last, edges));
    OutputIsClean(Samples(sense, last, edges));
  }

  /** Without long pauses the sense is never turned, and what was written and what is held
      back last as long as the signal, if and only if no merged space saturates. */
  lemma EdgesKeepTime(sense: int, last: Edge, edges: seq<Edge>)
    requires Possible(last) && AllPossible(edges) && 0 <= sense <= 1 && LevelsAlternate(edges)
    requires Timely(last, edges)
    ensures forall i :: 0 < i < |edges| ==> !TurnsAt(sense, last, edges, i)
    ensures var samples := Samples(sense, last, edges);
            var f := Run(START, samples);
            Time(f.out) + Time(Pending(f, EndsInPulse(samples, false))) == Elapsed(last, Last(last, edges))
            <==> Unsaturated(samples)
  {
    AlternatesIff(sense, last, edges);
    SamplesFit(sense, last, edges);
    SamplesKeepTime(sense, last, edges);
    OutputIsClean(Samples(sense, last, edges));
  }

  lemma RunFrom(f: Filter, s: Sample, rest: seq<Sample>)
    ensures Run(f, [s] + rest) == Run(Step(f, s), rest)
  {
    assert ([s] + rest)[1..] == rest;
  }

  /** In numbers: a pulse between two spaces is taken for noise exactly if it has at most
      250 microseconds and each of the spaces more than 20000. Then the pulse that
      ends the noise, of more than 250, follows one space of the whole time. */
  lemma NoiseInMicroseconds(a: nat, g: nat, b: nat, p: nat)
    requires a <= 0xFF_FFFF && g <= 0xFF_FFFF && b <= 0xFF_FFFF && 250 < p <= 0xFF_FFFF
    ensures var out := Run(START, [Space(a), Pulse(g), Space(b), Pulse(p)]).out;
            if a > 20000 && g <= 250 && b > 20000
            then out == [Space(if a + g + b < 0xFF_FFFF then a + g + b else 0xFF_FFFF), Pulse(p)]
            else out == [Space(a), Pulse(g), Space(b), Pulse(p)]
  {
    var f1 := Step(START, Space(a));
    var f2 := Step(f1, Pulse(g));
    RunFrom(START, Space(a), [Pulse(g), Space(b), Pulse(p)]);
    RunFrom(f1, Pulse(g), [Space(b), Pulse(p)]);
    RunFrom(f2, Space(b), [Pulse(p)]);
    RunFrom(Step(f2, Space(b)), Pulse(p), []);
    assert [Pulse(g)] + [Space(b), Pulse(p)] == [Pulse(g), Space(b), Pulse(p)];
    assert [Space(a)] + [Pulse(g), Space(b), Pulse(p)] == [Space(a), Pulse(g), Space(b), Pulse(p)];
  }
}
