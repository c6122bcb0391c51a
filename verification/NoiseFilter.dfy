/** The noise filter of the infrared receiver: a pulse that is too short to be one,
    between two long spaces, becomes part of one longer space. The filter works
    on one sample at a time and holds back what it cannot decide yet. */
module NoiseFilter {
  import opened Sequences

  const PULSE_BIT: nat := 0x0100_0000
  const PULSE_MASK: nat := 0x00FF_FFFF
  const GLITCH: nat := 250
  const LONG_SPACE: nat := 20000

  datatype Sample = Pulse(width: nat) | Space(width: nat)

  /** A sample as the driver stores it: bit 24 marks a pulse. */
  function Encode(s: Sample): nat
    requires s.width <= PULSE_MASK
  {
    if s.Pulse? then PULSE_BIT + s.width else s.width
  }

  function Decode(l: nat): (s: Sample)
    requires l < 2 * PULSE_BIT
    ensures s.width <= PULSE_MASK && Encode(s) == l
    ensures l == s.width + if s.Pulse? then 0x100_0000 else 0
  {
    if l / PULSE_BIT % 2 == 1 then Pulse(l % PULSE_BIT) else Space(l % PULSE_BIT)
  }

  /** l | PULSE_BIT */
  function WithPulseBit(l: nat): (r: nat)
    requires l < 2 * PULSE_BIT
    ensures r == Encode(Pulse(l % PULSE_BIT))
  {
    if l / PULSE_BIT % 2 == 1 then l else l + PULSE_BIT
  }

  // ---- One sample at a time ----

  /** `ptr` tells whether `space`, and perhaps `pulse`, are held back. */
  datatype Filter = Filter(pulse: nat, space: nat, ptr: nat, out: seq<Sample>)

  const START := Filter(0, 0, 0, [])

  /** No more than a sample can hold. */
  function Clamp(space: nat): nat {
    if space > PULSE_MASK then PULSE_MASK else space
  }

  function Step(f: Filter, s: Sample): Filter {
    if f.ptr > 0 && s.Pulse? then
      var pulse := f.pulse + s.width;
      if pulse > GLITCH then Filter(0, f.space, 0, f.out + [Space(f.space), Pulse(pulse % PULSE_BIT)])
      else f.(pulse := pulse)
    else if s.Pulse? then f.(out := f.out + [s])
    else if f.ptr == 0 then
      if s.width > LONG_SPACE then f.(space := s.width, ptr := 1) else f.(out := f.out + [s])
    else if s.width > LONG_SPACE then f.(space := Clamp(Clamp(f.space + f.pulse) + s.width), pulse := 0)
    else Filter(0, f.space, 0, f.out + [Space(f.space), Pulse(f.pulse % PULSE_BIT), s])
  }

  function Run(f: Filter, input: seq<Sample>): Filter
    decreases |input|
  {
    if input == [] then f else Run(Step(f, input[0]), input[1..])
  }

  class NoiseFilter {
    var pulse: nat
    var space: nat
    var ptr: nat
    var buffer: seq<nat>
    ghost var samples: seq<Sample>

    ghost predicate Valid()
      reads this
    {
      pulse <= GLITCH && space <= PULSE_MASK && ptr <= 1 && Stored()
    }

    ghost predicate Stored()
      reads this
    {
      && |buffer| == |samples|
      && forall i :: 0 <= i < |buffer| ==> samples[i].width <= PULSE_MASK && buffer[i] == Encode(samples[i])
    }

    ghost function Model(): Filter
      reads this
    {
      Filter(pulse, space, ptr, samples)
    }

    constructor ()
      ensures Valid() && Model() == START
    {
      pulse, space, ptr, buffer, samples := 0, 0, 0, [], [];
    }

    method Rbwrite(l: nat)
      requires Stored() && l < 2 * PULSE_BIT
      modifies this`buffer, this`samples
      ensures Stored() && buffer == old(buffer) + [l] && samples == old(samples) + [Decode(l)]
    {
      buffer := buffer + [l];
      samples := samples + [Decode(l)];
    }

    method Frbwrite(l: nat)
      requires Valid() && l < 2 * PULSE_BIT
      modifies this
      ensures Valid() && Model() == Step(old(Model()), Decode(l))
    {
      if ptr > 0 && Decode(l).Pulse? {
        pulse := pulse + l % PULSE_BIT;
        if pulse > GLITCH {
          Rbwrite(space);
          Rbwrite(WithPulseBit(pulse));
          ptr := 0;
          pulse := 0;
        }
        return;
      }
      if !Decode(l).Pulse? {
        if ptr == 0 {
          if l > LONG_SPACE {
            space := l;
            ptr := ptr + 1;
            return;
          }
        } else {
          if l > LONG_SPACE {
            space := space + pulse;
            if space > PULSE_MASK {
              space := PULSE_MASK;
            }
            space := space + l;
            if space > PULSE_MASK {
              space := PULSE_MASK;
            }
            pulse := 0;
            return;
          }
          Rbwrite(space);
          Rbwrite(WithPulseBit(pulse));
          ptr := 0;
          pulse := 0;
        }
      }
      Rbwrite(l);
    }
  }

  // ---- The whole stream at once ----

  predicate Long(s: Sample) {
    s.Space? && s.width > LONG_SPACE
  }

  predicate Glitch(s: Sample) {
    s.Pulse? && s.width <= GLITCH
  }

  predicate NoisyAt(s: seq<Sample>, i: nat) {
    i + 3 <= |s| && Long(s[i]) && Glitch(s[i + 1]) && Long(s[i + 2])
  }

  /** Is there noise as soon as `s` is put in front of `rest`? */
  predicate StartsNoise(s: Sample, rest: seq<Sample>) {
    |rest| >= 2 && Long(s) && Glitch(rest[0]) && Long(rest[1])
  }

  function Time(s: seq<Sample>): nat {
    if s == [] then 0 else s[0].width + Time(s[1..])
  }

  /** How many samples at the beginning belong together. */
  function GroupLength(s: seq<Sample>): (n: nat)
    requires s != []
    ensures 1 <= n <= |s|
  {
    if NoisyAt(s, 0) then 2 + GroupLength(s[2..]) else 1
  }

  /** A group of more than one is one space, as long as all of it if that fits. */
  function Merged(group: seq<Sample>): Sample
    requires group != []
  {
    if |group| == 1 then group[0] else Space(Clamp(Time(group)))
  }

  function Denoise(s: seq<Sample>): seq<Sample> {
    if s == [] then []
    else
      var n := GroupLength(s);
      [Merged(s[..n])] + Denoise(s[n..])
  }

  predicate Alternating(s: seq<Sample>) {
    forall i :: 0 < i < |s| ==> s[i - 1].Pulse? != s[i].Pulse?
  }

  predicate Fits(s: seq<Sample>) {
    forall i :: 0 <= i < |s| ==> s[i].width <= PULSE_MASK
  }

  lemma MergeSlices(a: Sample, g: Sample, b: Sample, m: Sample, rest: seq<Sample>, k: nat)
    requires 1 <= k <= 1 + |rest|
    ensures ([a, g, b] + rest)[..2 + k] == [a, g, b] + rest[..k - 1] && ([m] + rest)[..k] == [m] + rest[..k - 1]
    ensures ([a, g, b] + rest)[2 + k..] == rest[k - 1..] == ([m] + rest)[k..]
  {
  }

  lemma MergeLength(a: Sample, g: Sample, b: Sample, m: Sample, rest: seq<Sample>)
    requires Long(a) && Glitch(g) && Long(b) && Long(m)
    ensures GroupLength([a, g, b] + rest) == 2 + GroupLength([m] + rest)
  {
    assert ([a, g, b] + rest)[2..] == [b] + rest;
    SameGroup(m, b, rest);
  }

  /** The group that begins with a space already merged is as long as the one that
      begins with the last part of this space, and merges to the same. */
  lemma MergeStep(a: Sample, g: Sample, b: Sample, rest: seq<Sample>)
    requires Long(a) && Glitch(g) && Long(b)
    ensures var m := Space(Clamp(Clamp(a.width + g.width) + b.width));
            Long(m) && Denoise([a, g, b] + rest) == Denoise([m] + rest)
  {
    var m := Space(Clamp(Clamp(a.width + g.width) + b.width));
    var k := GroupLength([m] + rest);
    MergeLength(a, g, b, m, rest);
    MergeSlices(a, g, b, m, rest, k);
    ClampsAgree(a, g, b, rest[..k - 1], m);
  }

  /** The two clamps of a merge have the effect of a single one on the exact sum. */
  lemma ClampsAgree(a: Sample, g: Sample, b: Sample, r: seq<Sample>, m: Sample)
    requires m == Space(Clamp(Clamp(a.width + g.width) + b.width))
    ensures Merged([a, g, b] + r) == Merged([m] + r)
  {
    GroupTime(a, g, b, r, m);
    if r == [] {
      assert [m] + r == [m];
    }
  }

  lemma GroupTime(a: Sample, g: Sample, b: Sample, r: seq<Sample>, m: Sample)
    ensures Time([a, g, b] + r) == a.width + g.width + b.width + Time(r)
    ensures Time([m] + r) == m.width + Time(r)
  {
    assert ([b] + r)[1..] == r && ([m] + r)[1..] == r;
    assert Time([b] + r) == b.width + Time(r);
    assert ([g, b] + r)[1..] == [b] + r;
    assert Time([g, b] + r) == g.width + Time([b] + r);
    assert ([a, g, b] + r)[1..] == [g, b] + r;
  }

  lemma SameGroup(a: Sample, b: Sample, rest: seq<Sample>)
    requires Long(a) && Long(b)
    ensures GroupLength([a] + rest) == GroupLength([b] + rest)
  {
    if NoisyAt([a] + rest, 0) {
      assert ([a] + rest)[2..] == rest[1..] == ([b] + rest)[2..];
    }
  }

  // ---- The filter computes it ----

  /** What the filter holds back; `afterPulse` says that the last sample was a pulse. */
  function Pending(f: Filter, afterPulse: bool): seq<Sample> {
    if f.ptr == 0 then []
    else [Space(f.space)] + if afterPulse then [Pulse(f.pulse)] else []
  }

  ghost predicate Ready(f: Filter, afterPulse: bool) {
    && f.pulse <= GLITCH
    && (f.ptr > 0 ==> f.space > LONG_SPACE)
    && (f.ptr == 0 || !afterPulse ==> f.pulse == 0)
  }

  predicate EndsInPulse(input: seq<Sample>, before: bool) {
    if input == [] then before else input[|input| - 1].Pulse?
  }

  lemma NoiseInFront(s: Sample, rest: seq<Sample>, i: nat)
    ensures NoisyAt([s] + rest, i) == if i == 0 then StartsNoise(s, rest) else NoisyAt(rest, i - 1)
  {
  }

  lemma OneIsKept(s: Sample, rest: seq<Sample>)
    requires !StartsNoise(s, rest)
    ensures Denoise([s] + rest) == [s] + Denoise(rest)
  {
  }

  lemma KeptInFront(h: Sample, e: seq<Sample>, rest: seq<Sample>)
    requires Denoise(e + rest) == e + Denoise(rest) && !StartsNoise(h, e + rest)
    ensures Denoise([h] + e + rest) == [h] + e + Denoise(rest)
  {
    Regroup([h], e, rest);
    Regroup([h], e, Denoise(rest));
    OneIsKept(h, e + rest);
  }

  lemma PulseAndShortAreKept(g: Sample, s: Sample, rest: seq<Sample>)
    requires g.Pulse? && !Long(s)
    ensures Denoise([g] + [s] + rest) == [g] + [s] + Denoise(rest)
  {
  }

  /** Samples that no later one can change. */
  ghost predicate Decided(e: seq<Sample>) {
    || e == []
    || (|e| == 1 && !Long(e[0]))
    || (|e| == 2 && e[1].Pulse? && !Glitch(e[1]))
    || (|e| == 3 && e[1].Pulse? && !Long(e[2]))
  }

  lemma DecidedAreKept(e: seq<Sample>, rest: seq<Sample>)
    requires Decided(e)
    ensures Denoise(e + rest) == e + Denoise(rest)
  {
    if |e| == 0 {
      assert e + rest == rest;
    } else if |e| == 1 {
      assert e == [e[0]];
      OneIsKept(e[0], rest);
    } else if |e| == 2 {
      assert e == [e[0]] + [e[1]];
      OneIsKept(e[1], rest);
      KeptInFront(e[0], [e[1]], rest);
    } else {
      assert e == [e[0]] + ([e[1]] + [e[2]]);
      PulseAndShortAreKept(e[1], e[2], rest);
      KeptInFront(e[0], [e[1]] + [e[2]], rest);
    }
  }

  /** A step writes decided samples and keeps the rest, or merges a glitch. */
  lemma StepDecides(f: Filter, afterPulse: bool, s: Sample)
    requires Ready(f, afterPulse) && s.width <= PULSE_MASK
    requires f.ptr > 0 ==> s.Pulse? != afterPulse
    ensures var t := Step(f, s);
            var p, q := Pending(f, afterPulse), Pending(t, s.Pulse?);
            && Ready(t, s.Pulse?) && f.out <= t.out && Decided(t.out[|f.out|..])
            && if f.ptr > 0 && Long(s) then
                 && t.out == f.out && p == [Space(f.space), Pulse(f.pulse)]
                 && q == [Space(Clamp(Clamp(f.space + f.pulse) + s.width))]
               else p + [s] == t.out[|f.out|..] + q
  {
  }

  lemma StepFollows(f: Filter, afterPulse: bool, s: Sample, rest: seq<Sample>)
    requires Ready(f, afterPulse) && s.width <= PULSE_MASK
    requires f.ptr > 0 ==> s.Pulse? != afterPulse
    ensures var t := Step(f, s);
            Ready(t, s.Pulse?)
            && f.out + Denoise(Pending(f, afterPulse) + ([s] + rest)) == t.out + Denoise(Pending(t, s.Pulse?) + rest)
  {
    var t := Step(f, s);
    var p, q := Pending(f, afterPulse), Pending(t, s.Pulse?);
    StepDecides(f, afterPulse, s);
    if f.ptr > 0 && Long(s) {
      MergeStep(Space(f.space), Pulse(f.pulse), s, rest);
      Regroup(p, [s], rest);
      assert p + [s] == [Space(f.space), Pulse(f.pulse), s];
    } else {
      var e := t.out[|f.out|..];
      DecidedAreKept(e, q + rest);
      Regroup(p, [s], rest);
      Regroup(e, q, rest);
      Regroup(f.out, e, Denoise(q + rest));
      assert t.out == f.out + e;
    }
  }

  lemma {:induction false} RunFollows(f: Filter, afterPulse: bool, input: seq<Sample>)
    requires Ready(f, afterPulse) && Alternating(input) && Fits(input)
    requires f.ptr > 0 && input != [] ==> input[0].Pulse? != afterPulse
    ensures var t := Run(f, input);
            t.out + Pending(t, EndsInPulse(input, afterPulse)) == f.out + Denoise(Pending(f, afterPulse) + input)
    decreases |input|
  {
    if input == [] {
      var p := Pending(f, afterPulse);
      assert p + [] == p;
      PendingIsClean(f, afterPulse);
    } else {
      var t := Step(f, input[0]);
      assert input == [input[0]] + input[1..];
      StepFollows(f, afterPulse, input[0], input[1..]);
      RunFollows(t, input[0].Pulse?, input[1..]);
    }
  }

  lemma PendingIsClean(f: Filter, afterPulse: bool)
    ensures Denoise(Pending(f, afterPulse)) == Pending(f, afterPulse)
  {
    var p := Pending(f, afterPulse);
    if |p| == 2 {
      OneIsKept(p[0], [p[1]]);
      OneIsKept(p[1], []);
      assert p == [p[0]] + [p[1]] && [p[1]] + [] == [p[1]];
    } else if |p| == 1 {
      OneIsKept(p[0], []);
      assert p == [p[0]] + [];
    }
  }

  /** For every stream of alternating pulses and spaces: what the filter wrote and
      what it still holds are the stream with its glitches merged away. */
  lemma FilterDenoises(input: seq<Sample>)
    requires Alternating(input) && Fits(input)
    ensures var f := Run(START, input);
            f.out + Pending(f, EndsInPulse(input, false)) == Denoise(input)
  {
    RunFollows(START, false, input);
    NothingInFront(input);
    NothingInFront(Denoise(input));
  }

  // ---- What denoising means ----

  lemma {:induction false} TimeConcat(a: seq<Sample>, b: seq<Sample>)
    ensures Time(a + b) == Time(a) + Time(b)
    decreases |a|
  {
    if a == [] {
      assert a + b == b;
    } else {
      assert (a + b)[1..] == a[1..] + b;
      TimeConcat(a[1..], b);
    }
  }

  /** A group is one sample, or long spaces with glitches between them. */
  ghost predicate Mergeable(g: seq<Sample>) {
    |g| % 2 == 1 && forall i :: 0 <= i < |g| && |g| > 1 ==> if i % 2 == 0 then Long(g[i]) else Glitch(g[i])
  }

  lemma {:induction false} GroupIsMergeable(s: seq<Sample>)
    requires s != []
    ensures Mergeable(s[..GroupLength(s)])
    decreases |s|
  {
    if NoisyAt(s, 0) {
      GroupIsMergeable(s[2..]);
      var k := GroupLength(s[2..]);
      assert forall i :: 0 <= i < k ==> s[..2 + k][i + 2] == s[2..][..k][i];
    }
  }

  /** The first group cannot be continued. */
  lemma {:induction false} GroupIsMaximal(s: seq<Sample>)
    requires s != []
    ensures !NoisyAt(s, GroupLength(s) - 1)
    decreases |s|
  {
    if NoisyAt(s, 0) {
      var k := GroupLength(s[2..]);
      GroupIsMaximal(s[2..]);
      assert NoisyAt(s, k + 1) == NoisyAt(s[2..], k - 1);
    }
  }

  lemma FirstGroupIsAlike(s: seq<Sample>)
    requires s != []
    ensures var n := GroupLength(s);
            var m := Merged(s[..n]);
            && m.Pulse? == s[0].Pulse? == s[n - 1].Pulse?
            && Long(m) == Long(s[0]) == Long(s[n - 1])
  {
  }

  function Groups(s: seq<Sample>): seq<seq<Sample>> {
    if s == [] then [] else [s[..GroupLength(s)]] + Groups(s[GroupLength(s)..])
  }

  function Flatten(gs: seq<seq<Sample>>): seq<Sample> {
    if gs == [] then [] else gs[0] + Flatten(gs[1..])
  }

  /** Each sample stands for one mergeable group. */
  ghost predicate StandsFor(ds: seq<Sample>, gs: seq<seq<Sample>>) {
    |ds| == |gs| && forall i :: 0 <= i < |gs| ==> gs[i] != [] && Mergeable(gs[i]) && ds[i] == Merged(gs[i])
  }

  lemma StandsInFront(g: seq<Sample>, ds: seq<Sample>, gs: seq<seq<Sample>>)
    requires g != [] && Mergeable(g) && StandsFor(ds, gs)
    ensures StandsFor([Merged(g)] + ds, [g] + gs) && Flatten([g] + gs) == g + Flatten(gs)
  {
    assert ([g] + gs)[1..] == gs;
  }

  /** The stream is cut into groups, and each sample that is left stands for one of
      them: nothing else is dropped, merged or reordered. */
  lemma {:induction false} GroupsPartition(s: seq<Sample>)
    ensures Flatten(Groups(s)) == s && StandsFor(Denoise(s), Groups(s))
    decreases |s|
  {
    if s != [] {
      var n := GroupLength(s);
      var head, tail := s[..n], s[n..];
      CutAndJoined(s, n);
      GroupIsMergeable(s);
      GroupsPartition(tail);
      StandsInFront(head, Denoise(tail), Groups(tail));
      assert Groups(s) == [head] + Groups(tail) && Denoise(s) == [Merged(head)] + Denoise(tail);
    }
  }

  lemma HeadOfDenoised(u: seq<Sample>)
    requires u != []
    ensures Denoise(u) != [] && Denoise(u)[0].Pulse? == u[0].Pulse?
    ensures u[0].Pulse? ==> Denoise(u) == [u[0]] + Denoise(u[1..])
  {
  }

  /** Noise at the head of the result would be noise where the first group ends. */
  lemma HeadNoise(s: seq<Sample>)
    requires s != [] && Alternating(s)
    requires GroupLength(s) + 1 < |s| ==> var d := Denoise(s[GroupLength(s) + 1..]);
                                          d != [] && Long(d[0]) == Long(s[GroupLength(s) + 1])
    ensures var n := GroupLength(s);
            StartsNoise(Merged(s[..n]), Denoise(s[n..])) ==> NoisyAt(s, n - 1)
  {
    var n := GroupLength(s);
    FirstGroupIsAlike(s);
    if n < |s| {
      HeadOfDenoised(s[n..]);
      assert s[n..][1..] == s[n + 1..];
    }
  }

  /** Pulses and spaces alternate, and no glitch is left between long spaces. */
  ghost predicate Clean(d: seq<Sample>) {
    Alternating(d) && forall i :: !NoisyAt(d, i)
  }

  lemma CleanInFront(m: Sample, d: seq<Sample>)
    requires Clean(d) && (d != [] ==> m.Pulse? != d[0].Pulse?) && !StartsNoise(m, d)
    ensures Clean([m] + d)
  {
    forall i: nat
      ensures !NoisyAt([m] + d, i)
    {
      NoiseInFront(m, d, i);
    }
  }

  /** The result is clean, and begins like the stream. */
  lemma {:induction false} DenoisedIsClean(s: seq<Sample>)
    requires Alternating(s)
    ensures var d := Denoise(s);
            && Clean(d) && (d == [] <==> s == [])
            && (s != [] ==> d[0].Pulse? == s[0].Pulse? && Long(d[0]) == Long(s[0]))
    decreases |s|
  {
    if s != [] {
      var n := GroupLength(s);
      FirstGroupIsAlike(s);
      DenoisedIsClean(s[n..]);
      if n + 1 < |s| {
        DenoisedIsClean(s[n + 1..]);
      }
      HeadNoise(s);
      GroupIsMaximal(s);
      CleanInFront(Merged(s[..n]), Denoise(s[n..]));
    }
  }

  lemma {:induction false} CleanIsKept(d: seq<Sample>)
    requires Clean(d)
    ensures Denoise(d) == d
    decreases |d|
  {
    if d != [] {
      assert d == [d[0]] + d[1..];
      forall i: nat
        ensures !NoisyAt(d[1..], i)
      {
        assert NoisyAt(d[1..], i) == NoisyAt(d, i + 1);
      }
      CleanIsKept(d[1..]);
      assert !NoisyAt(d, 0);
      OneIsKept(d[0], d[1..]);
    }
  }

  lemma DenoiseTwice(s: seq<Sample>)
    requires Alternating(s)
    ensures Denoise(Denoise(s)) == Denoise(s)
  {
    DenoisedIsClean(s);
    CleanIsKept(Denoise(s));
  }

  /** No merged space is longer than the driver can express. */
  predicate Unsaturated(s: seq<Sample>) {
    s == [] || (Time(s[..GroupLength(s)]) <= PULSE_MASK && Unsaturated(s[GroupLength(s)..]))
  }

  /** Time is never added, and it is conserved exactly when no merged space saturates. */
  lemma {:induction false} TimeIsConserved(s: seq<Sample>)
    requires Fits(s)
    ensures Time(Denoise(s)) <= Time(s)
    ensures Time(Denoise(s)) == Time(s) <==> Unsaturated(s)
    decreases |s|
  {
    if s != [] {
      var n := GroupLength(s);
      TimeIsConserved(s[n..]);
      TimeConcat(s[..n], s[n..]);
      assert s[..n] + s[n..] == s;
      var m := Merged(s[..n]);
      assert ([m] + Denoise(s[n..]))[1..] == Denoise(s[n..]);
      if n == 1 {
        assert s[..1][1..] == [];
      }
    }
  }

  // ---- The filter's output ----

  /** What the filter has written at any moment alternates and has no glitches, and
      with what it still holds it lasts as long as the input, unless a space saturates. */
  lemma OutputIsClean(input: seq<Sample>)
    requires Alternating(input) && Fits(input)
    ensures var f := Run(START, input);
            && Clean(f.out)
            && (Time(f.out) + Time(Pending(f, EndsInPulse(input, false))) == Time(input) <==> Unsaturated(input))
  {
    var f := Run(START, input);
    var d, p := Denoise(input), Pending(f, EndsInPulse(input, false));
    FilterDenoises(input);
    DenoisedIsClean(input);
    TimeIsConserved(input);
    TimeConcat(f.out, p);
    forall i: nat
      ensures !NoisyAt(f.out, i)
    {
      assert NoisyAt(f.out, i) ==> NoisyAt(f.out + p, i);
    }
    forall i | 0 < i < |f.out|
      ensures f.out[i - 1].Pulse? != f.out[i].Pulse?
    {
      assert f.out[i - 1] == d[i - 1] && f.out[i] == d[i];
    }
  }
}
