/** Subscribing takes two steps: a snapshot of the table is taken under the service
    mutex, and only after that is let go is the subscription accepted. A document
    sent in between does not reach the new subscriber. */
module Subscription {
  import opened Options
  import opened LastChange
  import opened Replica
  import opened Bracketing

  // ---- The collector between snapshot and acceptance ----

  /** Between the snapshot of `s` and the acceptance at `t` nothing was missed: each
      value is the one in the snapshot, or it is still to come with the pending document. */
  ghost predicate NothingMissed(s: State, t: State)
    requires |s.values| == |s.names| && |t.values| == |t.names| && t.names == s.names
  {
    forall v: nat :: Evented(t, v) && !ArgumentType(t.names[v].value) && Last(t.pending, t.names[v].value).None?
                     ==> t.values[v] == s.values[v]
  }

  /** The view a subscriber has when it was accepted at `t` and the service went on to `u`. */
  ghost function Received(s: State, t: State, u: State): View
    requires |s.names| == |s.values| && t.sent <= u.sent
  {
    Advance(Snapshot(s), t, u)
  }

  lemma SnapshotCovers(s: State, t: State)
    requires Inv(s) && Inv(t) && t.names == s.names && t.ignored == s.ignored && t.lastChange == s.lastChange
    ensures Covers(t, Snapshot(s))
    ensures Behind(t, Snapshot(s)) <==> NothingMissed(s, t)
  {
    forall v: nat | Evented(t, v)
      ensures var name := t.names[v].value;
              && (name in Snapshot(s) <==> !ArgumentType(name))
              && (name in Snapshot(s) ==> Snapshot(s)[name] == s.values[v])
    {
      assert Evented(s, v) && v != s.lastChange && s.names[v] != s.names[s.lastChange];
      SnapshotIsTable(s, v);
    }
  }

  /** The race between snapshot and acceptance, exactly: the subscriber agrees with the
      table whenever no transaction is open, in every run that follows, if and only if
      nothing was missed in between and the transaction open at the acceptance cannot
      grow into a repetition. With no transaction open, the first half decides. */
  lemma AcceptedViewsAgreeIff(s: State, between: seq<Op>)
    requires Inv(s) && Legal(s, between)
    ensures var t := Run(s, between);
            && Inv(t)
            && ((forall ops: seq<Op> :: Settles(t, ops) ==> Agrees(Run(t, ops), Received(s, t, Run(t, ops))))
                <==> NothingMissed(s, t) && !StaleRisk(t, Snapshot(s)))
            && (t.open == 0 && NothingMissed(s, t) ==> !StaleRisk(t, Snapshot(s)))
  {
    RunKeepsInv(s, between);
    var t := Run(s, between);
    SnapshotCovers(s, t);
    AgreementIff(t, Snapshot(s));
    if t.open == 0 && NothingMissed(s, t) {
      QuiescentAgrees(t, Snapshot(s));
      QuiescentIsSafe(t, Snapshot(s));
    }
  }

  /** A snapshot taken while no transaction is open is safe as long as nothing was sent
      before the acceptance, even if a transaction is open by then. */
  lemma NothingSentNothingMissed(s: State, between: seq<Op>)
    requires Inv(s) && s.open == 0 && Legal(s, between) && Run(s, between).sent == s.sent
    ensures var t := Run(s, between);
            Inv(t) && NothingMissed(s, t) && !StaleRisk(t, Snapshot(s))
  {
    var t := Run(s, between);
    SnapshotIsBehind(s);
    QuiescentIsSafe(s, Snapshot(s));
    RunKeepsSafe(s, Snapshot(s), between);
    assert t.sent[|s.sent|..] == [];
    SnapshotCovers(s, t);
  }

  /** A single change in between is missed for good. */
  lemma ChangeInBetweenIsMissed(s: State, v: nat, x: Value)
    requires Inv(s) && s.open == 0 && Evented(s, v) && !ArgumentType(s.names[v].value) && s.values[v] != x
    ensures Legal(s, [Write(v, x)]) && Settles(s, [Write(v, x)])
    ensures var t := Run(s, [Write(v, x)]);
            t == Step(s, Write(v, x)) && !Agrees(t, Received(s, t, t))
  {
    assert v != s.lastChange && [Write(v, x)][1..] == [];
    var t := Run(s, [Write(v, x)]);
    assert t == Run(Step(s, Write(v, x)), []) == Step(s, Write(v, x));
    assert t.values[v] == x && t.sent[|t.sent|..] == [];
    assert s.names[v] != s.names[s.lastChange];
    SnapshotIsTable(s, v);
    assert Evented(t, v);
  }

  // ---- One variable of a subscriber that missed something ----

  /** Documents that do not mention a name leave it alone, and what documents do to a
      name depends on the value it has. */
  lemma {:induction false} ApplyAllAtName(a: View, b: View, docs: seq<Document>, name: string)
    requires name in a && name in b
    ensures name in ApplyAll(a, docs) && name in ApplyAll(b, docs)
    ensures a[name] == b[name] ==> ApplyAll(a, docs)[name] == ApplyAll(b, docs)[name]
    ensures (forall i :: 0 <= i < |docs| ==> Last(docs[i], name).None?) ==> ApplyAll(a, docs)[name] == a[name]
    decreases |docs|
  {
    if docs != [] {
      ApplyLookup(a, docs[0], name);
      ApplyLookup(b, docs[0], name);
      ApplyAllAtName(Apply(a, docs[0]), Apply(b, docs[0]), docs[1..], name);
    }
  }

  ghost predicate Unmentioned(docs: seq<Document>, name: string) {
    forall i :: 0 <= i < |docs| ==> Last(docs[i], name).None?
  }

  lemma FlushSkips(s: State, v: nat, name: string)
    requires s.lastChange < |s.values| && v < |s.values| && v != s.lastChange && Last(s.pending, name).None?
    ensures var t := Flush(s);
            && t.values[v] == s.values[v] && s.sent <= t.sent
            && Last(t.pending, name).None? && Unmentioned(t.sent[|s.sent|..], name)
  {
    var t := Flush(s);
    assert t.sent[|s.sent|..] == if t.sent == s.sent then [] else [s.pending];
  }

  lemma AppendSkips(doc: Document, e: Entry, name: string)
    requires Last(doc, name).None? && e.name != name
    ensures Last(doc + [e], name).None?
  {
    assert (doc + [e])[..|doc|] == doc;
  }

  lemma WriteSkips(s: State, w: nat, x: Value, v: nat)
    requires WellFormed(s) && Allowed(s, Write(w, x)) && w != v && w !in s.ignored && s.values[w] != x
    requires v < |s.names| && v != s.lastChange && s.names[v].Some? && Last(s.pending, s.names[v].value).None?
    ensures var t, name := Change(s, w, x), s.names[v].value;
            && t.values[v] == s.values[v] && s.sent <= t.sent
            && Last(t.pending, name).None? && Unmentioned(t.sent[|s.sent|..], name)
  {
    var e := Entry(s.names[w].value, x);
    assert s.names[w] != s.names[v];
    AppendSkips(s.pending, e, s.names[v].value);
    FlushSkips(s.(values := s.values[w := x], pending := s.pending + [e]), v, s.names[v].value);
  }

  lemma StepSkipsUnwritten(s: State, op: Op, v: nat)
    requires WellFormed(s) && Allowed(s, op) && (op.Write? ==> op.v != v)
    requires v < |s.names| && v != s.lastChange && s.names[v].Some? && Last(s.pending, s.names[v].value).None?
    ensures var t, name := Step(s, op), s.names[v].value;
            && t.values[v] == s.values[v] && s.sent <= t.sent
            && Last(t.pending, name).None? && Unmentioned(t.sent[|s.sent|..], name)
  {
    match op
    case Write(w, x) =>
      if w !in s.ignored && s.values[w] != x {
        WriteSkips(s, w, x, v);
      } else {
        assert Step(s, op).sent[|s.sent|..] == [];
      }
    case Begin => assert Step(s, op).sent[|s.sent|..] == [];
    case End => FlushSkips(s.(open := s.open - 1), v, s.names[v].value);
  }

  /** A variable that a run does not write keeps its value, and no document sent in that
      run mentions it. */
  lemma {:induction false} UnwrittenIsUnsent(s: State, ops: seq<Op>, v: nat)
    requires WellFormed(s) && Legal(s, ops) && Unwritten(ops, v)
    requires v < |s.names| && v != s.lastChange && s.names[v].Some? && Last(s.pending, s.names[v].value).None?
    ensures var t := Run(s, ops);
            t.values[v] == s.values[v] && Unmentioned(t.sent[|s.sent|..], s.names[v].value)
    decreases |ops|
  {
    if ops == [] {
      assert s.sent[|s.sent|..] == [];
    } else {
      var t, u := Step(s, ops[0]), Run(s, ops);
      StepSkipsUnwritten(s, ops[0], v);
      UnwrittenIsUnsent(t, ops[1..], v);
      SentInParts(s.sent, t.sent, u.sent, s.names[v].value);
    }
  }

  lemma SentInParts(a: seq<Document>, b: seq<Document>, c: seq<Document>, name: string)
    requires a <= b <= c && Unmentioned(b[|a|..], name) && Unmentioned(c[|b|..], name)
    ensures Unmentioned(c[|a|..], name)
  {
    forall i | 0 <= i < |c| - |a|
      ensures Last(c[|a|..][i], name).None?
    {
      assert c[|a|..][i] == if i < |b| - |a| then b[|a|..][i] else c[|b|..][i - (|b| - |a|)];
    }
  }

  /** What a subscriber with the snapshot of `s`, accepted at `t`, holds of a variable
      after a run: the table's value if it had that at the acceptance; the snapshot's
      if the run did not write it. */
  lemma VariableReceived(s: State, t: State, ops: seq<Op>, v: nat)
    requires Inv(s) && Inv(t) && t.names == s.names && t.ignored == s.ignored && t.lastChange == s.lastChange
    requires t.open == 0 && Settles(t, ops) && Evented(t, v) && !ArgumentType(t.names[v].value)
    ensures var u, name := Run(t, ops), t.names[v].value;
            && name in Received(s, t, u)
            && (t.values[v] == s.values[v] ==> Received(s, t, u)[name] == u.values[v])
            && (Unwritten(ops, v) ==> Received(s, t, u)[name] == s.values[v] && u.values[v] == t.values[v])
  {
    var u, name := Run(t, ops), t.names[v].value;
    assert Evented(s, v) && v != s.lastChange && s.names[v] != s.names[s.lastChange];
    SnapshotIsTable(s, v);
    SnapshotIsTable(t, v);
    ReplicaAgreement(t, ops);
    ApplyAllAtName(Snapshot(s), Snapshot(t), u.sent[|t.sent|..], name);
    assert Evented(u, v);
    if Unwritten(ops, v) {
      UnwrittenIsUnsent(t, ops, v);
    }
  }

  // ---- The service between snapshot and acceptance ----

  lemma {:induction false} PossibleConcat(s: Service, a: seq<Event>, b: seq<Event>)
    requires Bracketed(s) && Possible(s, a) && Possible(After(s, a), b)
    ensures Possible(s, a + b) && After(s, a + b) == After(After(s, a), b)
    decreases |a|
  {
    if a == [] {
      assert a + b == b;
    } else {
      assert (a + b)[0] == a[0] && (a + b)[1..] == a[1..] + b;
      PossibleConcat(Next(s, a[0]), a[1..], b);
    }
  }

  lemma StepFirst(s: Service, e: Event, rest: seq<Event>)
    requires Bracketed(s) && Enabled(s, e) && Possible(Next(s, e), rest)
    ensures Possible(s, [e] + rest) && After(s, [e] + rest) == After(Next(s, e), rest)
  {
    assert ([e] + rest)[1..] == rest;
  }

  lemma EndsUnfold(s: State)
    requires |s.values| == |s.names| && s.lastChange < |s.values| && s.open > 0
    requires Legal(Step(s, End), Ends(s.open - 1))
    ensures Legal(s, Ends(s.open)) && Run(s, Ends(s.open)) == Run(Step(s, End), Ends(s.open - 1))
  {
    var ops := Ends(s.open);
    assert ops[0] == End && ops[1..] == Ends(s.open - 1);
  }

  /** Something that is open can end. */
  lemma SomethingEnds(s: Service) returns (e: Event)
    requires Bracketed(s) && !Idle(s)
    ensures Enabled(s, e) && s.collector.open > 0
    ensures Next(s, e).collector == Step(s.collector, End) && Next(s, e).collector.open == s.collector.open - 1
  {
    if s.holder.Some? {
      e := Unlocks(s.holder.value);
    } else {
      var a :| a in s.inFlight;
      e := ActionEnds(a);
    }
  }

  /** The mutex is let go and every action ends. */
  lemma {:induction false} EverythingEnds(s: Service) returns (events: seq<Event>)
    requires Bracketed(s)
    ensures Possible(s, events) && Idle(After(s, events))
    ensures Legal(s.collector, Ends(s.collector.open))
    ensures After(s, events).collector == Run(s.collector, Ends(s.collector.open))
    decreases s.collector.open
  {
    if Idle(s) {
      events := [];
    } else {
      var e := SomethingEnds(s);
      var rest := EverythingEnds(Next(s, e));
      StepFirst(s, e, rest);
      EndsUnfold(s.collector);
      events := [e] + rest;
    }
  }

  /** Whoever holds the mutex may make any changes. */
  lemma {:induction false} HolderWrites(s: Service, ops: seq<Op>) returns (events: seq<Event>)
    requires Bracketed(s) && s.holder.Some? && Legal(s.collector, ops)
    requires forall k :: 0 <= k < |ops| ==> ops[k].Write?
    ensures Possible(s, events) && After(s, events) == s.(collector := Run(s.collector, ops))
    decreases |ops|
  {
    if ops == [] {
      events := [];
    } else {
      var e := Stores(s.holder.value, ops[0].v, ops[0].x);
      assert OpOf(e) == ops[0];
      var rest := HolderWrites(Next(s, e), ops[1..]);
      StepFirst(s, e, rest);
      events := [e] + rest;
    }
  }

  lemma RiskIgnoresLevel(s: State, view: View)
    requires Inv(s) && StaleRisk(s, view)
    ensures Inv(Start(s)) && StaleRisk(Start(s), view)
  {
    StepKeepsInv(s, Begin);
    var t := Start(s);
    ReplayableNeedsNamesOnly(s, t, s.values, LastDocument(s)[|s.pending|..]);
    var v: nat :| Misses(s, view, v);
    assert Misses(t, view, v);
  }

  lemma HolderGrowsRepetition(s: Service, view: View) returns (events: seq<Event>)
    requires Bracketed(s) && s.holder.Some? && Inv(s.collector) && StaleRisk(s.collector, view)
    ensures Possible(s, events) && Idle(After(s, events))
    ensures After(s, events).collector.sent == s.collector.sent && !Agrees(After(s, events).collector, view)
  {
    var v: nat :| Misses(s.collector, view, v);
    var ops := GrowIntoRepetition(s.collector, view, v);
    var growing := HolderWrites(s, ops);
    var t := After(s, growing);
    RepetitionHidesMiss(t.collector, view, v);
    var ending := EverythingEnds(t);
    PossibleConcat(s, growing, ending);
    events := growing + ending;
  }

  lemma ServiceLeavesStale(s: Service, view: View) returns (events: seq<Event>)
    requires Bracketed(s) && Inv(s.collector) && Covers(s.collector, view)
    requires !(Behind(s.collector, view) && !StaleRisk(s.collector, view))
    ensures Possible(s, events) && Idle(After(s, events))
    ensures !Agrees(After(s, events).collector, Advance(view, s.collector, After(s, events).collector))
  {
    var c := s.collector;
    if !Behind(c, view) {
      var v: nat :| Evented(c, v) && c.names[v].value in view
                    && Last(c.pending, c.names[v].value).None? && view[c.names[v].value] != c.values[v];
      MissedValueStaysMissed(c, view, v);
      events := EverythingEnds(s);
    } else if s.holder.Some? {
      events := HolderGrowsRepetition(s, view);
      assert After(s, events).collector.sent[|c.sent|..] == [];
    } else {
      RiskIgnoresLevel(c, view);
      var rest := HolderGrowsRepetition(Next(s, Locks(0)), view);
      StepFirst(s, Locks(0), rest);
      events := [Locks(0)] + rest;
      assert After(s, events).collector.sent[|c.sent|..] == [];
    }
  }

  /** The same race for the service with its mutex and its actions: a snapshot is taken
      while nobody holds the mutex, any events happen, the subscription is accepted. The
      subscriber is right whenever the service is idle, in every interleaving that may
      follow, if and only if nothing was missed and there is no risk of a repetition. */
  lemma SubscribersAgreeIff(s: Service, between: seq<Event>)
    requires Bracketed(s) && Inv(s.collector) && s.holder.None? && Possible(s, between)
    ensures var t := After(s, between);
            (forall events: seq<Event> :: Possible(t, events) && Idle(After(t, events)) ==>
               Agrees(After(t, events).collector, Received(s.collector, t.collector, After(t, events).collector)))
            <==> NothingMissed(s.collector, t.collector) && !StaleRisk(t.collector, Snapshot(s.collector))
  {
    var t := After(s, between);
    var view := Snapshot(s.collector);
    InterleavingIsRun(s, between);
    RunKeepsInv(s.collector, Ops(between));
    SnapshotCovers(s.collector, t.collector);
    if NothingMissed(s.collector, t.collector) && !StaleRisk(t.collector, view) {
      forall events: seq<Event> | Possible(t, events) && Idle(After(t, events))
        ensures Agrees(After(t, events).collector, Received(s.collector, t.collector, After(t, events).collector))
      {
        InterleavingIsRun(t, events);
        SafeViewAgrees(t.collector, view, Ops(events));
      }
    } else {
      var events := ServiceLeavesStale(t, view);
      assert Possible(t, events) && Idle(After(t, events));
    }
  }

  /** In particular, a snapshot of the idle service is right whenever it is idle again
      if no document was sent before the acceptance. */
  lemma IdleViewsAgree(s: Service, between: seq<Event>, events: seq<Event>)
    requires Bracketed(s) && Inv(s.collector) && Idle(s) && Possible(s, between)
    requires After(s, between).collector.sent == s.collector.sent
    requires Possible(After(s, between), events) && Idle(After(After(s, between), events))
    ensures var t, u := After(s, between), After(After(s, between), events);
            Agrees(u.collector, Received(s.collector, t.collector, u.collector))
  {
    InterleavingIsRun(s, between);
    NothingSentNothingMissed(s.collector, Ops(between));
    SubscribersAgreeIff(s, between);
  }
}
