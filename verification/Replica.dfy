/** What a subscriber holds. It starts from the snapshot sent at subscription and
    applies every document it receives, the last write to a name winning. */
module Replica {
  import opened Options
  import opened LastChange

  type View = map<string, Value>

  function Apply(view: View, doc: Document): View {
    if doc == [] then view
    else Apply(view, doc[..|doc| - 1])[doc[|doc| - 1].name := doc[|doc| - 1].value]
  }

  function ApplyAll(view: View, docs: seq<Document>): View
    decreases |docs|
  {
    if docs == [] then view else ApplyAll(Apply(view, docs[0]), docs[1..])
  }

  lemma {:induction false} ApplyLookup(view: View, doc: Document, name: string)
    ensures name in Apply(view, doc) <==> name in view || Last(doc, name).Some?
    ensures name in Apply(view, doc) ==>
              Apply(view, doc)[name] == if Last(doc, name).Some? then Last(doc, name).value else view[name]
    decreases |doc|
  {
    if doc != [] {
      ApplyLookup(view, doc[..|doc| - 1], name);
    }
  }

  /** Applying a document twice changes nothing more. */
  lemma ApplyIdempotent(view: View, doc: Document)
    ensures Apply(Apply(view, doc), doc) == Apply(view, doc)
  {
    var once := Apply(view, doc);
    var twice := Apply(once, doc);
    forall name
      ensures name in twice <==> name in once
      ensures name in twice ==> twice[name] == once[name]
    {
      ApplyLookup(view, doc, name);
      ApplyLookup(once, doc, name);
    }
  }

  lemma {:induction false} ApplyAllConcat(view: View, a: seq<Document>, b: seq<Document>)
    ensures ApplyAll(view, a + b) == ApplyAll(ApplyAll(view, a), b)
    decreases |a|
  {
    if a == [] {
      assert a + b == b;
    } else {
      assert (a + b)[1..] == a[1..] + b;
      ApplyAllConcat(Apply(view, a[0]), a[1..], b);
    }
  }

  // ---- The snapshot ----

  function Snapshot(s: State): View
    requires |s.names| == |s.values|
  {
    Apply(map[], TableDocument(s.names, s.values, |s.names|, false))
  }

  /** A snapshot gives every variable it covers its value in the table. */
  lemma SnapshotIsTable(s: State, v: nat)
    requires WellFormed(s) && v < |s.names| && s.names[v].Some?
    ensures s.names[v].value in Snapshot(s) <==> Listed(s.names, v, false)
    ensures Listed(s.names, v, false) ==> Snapshot(s)[s.names[v].value] == s.values[v]
  {
    TableLast(s.names, s.values, |s.names|, false, v);
    ApplyLookup(map[], TableDocument(s.names, s.values, |s.names|, false), s.names[v].value);
  }

  // ---- Agreement ----

  /** The view has the table's value for every evented variable; it may lack
      an A_ARG_TYPE_ variable, which no snapshot contains. */
  ghost predicate Agrees(s: State, view: View)
    requires |s.values| == |s.names|
  {
    forall v: nat :: Evented(s, v) ==>
      var name := s.names[v].value;
      && (name in view ==> view[name] == s.values[v])
      && (!ArgumentType(name) ==> name in view)
  }

  /** The view would agree once it got the pending document. */
  ghost predicate Behind(s: State, view: View)
    requires |s.values| == |s.names|
  {
    forall v: nat :: Evented(s, v) ==>
      var name := s.names[v].value;
      && (name in view && Last(s.pending, name).None? ==> view[name] == s.values[v])
      && (!ArgumentType(name) ==> name in view)
  }

  function Find(names: seq<Option<string>>, name: string): (r: Option<nat>)
    ensures r.Some? ==> r.value < |names| && names[r.value] == Some(name)
    ensures r.None? ==> Some(name) !in names
  {
    if names == [] then None
    else if names[|names| - 1] == Some(name) then Some(|names| - 1)
    else Find(names[..|names| - 1], name)
  }

  /** Could these entries be logged, in this order, by changes made to this table? */
  predicate Replayable(s: State, values: seq<Value>, doc: Document)
    requires |values| == |s.names|
    decreases |doc|
  {
    doc == [] ||
    var v := Find(s.names, doc[0].name);
    && v.Some? && Evented(s, v.value) && values[v.value] != doc[0].value
    && Replayable(s, values[v.value := doc[0].value], doc[1..])
  }

  /** The open transaction may still grow into a repetition of the last document,
      which is then not sent although the view misses something of it. */
  ghost predicate StaleRisk(s: State, view: View)
    requires WellFormed(s)
  {
    && s.pending <= LastDocument(s)
    && Replayable(s, s.values, LastDocument(s)[|s.pending|..])
    && exists v: nat :: Misses(s, view, v)
  }

  ghost predicate Misses(s: State, view: View, v: nat)
    requires WellFormed(s)
  {
    && Evented(s, v) && s.names[v].value in view
    && Last(LastDocument(s), s.names[v].value).Some?
    && Last(LastDocument(s), s.names[v].value).value != view[s.names[v].value]
  }

  function Advance(view: View, s: State, t: State): View
    requires s.sent <= t.sent
  {
    ApplyAll(view, t.sent[|s.sent|..])
  }

  lemma AdvanceTwice(view: View, s: State, t: State, u: State)
    requires s.sent <= t.sent <= u.sent
    ensures Advance(view, s, u) == Advance(Advance(view, s, t), t, u)
  {
    assert u.sent[|s.sent|..] == t.sent[|s.sent|..] + u.sent[|t.sent|..];
    ApplyAllConcat(view, t.sent[|s.sent|..], u.sent[|t.sent|..]);
  }

  // ---- Every step keeps a safe view safe ----

  lemma FlushKeepsSafe(s: State, view: View)
    requires WellFormed(s) && Held(s) && Behind(s, view) && !StaleRisk(s, view)
    ensures Behind(Flush(s), Advance(view, s, Flush(s)))
    ensures !StaleRisk(Flush(s), Advance(view, s, Flush(s)))
  {
    var t := Flush(s);
    var after := Advance(view, s, t);
    if s.open != 0 || s.pending == [] {
      assert t == s && after == view;
    } else {
      FlushKeepsInv(s);
      var repeated := s.values[s.lastChange] == Event(s.pending);
      if repeated {
        assert after == view;
        assert LastDocument(s)[|s.pending|..] == [];
      } else {
        assert t.sent[|s.sent|..] == [s.pending];
        assert ApplyAll(view, [s.pending]) == Apply(view, s.pending);
      }
      forall v: nat | Evented(t, v)
        ensures !Misses(t, after, v)
        ensures var name := t.names[v].value;
                && (name in after && Last(t.pending, name).None? ==> after[name] == t.values[v])
                && (!ArgumentType(name) ==> name in after)
      {
        var name := s.names[v].value;
        assert Evented(s, v);
        assert !repeated || !Misses(s, view, v);
        ApplyLookup(view, s.pending, name);
        LastConcat(LastDocument(s), s.pending, name);
      }
    }
  }

  lemma ChangeKeepsSafe(s: State, view: View, v: nat, x: Value)
    requires Inv(s) && Behind(s, view) && !StaleRisk(s, view)
    requires Evented(s, v) && s.values[v] != x
    ensures var t := s.(values := s.values[v := x], pending := s.pending + [Entry(s.names[v].value, x)]);
            Behind(t, view) && !StaleRisk(t, view)
  {
    var e := Entry(s.names[v].value, x);
    var t := s.(values := s.values[v := x], pending := s.pending + [e]);
    assert LastDocument(t) == LastDocument(s);
    forall w: nat | Evented(t, w)
      ensures var name := t.names[w].value;
              && (name in view && Last(t.pending, name).None? ==> view[name] == t.values[w])
              && (!ArgumentType(name) ==> name in view)
      ensures Misses(t, view, w) ==> Misses(s, view, w)
    {
      assert Evented(s, w);
      assert t.pending[..|t.pending| - 1] == s.pending;
    }
    if StaleRisk(t, view) {
      var doc := LastDocument(s);
      assert s.pending <= doc && doc[|s.pending|] == e;
      assert doc[|s.pending|..][0] == e && doc[|s.pending|..][1..] == doc[|t.pending|..];
      FindIsInverse(s.names, v);
      ReplayableNeedsNamesOnly(t, s, t.values, doc[|t.pending|..]);
      assert StaleRisk(s, view);
    }
  }

  lemma {:induction false} FindIsInverse(names: seq<Option<string>>, v: nat)
    requires DistinctNames(names) && v < |names| && names[v].Some?
    ensures Find(names, names[v].value) == Some(v)
  {
  }

  lemma StepKeepsSafe(s: State, view: View, op: Op)
    requires Inv(s) && Allowed(s, op) && Behind(s, view) && !StaleRisk(s, view)
    ensures s.sent <= Step(s, op).sent
    ensures Behind(Step(s, op), Advance(view, s, Step(s, op)))
    ensures WellFormed(Step(s, op)) && !StaleRisk(Step(s, op), Advance(view, s, Step(s, op)))
  {
    StepKeepsInv(s, op);
    match op
    case Write(v, x) =>
      if s.values[v] != x {
        if v in s.ignored {
          SameEventedIsSafe(s, s.(values := s.values[v := x]), view);
        } else {
          var t := s.(values := s.values[v := x], pending := s.pending + [Entry(s.names[v].value, x)]);
          ChangeKeepsSafe(s, view, v, x);
          ChangeKeepsHeld(s, v, x);
          FlushKeepsSafe(t, view);
        }
      }
    case Begin =>
      SameEventedIsSafe(s, Start(s), view);
    case End =>
      var t := s.(open := s.open - 1);
      SameEventedIsSafe(s, t, view);
      HeldIgnoresLevel(s, s.open - 1);
      FlushKeepsSafe(t, view);
  }

  /** Safety of a view depends on the evented variables and the documents only. */
  lemma SameEventedIsSafe(s: State, t: State, view: View)
    requires WellFormed(s) && WellFormed(t)
    requires t.names == s.names && t.ignored == s.ignored && t.lastChange == s.lastChange
    requires t.pending == s.pending && t.values[t.lastChange] == s.values[s.lastChange]
    requires forall v: nat :: Evented(s, v) ==> t.values[v] == s.values[v]
    requires Behind(s, view) && !StaleRisk(s, view)
    ensures Behind(t, view) && !StaleRisk(t, view)
  {
    forall v: nat | Evented(t, v)
      ensures var name := t.names[v].value;
              && (name in view && Last(t.pending, name).None? ==> view[name] == t.values[v])
              && (!ArgumentType(name) ==> name in view)
      ensures Misses(t, view, v) ==> Misses(s, view, v)
    {
      assert Evented(s, v);
    }
    if t.pending <= LastDocument(t) {
      ReplayableReadsEvented(s, t.values, s.values, LastDocument(t)[|t.pending|..]);
      ReplayableNeedsNamesOnly(s, t, t.values, LastDocument(t)[|t.pending|..]);
    }
  }

  lemma {:induction false} ReplayableReadsEvented(s: State, a: seq<Value>, b: seq<Value>, doc: Document)
    requires |a| == |b| == |s.names|
    requires forall v: nat :: Evented(s, v) ==> a[v] == b[v]
    ensures Replayable(s, a, doc) == Replayable(s, b, doc)
    decreases |doc|
  {
    if doc != [] {
      var v := Find(s.names, doc[0].name);
      if v.Some? && Evented(s, v.value) && a[v.value] != doc[0].value {
        ReplayableReadsEvented(s, a[v.value := doc[0].value], b[v.value := doc[0].value], doc[1..]);
      }
    }
  }

  lemma {:induction false} ReplayableNeedsNamesOnly(s: State, t: State, values: seq<Value>, doc: Document)
    requires t.names == s.names && t.ignored == s.ignored && |values| == |s.names|
    ensures Replayable(s, values, doc) == Replayable(t, values, doc)
    decreases |doc|
  {
    if doc != [] {
      var v := Find(s.names, doc[0].name);
      assert v.Some? ==> Evented(s, v.value) == Evented(t, v.value);
      if v.Some? && Evented(s, v.value) && values[v.value] != doc[0].value {
        ReplayableNeedsNamesOnly(s, t, values[v.value := doc[0].value], doc[1..]);
      }
    }
  }

  // ---- Whole runs ----

  lemma {:induction false} RunKeepsSafe(s: State, view: View, ops: seq<Op>)
    requires Inv(s) && Legal(s, ops) && Behind(s, view) && !StaleRisk(s, view)
    ensures Inv(Run(s, ops))
    ensures Behind(Run(s, ops), Advance(view, s, Run(s, ops)))
    ensures !StaleRisk(Run(s, ops), Advance(view, s, Run(s, ops)))
    decreases |ops|
  {
    if ops == [] {
      assert s.sent[|s.sent|..] == [];
    } else {
      var t := Step(s, ops[0]);
      StepKeepsInv(s, ops[0]);
      StepKeepsSafe(s, view, ops[0]);
      RunKeepsSafe(t, Advance(view, s, t), ops[1..]);
      AdvanceTwice(view, s, t, Run(s, ops));
    }
  }

  lemma QuiescentAgrees(s: State, view: View)
    requires Inv(s) && s.open == 0
    ensures Behind(s, view) <==> Agrees(s, view)
  {
  }

  /** With no transaction open, a view that agrees is safe. */
  lemma QuiescentIsSafe(s: State, view: View)
    requires Inv(s) && s.open == 0 && Agrees(s, view)
    ensures Behind(s, view) && !StaleRisk(s, view)
  {
    QuiescentAgrees(s, view);
    forall v: nat | Evented(s, v)
      ensures !Misses(s, view, v)
    {
      assert LastDocument(s) + s.pending == LastDocument(s);
    }
  }

  /** A snapshot is at most behind, even when taken inside a transaction. */
  lemma SnapshotIsBehind(s: State)
    requires Inv(s)
    ensures Behind(s, Snapshot(s)) && Agrees(s, Snapshot(s))
  {
    forall v: nat | Evented(s, v)
      ensures var name := s.names[v].value;
              && (name in Snapshot(s) ==> Snapshot(s)[name] == s.values[v])
              && (!ArgumentType(name) ==> name in Snapshot(s))
    {
      assert v != s.lastChange;
      assert s.names[v] != s.names[s.lastChange];
      SnapshotIsTable(s, v);
    }
  }

  /** The ways a run may go on from `s` until no transaction is open. */
  ghost predicate Settles(s: State, ops: seq<Op>)
    requires WellFormed(s)
  {
    Legal(s, ops) && Run(s, ops).open == 0
  }

  /** Replication: after a snapshot taken while no transaction is open, the
      delivered documents keep the view equal to the table at every later moment
      at which no transaction is open, although repeated documents are not sent. */
  lemma ReplicaAgreement(s: State, ops: seq<Op>)
    requires Inv(s) && s.open == 0 && Settles(s, ops)
    ensures Agrees(Run(s, ops), Advance(Snapshot(s), s, Run(s, ops)))
  {
    SnapshotIsBehind(s);
    QuiescentIsSafe(s, Snapshot(s));
    RunKeepsSafe(s, Snapshot(s), ops);
    QuiescentAgrees(Run(s, ops), Advance(Snapshot(s), s, Run(s, ops)));
  }

  // ---- Subscribing inside a transaction ----

  /** The changes that log `doc`. */
  function Writes(names: seq<Option<string>>, doc: Document): seq<Op> {
    if doc == [] then []
    else [Write(Find(names, doc[0].name).GetOr(0), doc[0].value)] + Writes(names, doc[1..])
  }

  lemma {:induction false} WritesAreWrites(names: seq<Option<string>>, doc: Document)
    ensures forall k :: 0 <= k < |Writes(names, doc)| ==> Writes(names, doc)[k].Write?
    decreases |doc|
  {
    if doc != [] {
      WritesAreWrites(names, doc[1..]);
    }
  }

  lemma {:induction false} WritesLogDocument(s: State, doc: Document)
    requires WellFormed(s) && s.open > 0 && Replayable(s, s.values, doc)
    ensures Legal(s, Writes(s.names, doc))
    ensures var t := Run(s, Writes(s.names, doc));
            t.pending == s.pending + doc && t.open == s.open && t.sent == s.sent
            && t.values[t.lastChange] == s.values[s.lastChange]
    decreases |doc|
  {
    if doc != [] {
      var v := Find(s.names, doc[0].name).value;
      var t := Step(s, Write(v, doc[0].value));
      assert t.values == s.values[v := doc[0].value] && t.pending == s.pending + [doc[0]];
      ReplayableNeedsNamesOnly(s, t, t.values, doc[1..]);
      WritesLogDocument(t, doc[1..]);
      assert Writes(s.names, doc)[0] == Write(v, doc[0].value);
      assert Writes(s.names, doc)[1..] == Writes(s.names, doc[1..]);
      assert s.pending + doc == t.pending + doc[1..];
    }
  }

  function Ends(n: nat): seq<Op> {
    if n == 0 then [] else [End] + Ends(n - 1)
  }

  /** Ending all open transactions sends the pending document unless it repeats the
      last one, and leaves the variables as they are. */
  lemma {:induction false} EndsFlushPending(s: State)
    requires WellFormed(s) && (s.open == 0 ==> s.pending == [])
    ensures Settles(s, Ends(s.open))
    ensures var t := Run(s, Ends(s.open));
            && (forall v: nat :: v < |s.values| && v != s.lastChange ==> t.values[v] == s.values[v])
            && t.sent == if s.pending == [] || s.values[s.lastChange] == Event(s.pending) then s.sent
                         else s.sent + [s.pending]
    decreases s.open
  {
    if s.open > 0 {
      var t := Step(s, End);
      assert Ends(s.open)[0] == End && Ends(s.open)[1..] == Ends(s.open - 1);
      if s.open > 1 {
        EndsFlushPending(t);
      } else {
        assert Run(t, []) == t;
      }
    }
  }

  lemma RepetitionHidesMiss(s: State, view: View, v: nat)
    requires Inv(s) && s.open > 0 && Misses(s, view, v) && s.pending == LastDocument(s)
    ensures Settles(s, Ends(s.open)) && Run(s, Ends(s.open)).sent == s.sent
    ensures !Agrees(Run(s, Ends(s.open)), view)
  {
    EndsFlushPending(s);
    LastConcat(LastDocument(s), s.pending, s.names[v].value);
    var t := Run(s, Ends(s.open));
    assert Evented(t, v) && v != s.lastChange && t.values[v] != view[s.names[v].value];
  }

  /** A value that the pending document does not bring is never brought. */
  lemma MissedValueStaysMissed(s: State, view: View, v: nat)
    requires Inv(s) && Evented(s, v) && s.names[v].value in view
    requires Last(s.pending, s.names[v].value).None? && view[s.names[v].value] != s.values[v]
    ensures Settles(s, Ends(s.open))
    ensures !Agrees(Run(s, Ends(s.open)), Advance(view, s, Run(s, Ends(s.open))))
  {
    EndsFlushPending(s);
    var t := Run(s, Ends(s.open));
    var name := s.names[v].value;
    assert Evented(t, v) && v != s.lastChange && t.values[v] == s.values[v];
    var news := t.sent[|s.sent|..];
    assert news == [] || news == [s.pending];
    if news != [] {
      assert ApplyAll(view, [s.pending]) == Apply(view, s.pending);
      ApplyLookup(view, s.pending, name);
    }
  }

  lemma WritesKeepMiss(s: State, view: View, v: nat, ops: seq<Op>)
    requires Inv(s) && s.open > 0 && Misses(s, view, v) && Legal(s, ops)
    requires Run(s, ops).values[s.lastChange] == s.values[s.lastChange]
    ensures Inv(Run(s, ops)) && LastDocument(Run(s, ops)) == LastDocument(s) && Misses(Run(s, ops), view, v)
  {
    RunKeepsInv(s, ops);
    assert Evented(Run(s, ops), v);
  }

  lemma GrowBy(s: State, view: View, v: nat, rest: Document)
    requires Inv(s) && s.open > 0 && Misses(s, view, v)
    requires Replayable(s, s.values, rest) && s.pending + rest == LastDocument(s)
    ensures var ops := Writes(s.names, rest);
            && Legal(s, ops) && (forall k :: 0 <= k < |ops| ==> ops[k].Write?)
            && var t := Run(s, ops);
               && Inv(t) && t.open == s.open && t.sent == s.sent
               && t.pending == LastDocument(t) && Misses(t, view, v)
  {
    WritesLogDocument(s, rest);
    WritesAreWrites(s.names, rest);
    WritesKeepMiss(s, view, v, Writes(s.names, rest));
  }

  lemma GrowIntoRepetition(s: State, view: View, v: nat) returns (ops: seq<Op>)
    requires Inv(s) && s.open > 0 && StaleRisk(s, view) && Misses(s, view, v)
    ensures Legal(s, ops) && Inv(Run(s, ops)) && Run(s, ops).open == s.open && Run(s, ops).sent == s.sent
    ensures forall k :: 0 <= k < |ops| ==> ops[k].Write?
    ensures Run(s, ops).pending == LastDocument(Run(s, ops)) && Misses(Run(s, ops), view, v)
  {
    var rest := LastDocument(s)[|s.pending|..];
    assert s.pending + rest == LastDocument(s);
    GrowBy(s, view, v, rest);
    ops := Writes(s.names, rest);
  }

  /** Where there is a risk, some way to end the transaction leaves the view stale. */
  lemma RiskMaterialises(s: State, view: View) returns (ops: seq<Op>)
    requires Inv(s) && s.open > 0 && StaleRisk(s, view)
    ensures Settles(s, ops) && !Agrees(Run(s, ops), Advance(view, s, Run(s, ops)))
  {
    var v: nat :| Misses(s, view, v);
    var growing := GrowIntoRepetition(s, view, v);
    var t := Run(s, growing);
    RepetitionHidesMiss(t, view, v);
    ops := growing + Ends(t.open);
    RunConcat(s, growing, Ends(t.open));
    assert Run(s, ops).sent[|s.sent|..] == [];
  }

  /** The view has all that a snapshot has. */
  ghost predicate Covers(s: State, view: View) {
    forall v: nat :: Evented(s, v) && !ArgumentType(s.names[v].value) ==> s.names[v].value in view
  }

  lemma SafeViewAgrees(s: State, view: View, ops: seq<Op>)
    requires Inv(s) && Behind(s, view) && !StaleRisk(s, view) && Settles(s, ops)
    ensures Agrees(Run(s, ops), Advance(view, s, Run(s, ops)))
  {
    RunKeepsSafe(s, view, ops);
    QuiescentAgrees(Run(s, ops), Advance(view, s, Run(s, ops)));
  }

  lemma UnsafeViewDisagrees(s: State, view: View) returns (ops: seq<Op>)
    requires Inv(s) && Covers(s, view) && !(Behind(s, view) && !StaleRisk(s, view))
    ensures Settles(s, ops) && !Agrees(Run(s, ops), Advance(view, s, Run(s, ops)))
  {
    if !Behind(s, view) {
      var v: nat :| Evented(s, v) && s.names[v].value in view
                    && Last(s.pending, s.names[v].value).None? && view[s.names[v].value] != s.values[v];
      MissedValueStaysMissed(s, view, v);
      ops := Ends(s.open);
    } else {
      if s.open == 0 {
        QuiescentAgrees(s, view);
        QuiescentIsSafe(s, view);
      }
      ops := RiskMaterialises(s, view);
    }
  }

  /** Any view, at any moment: applying what is sent from then on, it agrees with the
      table whenever no transaction is open, in every possible run, if and only if it
      is at most the pending document behind, and the open transaction cannot grow
      into a repetition that is suppressed. */
  lemma AgreementIff(s: State, view: View)
    requires Inv(s) && Covers(s, view)
    ensures (forall ops: seq<Op> :: Settles(s, ops) ==> Agrees(Run(s, ops), Advance(view, s, Run(s, ops))))
            <==> Behind(s, view) && !StaleRisk(s, view)
  {
    if Behind(s, view) && !StaleRisk(s, view) {
      forall ops: seq<Op> | Settles(s, ops)
        ensures Agrees(Run(s, ops), Advance(view, s, Run(s, ops)))
      {
        SafeViewAgrees(s, view, ops);
      }
    } else {
      var ops := UnsafeViewDisagrees(s, view);
      assert Settles(s, ops);
    }
  }

  /** For a snapshot that is accepted at once only the second half is left. */
  lemma AgreementIffNoRisk(s: State)
    requires Inv(s)
    ensures (forall ops: seq<Op> :: Settles(s, ops) ==> Agrees(Run(s, ops), Advance(Snapshot(s), s, Run(s, ops))))
            <==> !StaleRisk(s, Snapshot(s))
  {
    SnapshotIsBehind(s);
    AgreementIff(s, Snapshot(s));
  }

  function Toggle(x: string): Op {
    Write(1, Text(x))
  }

  const UP := Entry("Mute", Text("1"))
  const DOWN := Entry("Mute", Text("0"))

  ghost predicate MuteTable(s: State, open: nat, pending: Document, last: Value, mute: string) {
    && s.names == [Some("LastChange"), Some("Mute")] && s.ignored == {0} && s.lastChange == 0
    && s.values == [last, Text(mute)] && s.pending == pending && s.open == open
  }

  lemma ToggleInside(s: State, pending: Document, last: Value, mute: string, x: string)
    requires MuteTable(s, 1, pending, last, mute) && x != mute
    ensures Allowed(s, Toggle(x))
    ensures MuteTable(Step(s, Toggle(x)), 1, pending + [Entry("Mute", Text(x))], last, x)
  {
  }

  lemma ToggleCycle(s: State, last: Value) returns (states: seq<State>)
    requires MuteTable(s, 0, [], last, "0")
    ensures |states| == 5 && states[0] == s
    ensures MuteTable(states[1], 1, [], last, "0") && states[1] == Step(s, Begin)
    ensures MuteTable(states[2], 1, [UP], last, "1") && states[2] == Step(states[1], Toggle("1"))
    ensures MuteTable(states[3], 1, [UP, DOWN], last, "0") && states[3] == Step(states[2], Toggle("0"))
    ensures MuteTable(states[4], 0, [], Event([UP, DOWN]), "0") && states[4] == Step(states[3], End)
  {
    var s1 := Step(s, Begin);
    ToggleInside(s1, [], last, "0", "1");
    var s2 := Step(s1, Toggle("1"));
    ToggleInside(s2, [UP], last, "1", "0");
    var s3 := Step(s2, Toggle("0"));
    states := [s, s1, s2, s3, Step(s3, End)];
  }

  lemma MuteTableCreated() returns (s: State)
    ensures Inv(s) && MuteTable(s, 0, [], Event([DOWN]), "0")
  {
    var names: seq<Option<string>> := [Some("LastChange"), Some("Mute")];
    var values := [Text(""), Text("0")];
    assert !Listed(names, 0, true) && Listed(names, 1, true);
    assert TableDocument(names, values, 1, true) == [];
    assert TableDocument(names, values, 2, true) == [DOWN];
    s := Created(names, values, 0);
    CreatedIsInv(names, values, 0);
  }

  lemma ToggledTwice() returns (start: State, before: seq<Op>, s: State)
    ensures Inv(start) && start.open == 0 && Legal(start, before) && s == Run(start, before)
    ensures MuteTable(s, 1, [UP], Event([UP, DOWN]), "1")
  {
    start := MuteTableCreated();
    var a := ToggleCycle(start, Event([DOWN]));
    var b := ToggleCycle(a[4], Event([UP, DOWN]));
    s := b[2];
    before := [Begin, Toggle("1"), Toggle("0"), End, Begin, Toggle("1")];
    RunUnfolds(start, before, [a[0], a[1], a[2], a[3], a[4], b[1], b[2]]);
  }

  /** The risk is real: a table with one variable that is twice set to "1" and back
      to "0" within a transaction. Who subscribes inside the second transaction,
      after the first write, never hears that the variable is "0" again. */
  lemma SubscribingInsideTransaction() returns (start: State, before: seq<Op>, after: seq<Op>)
    ensures Inv(start) && start.open == 0 && Legal(start, before)
    ensures var s := Run(start, before);
            && Inv(s) && Settles(s, after)
            && !Agrees(Run(s, after), Advance(Snapshot(s), s, Run(s, after)))
  {
    var s;
    start, before, s := ToggledTwice();
    RunKeepsInv(start, before);
    assert LastDocument(s)[1..] == [DOWN];
    FindIsInverse(s.names, 1);
    SnapshotIsTable(s, 1);
    assert Evented(s, 1) && Last([UP, DOWN], "Mute") == Some(Text("0"));
    assert Misses(s, Snapshot(s), 1);
    after := RiskMaterialises(s, Snapshot(s));
  }

  lemma {:induction false} RunUnfolds(s: State, ops: seq<Op>, states: seq<State>)
    requires |states| == |ops| + 1 && states[0] == s
    requires forall i :: 0 <= i < |states| ==>
               |states[i].values| == |states[i].names| && states[i].lastChange < |states[i].values|
    requires forall i :: 0 <= i < |ops| ==> Allowed(states[i], ops[i]) && states[i + 1] == Step(states[i], ops[i])
    ensures Legal(s, ops) && Run(s, ops) == states[|ops|]
    decreases |ops|
  {
    if ops != [] {
      RunUnfolds(states[1], ops[1..], states[1..]);
    }
  }

  // ---- What a view can be between two quiescent moments ----

  lemma NothingSentWhileOpen(s: State, op: Op)
    requires |s.values| == |s.names| && s.lastChange < |s.values| && Allowed(s, op)
    requires Step(s, op).open > 0
    ensures Step(s, op).sent == s.sent && Step(s, op).flushed == s.flushed
  {
  }

  /** At every moment of a run, the view of a subscriber is the table as it was
      at some moment of that run at which no transaction was open. */
  lemma {:induction false} ViewIsCommitted(s: State, ops: seq<Op>) returns (k: nat)
    requires Inv(s) && s.open == 0 && Legal(s, ops)
    ensures k <= |ops| && Settles(s, ops[..k])
    ensures Agrees(Run(s, ops[..k]), Advance(Snapshot(s), s, Run(s, ops)))
    decreases |ops|
  {
    if Run(s, ops).open == 0 {
      k := |ops|;
      assert ops[..k] == ops;
      ReplicaAgreement(s, ops);
    } else {
      var n := |ops| - 1;
      LegalPrefix(s, ops, n);
      assert ops == ops[..n] + [ops[n]];
      RunConcat(s, ops[..n], [ops[n]]);
      var t := Run(s, ops[..n]);
      assert Run(t, [ops[n]]) == Step(t, ops[n]);
      NothingSentWhileOpen(t, ops[n]);
      k := ViewIsCommitted(s, ops[..n]);
      assert ops[..n][..k] == ops[..k];
    }
  }
}
