/** The LastChange collector as a state machine on values.
    A table of named variables, a pending document of changes, a transaction
    level, and the documents that were flushed and sent so far. The classes of
    VariableContainer.dfy are proved to step exactly like this machine. */
module LastChange {
  import opened Options

  /** The content of a variable. The variable "LastChange" holds a document,
      compared as the sequence of its entries. */
  datatype Value = Text(text: string) | Event(entries: seq<Entry>)

  datatype Entry = Entry(name: string, value: Value)

  type Document = seq<Entry>

  datatype State = State(
    names: seq<Option<string>>,  // None: variable not used
    lastChange: nat,             // index of the variable that is written by a flush
    ignored: set<nat>,           // variables that are not evented
    values: seq<Value>,
    open: nat,                   // nesting depth of transactions
    pending: Document,           // changes collected since the last flush
    flushed: seq<Document>,      // every document taken out of the builder
    sent: seq<Document>)         // those handed to the device for notification

  ghost predicate DistinctNames(names: seq<Option<string>>) {
    forall i, j :: 0 <= i < j < |names| && names[i].Some? ==> names[i] != names[j]
  }

  ghost predicate WellFormed(s: State) {
    && |s.values| == |s.names|
    && DistinctNames(s.names)
    && s.lastChange < |s.names|
    && s.names[s.lastChange] == Some("LastChange")
    && s.lastChange in s.ignored
  }

  predicate Evented(s: State, v: nat) {
    v < |s.names| && s.names[v].Some? && v !in s.ignored
  }

  /** The document that the variable "LastChange" holds. */
  function LastDocument(s: State): Document
    requires s.lastChange < |s.values|
  {
    if s.values[s.lastChange].Event? then s.values[s.lastChange].entries else []
  }

  // ---- Steps ----

  /** Move the pending document into the variable "LastChange", and send it
      unless that variable already held the same document. */
  function Flush(s: State): State
    requires s.lastChange < |s.values|
  {
    if s.open != 0 || s.pending == [] then s
    else s.(pending := [],
            values := s.values[s.lastChange := Event(s.pending)],
            flushed := s.flushed + [s.pending],
            sent := if s.values[s.lastChange] == Event(s.pending) then s.sent else s.sent + [s.pending])
  }

  /** The table when `v` has just got value `x`: the collector is told. */
  function Collect(s: State, v: nat, x: Value): State
    requires s.lastChange < |s.values|
    requires v in s.ignored || Evented(s, v)
  {
    if v in s.ignored then s
    else Flush(s.(pending := s.pending + [Entry(s.names[v].value, x)]))
  }

  function Change(s: State, v: nat, x: Value): State
    requires v < |s.values| && s.lastChange < |s.values|
    requires v in s.ignored || Evented(s, v)
  {
    if s.values[v] == x then s else Collect(s.(values := s.values[v := x]), v, x)
  }

  function Start(s: State): State {
    s.(open := s.open + 1)
  }

  function Finish(s: State): State
    requires s.open >= 1 && s.lastChange < |s.values|
  {
    Flush(s.(open := s.open - 1))
  }

  // ---- Runs ----

  datatype Op = Write(v: nat, x: Value) | Begin | End

  /** What the code's assertions demand of a caller; "LastChange" is left to the collector. */
  predicate Allowed(s: State, op: Op) {
    match op
    case Write(v, _) => v < |s.names| && v != s.lastChange && (v in s.ignored || Evented(s, v))
    case Begin => true
    case End => s.open >= 1
  }

  function Step(s: State, op: Op): State
    requires |s.values| == |s.names| && s.lastChange < |s.values| && Allowed(s, op)
  {
    match op
    case Write(v, x) => Change(s, v, x)
    case Begin => Start(s)
    case End => Finish(s)
  }

  predicate Legal(s: State, ops: seq<Op>)
    requires |s.values| == |s.names| && s.lastChange < |s.values|
    decreases |ops|
  {
    ops == [] || (Allowed(s, ops[0]) && Legal(Step(s, ops[0]), ops[1..]))
  }

  function Run(s: State, ops: seq<Op>): (t: State)
    requires |s.values| == |s.names| && s.lastChange < |s.values| && Legal(s, ops)
    ensures |t.values| == |t.names| && t.lastChange < |t.values|
    ensures t.names == s.names && t.lastChange == s.lastChange && t.ignored == s.ignored
    ensures s.sent <= t.sent && s.flushed <= t.flushed
    decreases |ops|
  {
    if ops == [] then s else Run(Step(s, ops[0]), ops[1..])
  }

  lemma {:induction false} RunConcat(s: State, a: seq<Op>, b: seq<Op>)
    requires |s.values| == |s.names| && s.lastChange < |s.values| && Legal(s, a)
    ensures Legal(s, a + b) <==> Legal(Run(s, a), b)
    ensures Legal(s, a + b) ==> Run(s, a + b) == Run(Run(s, a), b)
    decreases |a|
  {
    if a == [] {
      assert a + b == b;
    } else {
      assert (a + b)[0] == a[0] && (a + b)[1..] == a[1..] + b;
      RunConcat(Step(s, a[0]), a[1..], b);
    }
  }

  /** Every prefix of a legal run is legal. */
  lemma {:induction false} LegalPrefix(s: State, ops: seq<Op>, k: nat)
    requires |s.values| == |s.names| && s.lastChange < |s.values| && Legal(s, ops) && k <= |ops|
    ensures Legal(s, ops[..k])
    decreases |ops|
  {
    if k > 0 {
      LegalPrefix(Step(s, ops[0]), ops[1..], k - 1);
      assert ops[1..][..k - 1] == ops[..k][1..];
    }
  }

  /** No operation writes variable `v`. */
  ghost predicate Unwritten(ops: seq<Op>, v: nat) {
    forall i :: 0 <= i < |ops| && ops[i].Write? ==> ops[i].v != v
  }

  // ---- Documents, last write wins ----

  function Last(doc: Document, name: string): Option<Value> {
    if doc == [] then None
    else if doc[|doc| - 1].name == name then Some(doc[|doc| - 1].value)
    else Last(doc[..|doc| - 1], name)
  }

  lemma {:induction false} LastConcat(a: Document, b: Document, name: string)
    ensures Last(a + b, name) == if Last(b, name).Some? then Last(b, name) else Last(a, name)
    decreases |b|
  {
    if b == [] {
      assert a + b == a;
    } else {
      assert (a + b)[..|a + b| - 1] == a + b[..|b| - 1];
      LastConcat(a, b[..|b| - 1], name);
    }
  }

  // ---- The table written out as a document ----

  predicate ArgumentType(name: string) {
    "A_ARG_TYPE_" <= name
  }

  /** Is variable `v` part of a document about the whole table? The one made when
      the collector is created has `all` of them, the one for a new subscriber
      leaves out the A_ARG_TYPE_ variables. */
  predicate Listed(names: seq<Option<string>>, v: nat, all: bool) {
    && v < |names| && names[v].Some? && names[v].value != "LastChange"
    && (all || !ArgumentType(names[v].value))
  }

  function TableDocument(names: seq<Option<string>>, values: seq<Value>, n: nat, all: bool): Document
    requires n <= |names| == |values|
  {
    if n == 0 then []
    else
      TableDocument(names, values, n - 1, all) +
      if Listed(names, n - 1, all) then [Entry(names[n - 1].value, values[n - 1])] else []
  }

  lemma {:induction false} TableLast(names: seq<Option<string>>, values: seq<Value>, n: nat, all: bool, v: nat)
    requires n <= |names| == |values| && DistinctNames(names) && v < |names| && names[v].Some?
    ensures Last(TableDocument(names, values, n, all), names[v].value)
         == if v < n && Listed(names, v, all) then Some(values[v]) else None
    decreases n
  {
    if n > 0 {
      TableLast(names, values, n - 1, all, v);
      var tail := if Listed(names, n - 1, all) then [Entry(names[n - 1].value, values[n - 1])] else [];
      LastConcat(TableDocument(names, values, n - 1, all), tail, names[v].value);
      if v != n - 1 {
        assert names[v] != names[n - 1];
      }
    }
  }

  // ---- The invariant of the collector ----

  /** The table holds the last write of the pending document to a variable or,
      where that has none, the last write of the document sent before. */
  ghost predicate Held(s: State)
    requires WellFormed(s)
  {
    forall v: nat :: Evented(s, v) ==>
      var written := Last(LastDocument(s) + s.pending, s.names[v].value);
      written.Some? ==> s.values[v] == written.value
  }

  ghost predicate Inv(s: State) {
    && WellFormed(s)
    && (s.open == 0 ==> s.pending == [])
    && Held(s)
  }

  lemma ChangeKeepsHeld(s: State, v: nat, x: Value)
    requires WellFormed(s) && Held(s) && Evented(s, v)
    ensures Held(s.(values := s.values[v := x], pending := s.pending + [Entry(s.names[v].value, x)]))
  {
    var e := Entry(s.names[v].value, x);
    var t := s.(values := s.values[v := x], pending := s.pending + [e]);
    var old' := LastDocument(s) + s.pending;
    assert v != s.lastChange;
    assert LastDocument(t) + t.pending == old' + [e];
    forall w: nat | Evented(t, w)
      ensures var written := Last(LastDocument(t) + t.pending, t.names[w].value);
              written.Some? ==> t.values[w] == written.value
    {
      assert Evented(s, w);
      assert (old' + [e])[..|old' + [e]| - 1] == old';
    }
  }

  lemma FlushKeepsInv(s: State)
    requires WellFormed(s) && Held(s)
    ensures Inv(Flush(s))
  {
    if s.open == 0 && s.pending != [] {
      var t := Flush(s);
      forall w: nat | Evented(t, w)
        ensures var written := Last(LastDocument(t) + t.pending, t.names[w].value);
                written.Some? ==> t.values[w] == written.value
      {
        assert Evented(s, w);
        assert LastDocument(t) + t.pending == s.pending;
        LastConcat(LastDocument(s), s.pending, s.names[w].value);
      }
    }
  }

  /** Every step of the collector keeps its invariant. */
  lemma StepKeepsInv(s: State, op: Op)
    requires Inv(s) && Allowed(s, op)
    ensures Inv(Step(s, op))
  {
    match op
    case Write(v, x) =>
      if s.values[v] != x {
        if v in s.ignored {
          var t := Step(s, op);
          assert LastDocument(t) == LastDocument(s);
          forall w: nat | Evented(t, w)
            ensures var written := Last(LastDocument(t) + t.pending, t.names[w].value);
                    written.Some? ==> t.values[w] == written.value
          {
            assert Evented(s, w);
          }
        } else {
          ChangeKeepsHeld(s, v, x);
          FlushKeepsInv(s.(values := s.values[v := x], pending := s.pending + [Entry(s.names[v].value, x)]));
        }
      }
    case Begin =>
      HeldIgnoresLevel(s, s.open + 1);
    case End =>
      HeldIgnoresLevel(s, s.open - 1);
      FlushKeepsInv(s.(open := s.open - 1));
  }

  lemma HeldIgnoresLevel(s: State, level: nat)
    requires WellFormed(s) && Held(s)
    ensures Held(s.(open := level))
  {
  }

  lemma {:induction false} RunKeepsInv(s: State, ops: seq<Op>)
    requires Inv(s) && Legal(s, ops)
    ensures Inv(Run(s, ops))
    decreases |ops|
  {
    if ops != [] {
      StepKeepsInv(s, ops[0]);
      RunKeepsInv(Step(s, ops[0]), ops[1..]);
    }
  }

  /** The collector just created for a table: a first document tells everything. */
  function Created(names: seq<Option<string>>, values: seq<Value>, lastChange: nat): State
    requires |values| == |names| && lastChange < |names|
  {
    Flush(State(names, lastChange, {lastChange}, values, 0, TableDocument(names, values, |names|, true), [], []))
  }

  lemma CreatedIsInv(names: seq<Option<string>>, values: seq<Value>, lastChange: nat)
    requires |values| == |names| && lastChange < |names| && DistinctNames(names)
    requires names[lastChange] == Some("LastChange") && values[lastChange].Text?
    ensures Inv(Created(names, values, lastChange))
  {
    var s := State(names, lastChange, {lastChange}, values, 0, TableDocument(names, values, |names|, true), [], []);
    forall v: nat | Evented(s, v)
      ensures var written := Last(LastDocument(s) + s.pending, s.names[v].value);
              written.Some? ==> s.values[v] == written.value
    {
      assert LastDocument(s) + s.pending == s.pending;
      TableLast(names, values, |names|, true, v);
    }
    FlushKeepsInv(s);
  }

}
