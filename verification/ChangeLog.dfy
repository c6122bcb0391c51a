/** Nothing is lost or invented on the way into the documents: they spell out the
    changes of a plain table that knows no collector. */
module ChangeLog {
  import opened Options
  import opened LastChange
  import opened Sequences

  function Concat(docs: seq<Document>): Document {
    if docs == [] then [] else Concat(docs[..|docs| - 1]) + docs[|docs| - 1]
  }

  /** A plain table: a value is overwritten, and that is all. */
  function Overwrite(values: seq<Value>, op: Op): (r: seq<Value>)
    ensures |r| == |values|
  {
    if op.Write? && op.v < |values| then values[op.v := op.x] else values
  }

  function PlainTable(values: seq<Value>, ops: seq<Op>): (r: seq<Value>)
    ensures |r| == |values|
    decreases |ops|
  {
    if ops == [] then values else PlainTable(Overwrite(values, ops[0]), ops[1..])
  }

  /** The entry of an effective change to an evented variable. */
  function Recorded(names: seq<Option<string>>, ignored: set<nat>, values: seq<Value>, op: Op): Document
    requires |values| == |names|
  {
    if op.Write? && op.v < |values| && values[op.v] != op.x && op.v !in ignored && names[op.v].Some?
    then [Entry(names[op.v].value, op.x)]
    else []
  }

  /** The chronological log of all effective changes to evented variables that
      `ops` make to a plain table, repeats of a variable kept. */
  function EffectiveChanges(names: seq<Option<string>>, ignored: set<nat>, values: seq<Value>, ops: seq<Op>): Document
    requires |values| == |names|
    decreases |ops|
  {
    if ops == [] then []
    else
      Recorded(names, ignored, values, ops[0])
      + EffectiveChanges(names, ignored, Overwrite(values, ops[0]), ops[1..])
  }

  ghost predicate SameBut(a: seq<Value>, b: seq<Value>, i: nat) {
    |a| == |b| && forall j :: 0 <= j < |a| && j != i ==> a[j] == b[j]
  }

  lemma {:induction false} OtherSlotIrrelevant(names: seq<Option<string>>, ignored: set<nat>,
                                               a: seq<Value>, b: seq<Value>, i: nat, ops: seq<Op>)
    requires |names| == |a| && SameBut(a, b, i)
    requires forall k :: 0 <= k < |ops| && ops[k].Write? ==> ops[k].v != i
    ensures EffectiveChanges(names, ignored, a, ops) == EffectiveChanges(names, ignored, b, ops)
    ensures SameBut(PlainTable(a, ops), PlainTable(b, ops), i)
    decreases |ops|
  {
    if ops != [] {
      OtherSlotIrrelevant(names, ignored, Overwrite(a, ops[0]), Overwrite(b, ops[0]), i, ops[1..]);
    }
  }

  lemma {:induction false} LegalAvoidsLastChange(s: State, ops: seq<Op>)
    requires WellFormed(s) && Legal(s, ops)
    ensures forall k :: 0 <= k < |ops| && ops[k].Write? ==> ops[k].v != s.lastChange
    decreases |ops|
  {
    if ops != [] {
      LegalAvoidsLastChange(Step(s, ops[0]), ops[1..]);
      forall k | 0 <= k < |ops| && ops[k].Write?
        ensures ops[k].v != s.lastChange
      {
        if k > 0 {
          assert ops[k] == ops[1..][k - 1];
        }
      }
    }
  }

  /** The log of a state: what was flushed, then what is pending. */
  function Logged(s: State): Document {
    Concat(s.flushed) + s.pending
  }

  /** Each step adds to the log what the plain table records. */
  lemma StepLogs(s: State, op: Op)
    requires WellFormed(s) && Allowed(s, op)
    ensures Logged(Step(s, op)) == Logged(s) + Recorded(s.names, s.ignored, s.values, op)
    ensures SameBut(Overwrite(s.values, op), Step(s, op).values, s.lastChange)
  {
  }

  /** Conservation: all flushed documents in order, sent or suppressed, followed
      by the pending one, are the log of the plain table; and but for the
      variable "LastChange" the two tables are the same. */
  lemma {:induction false} LogIsConserved(s: State, ops: seq<Op>)
    requires WellFormed(s) && Legal(s, ops)
    ensures Logged(Run(s, ops)) == Logged(s) + EffectiveChanges(s.names, s.ignored, s.values, ops)
    ensures SameBut(Run(s, ops).values, PlainTable(s.values, ops), s.lastChange)
    decreases |ops|
  {
    if ops != [] {
      var t := Step(s, ops[0]);
      StepLogs(s, ops[0]);
      LogIsConserved(t, ops[1..]);
      LegalAvoidsLastChange(t, ops[1..]);
      var plain := Overwrite(s.values, ops[0]);
      OtherSlotIrrelevant(s.names, s.ignored, plain, t.values, s.lastChange, ops[1..]);
      Regroup(Logged(s), Recorded(s.names, s.ignored, s.values, ops[0]),
              EffectiveChanges(s.names, s.ignored, plain, ops[1..]));
    }
  }

  /** Between its first and last moment the run is inside a transaction. */
  ghost predicate Covered(s: State, ops: seq<Op>)
    requires WellFormed(s) && Legal(s, ops)
  {
    forall k :: 0 < k < |ops| ==> Legal(s, ops[..k]) && Run(s, ops[..k]).open > 0
  }

  lemma {:induction false} NothingFlushedWhileCovered(s: State, ops: seq<Op>, k: nat)
    requires WellFormed(s) && Legal(s, ops) && Covered(s, ops) && k < |ops|
    ensures Legal(s, ops[..k]) && Run(s, ops[..k]).flushed == s.flushed && Run(s, ops[..k]).sent == s.sent
    decreases k
  {
    if k == 0 {
      assert ops[..0] == [];
    } else {
      NothingFlushedWhileCovered(s, ops, k - 1);
      assert ops[..k] == ops[..k - 1] + [ops[k - 1]];
      RunConcat(s, ops[..k - 1], [ops[k - 1]]);
      var t := Run(s, ops[..k - 1]);
      assert Run(t, [ops[k - 1]]) == Step(t, ops[k - 1]);
    }
  }

  lemma QuiescentLog(s: State, ops: seq<Op>)
    requires Inv(s) && s.open == 0 && Legal(s, ops) && Run(s, ops).open == 0
    ensures Concat(Run(s, ops).flushed)
         == Concat(s.flushed) + EffectiveChanges(s.names, s.ignored, s.values, ops)
  {
    RunKeepsInv(s, ops);
    LogIsConserved(s, ops);
    assert Logged(s) == Concat(s.flushed) && Logged(Run(s, ops)) == Concat(Run(s, ops).flushed);
  }

  lemma ConcatUnfolds(docs: seq<Document>)
    requires docs != []
    ensures Concat(docs) == Concat(docs[..|docs| - 1]) + docs[|docs| - 1]
  {
  }

  lemma LastIsLog(docs: seq<Document>, more: seq<Document>, log: Document)
    requires more != [] && more[..|more| - 1] == docs
    requires Concat(docs) + more[|more| - 1] == Concat(docs) + log
    ensures log == more[|more| - 1] && more == docs + [log]
  {
    Cancel(Concat(docs), log, more[|more| - 1]);
    assert more == more[..|more| - 1] + [more[|more| - 1]];
  }

  lemma LastOfConcat(docs: seq<Document>, more: seq<Document>, log: Document)
    requires Concat(more) == Concat(docs) + log
    requires more == docs || (|more| > 0 && more[..|more| - 1] == docs && more[|more| - 1] != [])
    ensures more == docs + if log == [] then [] else [log]
  {
    if more == docs {
      assert Concat(docs) + [] == Concat(docs);
      Cancel(Concat(docs), log, []);
    } else {
      ConcatUnfolds(more);
      LastIsLog(docs, more, log);
    }
  }

  lemma LastStepFlushes(s: State, ops: seq<Op>)
    requires WellFormed(s) && Legal(s, ops) && Covered(s, ops) && ops != []
    ensures var more := Run(s, ops).flushed;
            more == s.flushed || (|more| > 0 && more[..|more| - 1] == s.flushed && more[|more| - 1] != [])
  {
    var n := |ops| - 1;
    NothingFlushedWhileCovered(s, ops, n);
    assert ops == ops[..n] + [ops[n]];
    RunConcat(s, ops[..n], [ops[n]]);
    StepFlushesOne(Run(s, ops[..n]), ops[n]);
  }

  /** However transactions overlap, their changes leave together: from a quiescent
      moment to the next one, at most one document is flushed, and it is the log
      of everything that changed in between. */
  lemma OneDocumentPerTransaction(s: State, ops: seq<Op>)
    requires Inv(s) && s.open == 0 && Legal(s, ops) && Covered(s, ops) && Run(s, ops).open == 0
    ensures var log := EffectiveChanges(s.names, s.ignored, s.values, ops);
            Run(s, ops).flushed == s.flushed + if log == [] then [] else [log]
  {
    if ops != [] {
      LastStepFlushes(s, ops);
      QuiescentLog(s, ops);
      LastOfConcat(s.flushed, Run(s, ops).flushed, EffectiveChanges(s.names, s.ignored, s.values, ops));
    }
  }

  lemma StepFlushesOne(s: State, op: Op)
    requires WellFormed(s) && Allowed(s, op)
    ensures Legal(s, [op]) && Run(s, [op]) == Step(s, op)
    ensures var more := Step(s, op).flushed;
            more == s.flushed || (|more| > 0 && more[..|more| - 1] == s.flushed && more[|more| - 1] != [])
  {
  }
}
