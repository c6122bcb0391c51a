/** Actions and locked sections of one service, interleaved. An action raises the
    transaction level when it begins and lowers it when it ends, holding the
    service mutex only for that; in between, handlers and output callbacks take
    the mutex, raise the level, change variables, lower it and let go. */
module Bracketing {
  import opened Options
  import opened LastChange
  import opened Replica
  import opened ChangeLog

  datatype Service = Service(collector: State, inFlight: set<nat>, holder: Option<nat>)

  datatype Event =
    | ActionBegins(action: nat)
    | ActionEnds(action: nat)
    | Locks(thread: nat)
    | Stores(thread: nat, v: nat, x: Value)
    | Unlocks(thread: nat)

  /** What the mutex and the program order of each thread allow. */
  predicate Enabled(s: Service, e: Event) {
    match e
    case ActionBegins(a) => s.holder.None? && a !in s.inFlight
    case ActionEnds(a) => s.holder.None? && a in s.inFlight
    case Locks(_) => s.holder.None?
    case Stores(t, v, x) => s.holder == Some(t) && Allowed(s.collector, Write(v, x))
    case Unlocks(t) => s.holder == Some(t)
  }

  function OpOf(e: Event): Op {
    match e
    case ActionBegins(_) => Begin
    case ActionEnds(_) => End
    case Locks(_) => Begin
    case Stores(_, v, x) => Write(v, x)
    case Unlocks(_) => End
  }

  /** The transaction level counts the open actions and the locked section. */
  ghost predicate Bracketed(s: Service) {
    && WellFormed(s.collector)
    && s.collector.open == |s.inFlight| + if s.holder.Some? then 1 else 0
  }

  ghost predicate Idle(s: Service) {
    s.inFlight == {} && s.holder.None?
  }

  /** The same table later on: what was sent stays sent. */
  ghost predicate Follows(s: State, t: State) {
    t.names == s.names && t.ignored == s.ignored && s.sent <= t.sent
  }

  lemma StepFollows(s: State, op: Op)
    requires WellFormed(s) && Allowed(s, op)
    ensures var t := Step(s, op);
            && WellFormed(t) && Follows(s, t)
            && t.open == match op { case Write(_, _) => s.open case Begin => s.open + 1 case End => s.open - 1 }
  {
  }

  /** The step of the collector needs no guard of its own: when a section or an
      action finishes, the level is positive. */
  ghost function Next(s: Service, e: Event): (t: Service)
    requires Bracketed(s) && Enabled(s, e)
    ensures Bracketed(t) && Follows(s.collector, t.collector)
  {
    StepFollows(s.collector, OpOf(e));
    var c := Step(s.collector, OpOf(e));
    match e
    case ActionBegins(a) => Service(c, s.inFlight + {a}, s.holder)
    case ActionEnds(a) => Service(c, s.inFlight - {a}, s.holder)
    case Locks(t) => Service(c, s.inFlight, Some(t))
    case Stores(_, _, _) => Service(c, s.inFlight, s.holder)
    case Unlocks(_) => Service(c, s.inFlight, None)
  }

  ghost predicate Possible(s: Service, events: seq<Event>)
    requires Bracketed(s)
    decreases |events|
  {
    events == [] || (Enabled(s, events[0]) && Possible(Next(s, events[0]), events[1..]))
  }

  /** However actions and sections interleave, the level stays exactly the count. */
  ghost function After(s: Service, events: seq<Event>): (t: Service)
    requires Bracketed(s) && Possible(s, events)
    ensures Bracketed(t) && Follows(s.collector, t.collector)
    decreases |events|
  {
    if events == [] then s else After(Next(s, events[0]), events[1..])
  }

  function Ops(events: seq<Event>): seq<Op>
    decreases |events|
  {
    if events == [] then [] else [OpOf(events[0])] + Ops(events[1..])
  }

  lemma {:induction false} InterleavingIsRun(s: Service, events: seq<Event>)
    requires Bracketed(s) && Possible(s, events)
    ensures |Ops(events)| == |events|
    ensures Legal(s.collector, Ops(events))
    ensures After(s, events).collector == Run(s.collector, Ops(events))
    decreases |events|
  {
    if events != [] {
      InterleavingIsRun(Next(s, events[0]), events[1..]);
      assert Ops(events)[1..] == Ops(events[1..]);
    }
  }

  lemma {:induction false} PossiblePrefix(s: Service, events: seq<Event>, k: nat)
    requires Bracketed(s) && Possible(s, events) && k <= |events|
    ensures Possible(s, events[..k]) && |Ops(events)| == |events| && Ops(events[..k]) == Ops(events)[..k]
    decreases |events|
  {
    InterleavingIsRun(s, events);
    if k > 0 {
      PossiblePrefix(Next(s, events[0]), events[1..], k - 1);
      assert events[1..][..k - 1] == events[..k][1..];
    }
  }

  /** A step that sends or flushes leaves the service idle: no action is open and
      nobody holds the mutex. A variable changes only inside a transaction. */
  lemma EventsLeaveOnlyWhenIdle(s: Service, e: Event)
    requires Bracketed(s) && Enabled(s, e)
    ensures Next(s, e).collector.flushed != s.collector.flushed ==> Idle(Next(s, e))
    ensures Next(s, e).collector.sent != s.collector.sent ==> Idle(Next(s, e))
    ensures e.Stores? ==> s.collector.open > 0
  {
  }

  /** Overlapping actions: from an idle moment to the next one, all changes of all
      the actions and sections in between leave in one document. */
  lemma OverlappingActionsShareDocument(s: Service, events: seq<Event>)
    requires Bracketed(s) && Inv(s.collector) && Idle(s) && Possible(s, events) && Idle(After(s, events))
    requires forall k :: 0 < k < |events| ==> Possible(s, events[..k]) && !Idle(After(s, events[..k]))
    ensures var c := s.collector;
            var log := EffectiveChanges(c.names, c.ignored, c.values, Ops(events));
            After(s, events).collector.flushed == c.flushed + if log == [] then [] else [log]
  {
    var c, ops := s.collector, Ops(events);
    InterleavingIsRun(s, events);
    forall k | 0 < k < |ops|
      ensures Legal(c, ops[..k]) && Run(c, ops[..k]).open > 0
    {
      PossiblePrefix(s, events, k);
      InterleavingIsRun(s, events[..k]);
      assert !Idle(After(s, events[..k]));
    }
    OneDocumentPerTransaction(c, ops);
  }
}
