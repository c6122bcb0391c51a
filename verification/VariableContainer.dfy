/** The table of state variables, the builder of LastChange documents and the
    collector between them. A change calls the listeners; the collector is one of
    them and may write its document back into the same table, which calls the
    listeners again. Each method is proved to take one step of LastChange.State. */
module VariableContainer {
  import opened IgnoreMask
  import opened Options
  import opened LastChange

  // ---- The table ----

  /** A registered callback: the collector of this table, or the log of main.c,
      which changes nothing. */
  datatype Listener = Collecting(collector: LastChangeCollector) | Logging

  class VariableTable {
    const names: seq<Option<string>>
    var values: seq<Value>
    var callbacks: seq<Listener>

    /** Initial contents that are missing become the empty string. */
    constructor (names: seq<Option<string>>, init: seq<Option<Value>>)
      requires 0 < |names| == |init|
      ensures this.names == names && callbacks == [] && |values| == |names|
      ensures forall i :: 0 <= i < |values| ==> values[i] == init[i].GetOr(Text(""))
    {
      this.names := names;
      callbacks := [];
      new;
      values := [];
      for i := 0 to |names|
        invariant |values| == i && callbacks == []
        invariant forall j :: 0 <= j < i ==> values[j] == init[j].GetOr(Text(""))
      {
        values := values + [init[i].GetOr(Text(""))];
      }
    }

    /** The value of a variable, none if there is no such variable or it has no name. */
    function Get(v: int): (r: Option<Value>)
      reads this
      requires |values| == |names|
      ensures r.Some? <==> 0 <= v < |names| && names[v].Some?
      ensures r.Some? ==> r.value == values[v]
    {
      if v < 0 || v >= |names| || names[v].None? then None else Some(values[v])
    }

    /** Registered at the front: the listener that came last is called first. */
    method RegisterCallback(listener: Listener)
      modifies this`callbacks
      ensures callbacks == [listener] + old(callbacks)
    {
      callbacks := [listener] + callbacks;
    }

    /** Store `x`, no value meaning the empty string, and call the listeners if
        that changed anything. Terminates although listeners call it again: a
        change of an ignored variable makes no further change. */
    method Change(ghost c: LastChangeCollector, v: int, x: Option<Value>) returns (changed: bool)
      requires c.container == this && c.Valid()
      requires 0 <= v < |names| && (names[v].Some? || v in c.Ignored())
      modifies this`values, c`sent, c`flushed, c.builder
      ensures c.Valid()
      ensures changed <==> old(values)[v] != x.GetOr(Text(""))
      ensures c.State() == (
        if c.registered then LastChange.Change(old(c.State()), v, x.GetOr(Text("")))
        else old(c.State()).(values := old(values)[v := x.GetOr(Text(""))]))
      decreases if v in c.Ignored() then 0 else 1, 3
    {
      var content := x.GetOr(Text(""));
      changed := Store(v, content);
      if !changed {
        return;
      }
      ghost var stored := c.State();
      for it := 0 to |callbacks|
        invariant c.Valid()
        invariant c.State()
               == if Collecting(c) in callbacks[..it] then LastChange.Collect(stored, v, content) else stored
      {
        assert callbacks[..it + 1] == callbacks[..it] + [callbacks[it]];
        assert callbacks[it] in c.container.callbacks;
        CallListener(c, callbacks[it], v, content);
      }
      assert callbacks[..|callbacks|] == callbacks;
    }

    method CallListener(ghost c: LastChangeCollector, listener: Listener, v: int, content: Value)
      requires c.container == this && c.Valid() && (listener == Logging || listener == Collecting(c))
      requires 0 <= v < |names| && (names[v].Some? || v in c.Ignored())
      modifies this`values, c`sent, c`flushed, c.builder
      ensures c.Valid()
      ensures c.State() == if listener.Logging? then old(c.State()) else Collect(old(c.State()), v, content)
      decreases if v in c.Ignored() then 0 else 1, 2
    {
      match listener
      case Collecting(k) =>
        k.Callback(v, names[v], content);
      case Logging =>
    }

    method Store(v: int, content: Value) returns (changed: bool)
      requires 0 <= v < |values|
      modifies this`values
      ensures values == old(values)[v := content]
      ensures changed <==> old(values)[v] != content
    {
      changed := content != values[v];
      if changed {
        values := values[v := content];
      }
    }

    /** The same for a table without a collector: whoever listens changes nothing. */
    method ChangeUncollected(v: int, x: Option<Value>) returns (changed: bool)
      requires 0 <= v < |names| == |values|
      requires forall l :: l in callbacks ==> l == Logging
      modifies this`values
      ensures values == old(values)[v := x.GetOr(Text(""))]
      ensures changed <==> old(values)[v] != x.GetOr(Text(""))
    {
      changed := Store(v, x.GetOr(Text("")));
    }
  }

  // ---- The builder ----

  class LastChangeBuilder {
    var doc: Option<Document>

    constructor ()
      ensures doc == None
    {
      doc := None;
    }

    ghost predicate Valid()
      reads this
    {
      doc.Some? ==> doc.value != []
    }

    function Pending(): Document
      reads this
    {
      doc.GetOr([])
    }

    method Add(name: string, value: Value)
      requires Valid()
      modifies this
      ensures Valid() && Pending() == old(Pending()) + [Entry(name, value)]
    {
      if doc == None {
        doc := Some([]);
      }
      doc := Some(doc.value + [Entry(name, value)]);
    }

    /** The document, none if nothing was added; the builder starts afresh. */
    method ToXml() returns (r: Option<Document>)
      requires Valid()
      modifies this
      ensures Valid() && Pending() == []
      ensures r == if old(Pending()) == [] then None else Some(old(Pending()))
    {
      r := doc;
      doc := None;
    }
  }

  /** Add all variables but "LastChange", and find that one. */
  method DescribeTable(table: VariableTable, builder: LastChangeBuilder) returns (lastChangeVariable: int)
    requires builder.Valid() && builder.Pending() == []
    requires |table.values| == |table.names| && Some("LastChange") in table.names
    modifies builder
    ensures builder.Valid()
    ensures builder.Pending() == TableDocument(table.names, table.values, |table.names|, true)
    ensures 0 <= lastChangeVariable < |table.names| && table.names[lastChangeVariable] == Some("LastChange")
  {
    lastChangeVariable := -1;
    for i := 0 to |table.names|
      invariant lastChangeVariable == -1 ==> Some("LastChange") !in table.names[..i]
      invariant lastChangeVariable != -1 ==>
          0 <= lastChangeVariable < i && table.names[lastChangeVariable] == Some("LastChange")
      invariant builder.Valid()
      invariant builder.Pending() == TableDocument(table.names, table.values, i, true)
    {
      assert table.names[..i + 1] == table.names[..i] + [table.names[i]];
      var value := table.Get(i);
      if value.Some? {
        var name := table.names[i].value;
        if name == "LastChange" {
          lastChangeVariable := i;
        } else {
          builder.Add(name, value.value);
        }
      }
    }
    assert table.names[..|table.names|] == table.names;
  }

  // ---- The collector ----

  class LastChangeCollector {
    const container: VariableTable
    const builder: LastChangeBuilder
    var lastChangeVariable: int
    var notEventable: bv32
    var openTransactions: nat
    var sent: seq<Document>            // what went to upnp_device_notify
    ghost var flushed: seq<Document>   // what was taken out of the builder
    ghost var registered: bool         // is our callback in the table's list?

    ghost function Ignored(): set<nat>
      reads this
    {
      MaskSet(notEventable)
    }

    ghost predicate Valid()
      reads this, container, builder
    {
      && 0 <= lastChangeVariable
      && WellFormed(State())
      && |container.names| < 32
      && builder.Valid()
      && (registered <==> Collecting(this) in container.callbacks)
      && (forall l :: l in container.callbacks ==> l == Logging || l == Collecting(this))
      && (forall i, j :: 0 <= i < j < |container.callbacks| && container.callbacks[i] == Collecting(this)
                         ==> container.callbacks[j] != Collecting(this))
    }

    ghost function State(): LastChange.State
      reads this, container, builder
      requires 0 <= lastChangeVariable
    {
      LastChange.State(container.names, lastChangeVariable, Ignored(), container.values,
                       openTransactions, builder.Pending(), flushed, sent)
    }

    constructor (container: VariableTable)
      requires |container.values| == |container.names| < 32 && DistinctNames(container.names)
      requires Some("LastChange") in container.names
      requires forall l :: l in container.callbacks ==> l == Logging
      modifies container
      ensures this.container == container && fresh(builder)
      ensures Valid() && registered
      ensures container.names[lastChangeVariable] == Some("LastChange")
      ensures State() == Created(container.names, old(container.values), lastChangeVariable)
    {
      var b := new LastChangeBuilder();
      var v := DescribeTable(container, b);
      MaskOfOne(v);
      this.container := container;
      builder := b;
      lastChangeVariable := v;
      notEventable := Bit(v);
      openTransactions := 0;
      sent, flushed, registered := [], [], false;
      new;
      Notify();
      container.RegisterCallback(Collecting(this));
      registered := true;
    }

    method AddIgnore(v: int)
      requires Valid() && 0 <= v < 32
      modifies this`notEventable
      ensures Valid() && State() == old(State()).(ignored := old(State()).ignored + {v})
    {
      MaskInsert(notEventable, v);
      notEventable := notEventable | Bit(v);
    }

    method Start()
      requires Valid()
      modifies this`openTransactions
      ensures Valid() && State() == LastChange.Start(old(State()))
    {
      openTransactions := openTransactions + 1;
    }

    method Finish()
      requires Valid() && openTransactions >= 1
      modifies this`openTransactions, this`sent, this`flushed, builder, container`values
      ensures Valid() && State() == LastChange.Finish(old(State()))
    {
      openTransactions := openTransactions - 1;
      Notify();
    }

    method Notify()
      requires Valid()
      modifies this`sent, this`flushed, builder, container`values
      ensures Valid() && State() == Flush(old(State()))
      decreases 1, 0
    {
      if openTransactions != 0 {
        return;
      }
      var doc := builder.ToXml();
      if doc == None {
        return;
      }
      flushed := flushed + [doc.value];
      var changed := container.Change(this, lastChangeVariable, Some(Event(doc.value)));
      if changed {
        sent := sent + [doc.value];
      }
    }

    method Callback(v: nat, name: Option<string>, value: Value)
      requires Valid() && v < |container.names| && name == container.names[v]
      requires v in Ignored() || name.Some?
      modifies this`sent, this`flushed, builder, container`values
      ensures Valid() && State() == Collect(old(State()), v, value)
      decreases if v in Ignored() then 0 else 1, 1
    {
      if InMask(notEventable, v) {
        return;
      }
      builder.Add(name.value, value);
      Notify();
    }
  }

  // ---- Subscription ----

  /** The first event for a new subscriber: all variables but "LastChange" itself
      and the A_ARG_TYPE_ variables. */
  method SubscriptionSnapshot(table: VariableTable) returns (doc: Option<Document>)
    requires |table.values| == |table.names|
    ensures doc.GetOr([]) == TableDocument(table.names, table.values, |table.names|, false)
    ensures doc.None? <==> TableDocument(table.names, table.values, |table.names|, false) == []
  {
    var builder := new LastChangeBuilder();
    for i := 0 to |table.names|
      invariant fresh(builder) && builder.Valid()
      invariant builder.Pending() == TableDocument(table.names, table.values, i, false)
    {
      var value := table.Get(i);
      if value.Some? {
        var name := table.names[i].value;
        if name != "LastChange" && !ArgumentType(name) {
          builder.Add(name, value.value);
        }
      }
    }
    doc := builder.ToXml();
  }
}
