/**
 * The trace analyser of the OSPRay call faker (faker/parse.py): it replays
 * a log of OSPRay calls and keeps a reference-counted graph of the objects
 * they create. Each object is known by its handle, the pair of its address
 * and how many objects have had that address; releasing the last reference
 * deletes the object and, in cascade, releases everything it references.
 *
 * The script's module-level dictionaries and its `Object` instances are one
 * state value, `Tracer`, that every operation takes and returns; an object
 * is reached through its handle in `objects` (the script's
 * `handle2object`). Printed lines are kept, in order, as `Message` values.
 * A failed assertion, a `KeyError` or a recursion too deep ends the script;
 * the operations report that with a `false` flag next to the state reached.
 */
module FakerParse {
  import opened Wrappers

  /** An object's identity: its address and how many objects have had that address. */
  datatype Handle = Handle(addr: int, seqnr: nat)

  /** An object's label `type#number`. */
  datatype Label = Label(typeName: string, number: nat)

  /** A property value taken from the call's JSON arguments. */
  datatype Value = IntValue(i: int) | StrValue(s: string)

  /** An edge's label: a parameter name, or `[i]` for the i-th item of a data array. */
  datatype EdgeLabel = Named(name: string) | Item(index: nat)

  /** `Object`: one traced OSPRay object. */
  datatype Obj = Obj(
    typeName: string,
    tag: Label,
    deleted: bool,
    fields: map<string, Value>,
    edges: map<EdgeLabel, Handle>,
    dirty: bool,
    refcount: int,
    references: seq<Handle>)

  /** What the script prints along the way. */
  datatype Message =
    | AddressReused(addr: int)
    | UnknownAddress(addr: int, call: Option<string>)
    | UnknownMem(addr: int)
    | ReleaseOfNull
    | Deleted(handle: Handle)
    | UnhandledCall(name: string)

  /** The script's state: its dictionaries, the set of deleted handles and what it has printed. */
  datatype Tracer = Tracer(
    typeCounts: map<string, nat>,
    addrCounts: map<int, nat>,
    addr2object: map<int, Handle>,
    objects: map<Handle, Obj>,
    referenceSources: map<Handle, set<Handle>>,
    deletedHandles: set<Handle>,
    log: seq<Message>)

  /** The state before the first call. */
  const Start := Tracer(map[], map[], map[], map[], map[], {}, [])

  /** The interpreter's default recursion limit; a deeper `decref` cascade raises. */
  const RECURSION_LIMIT: nat := 1000

  /** A per-key counter after one more occurrence of `key`: it starts at 1. */
  function Bumped<K>(counts: map<K, nat>, key: K): (r: map<K, nat>)
    ensures r.Keys == counts.Keys + {key}
    ensures r[key] == if key in counts then counts[key] + 1 else 1
    ensures forall k :: k in counts && k != key ==> r[k] == counts[k]
  {
    counts[key := if key in counts then counts[key] + 1 else 1]
  }

  /**
   * Every object's handle and label are numbered within the counters, and
   * every live address names an object created at that address.
   */
  predicate Registry(t: Tracer)
  {
    (forall h :: h in t.objects ==>
       h.addr in t.addrCounts && 1 <= h.seqnr <= t.addrCounts[h.addr] &&
       t.objects[h].tag.typeName == t.objects[h].typeName && t.objects[h].typeName in t.typeCounts &&
       1 <= t.objects[h].tag.number <= t.typeCounts[t.objects[h].typeName]) &&
    (forall a :: a in t.addr2object ==> t.addr2object[a] in t.objects && t.addr2object[a].addr == a)
  }

  /** No two objects share a label. */
  predicate DistinctLabels(objects: map<Handle, Obj>)
  {
    forall g, h :: g in objects && h in objects && g != h ==> objects[g].tag != objects[h].tag
  }

  /** Every reference names a known object. */
  predicate Closed(objects: map<Handle, Obj>)
  {
    forall h, r :: h in objects && r in objects[h].references ==> r in objects
  }

  /** What holds of the state between any two calls. */
  predicate Inv(t: Tracer)
  {
    Registry(t) && DistinctLabels(t.objects) && Closed(t.objects) && t.referenceSources.Keys <= t.objects.Keys
  }

  /** A new `Object`: no fields, edges or references, a count of zero, and a commit still due. */
  function Fresh(typeName: string, number: nat): Obj
  {
    Obj(typeName, Label(typeName, number), false, map[], map[], true, 0, [])
  }

  /**
   * `new_object`: counts the type and the address (a reused address gets the
   * next sequence number and a warning), then registers a new object. It
   * fails, as the script's assertions do, when the address is still live or
   * the handle is already known.
   */
  function NewObject(t: Tracer, typeName: string, addr: int): (r: (Tracer, Option<Handle>))
    ensures r.0.typeCounts == Bumped(t.typeCounts, typeName) && r.0.addrCounts == Bumped(t.addrCounts, addr)
    ensures r.0.log == t.log + (if addr in t.addrCounts then [AddressReused(addr)] else [])
    ensures r.1.None? <==> addr in t.addr2object || Handle(addr, r.0.addrCounts[addr]) in t.objects
    ensures r.1.None? ==> r.0.objects == t.objects && r.0.addr2object == t.addr2object
    ensures r.1.Some? ==>
              r.1.value == Handle(addr, r.0.addrCounts[addr]) &&
              r.0.objects == t.objects[r.1.value := Fresh(typeName, r.0.typeCounts[typeName])] &&
              r.0.addr2object == t.addr2object[addr := r.1.value]
    ensures r.0.referenceSources == t.referenceSources && r.0.deletedHandles == t.deletedHandles
  {
    var typeCounts := Bumped(t.typeCounts, typeName);
    var addrCounts := Bumped(t.addrCounts, addr);
    var log := if addr in t.addrCounts then t.log + [AddressReused(addr)] else t.log;
    var h := Handle(addr, addrCounts[addr]);
    var counted := t.(typeCounts := typeCounts, addrCounts := addrCounts, log := log);
    if addr in t.addr2object || h in t.objects then (counted, None)
    else
      (counted.(objects := t.objects[h := Fresh(typeName, typeCounts[typeName])],
                addr2object := t.addr2object[addr := h]), Some(h))
  }

  /**
   * Counting one more object of a type at an address keeps the registry,
   * and the handle and label `new_object` then builds are new: no object has
   * that handle and none has that label.
   */
  lemma {:induction false} CountKeepsRegistry(t: Tracer, typeName: string, addr: int)
    requires Registry(t)
    ensures Registry(t.(typeCounts := Bumped(t.typeCounts, typeName), addrCounts := Bumped(t.addrCounts, addr)))
    ensures Handle(addr, Bumped(t.addrCounts, addr)[addr]) !in t.objects
    ensures forall h :: h in t.objects ==> t.objects[h].tag != Label(typeName, Bumped(t.typeCounts, typeName)[typeName])
  {
    forall h | h in t.objects
      ensures t.objects[h].tag != Label(typeName, Bumped(t.typeCounts, typeName)[typeName])
    {
      if t.objects[h].typeName == typeName {
        assert t.objects[h].tag.number <= t.typeCounts[typeName];
      }
    }
  }

  /**
   * Registering an object without references under a new handle and a new
   * label, both numbered within the counters, keeps the state consistent.
   */
  lemma {:induction false} RegisterKeepsInv(t: Tracer, h: Handle, o: Obj)
    requires Inv(t) && h !in t.objects && o.references == []
    requires h.addr in t.addrCounts && 1 <= h.seqnr <= t.addrCounts[h.addr]
    requires o.tag.typeName == o.typeName && o.typeName in t.typeCounts && 1 <= o.tag.number <= t.typeCounts[o.typeName]
    requires forall g :: g in t.objects ==> t.objects[g].tag != o.tag
    ensures Inv(t.(objects := t.objects[h := o], addr2object := t.addr2object[h.addr := h]))
  {
    RegisterKeepsRegistry(t, h, o);
    NewLabelKeepsLabels(t.objects, h, o);
    KnownReferencesKeepClosed(t.objects, h, o);
  }

  lemma RegisterKeepsRegistry(t: Tracer, h: Handle, o: Obj)
    requires Registry(t)
    requires h.addr in t.addrCounts && 1 <= h.seqnr <= t.addrCounts[h.addr]
    requires o.tag.typeName == o.typeName && o.typeName in t.typeCounts && 1 <= o.tag.number <= t.typeCounts[o.typeName]
    ensures Registry(t.(objects := t.objects[h := o], addr2object := t.addr2object[h.addr := h]))
  {
  }

  /** An object under a new handle, labelled unlike every other, keeps the labels distinct. */
  lemma NewLabelKeepsLabels(objects: map<Handle, Obj>, h: Handle, o: Obj)
    requires DistinctLabels(objects) && h !in objects
    requires forall g :: g in objects ==> objects[g].tag != o.tag
    ensures DistinctLabels(objects[h := o])
  {
  }

  /** Object `h` replaced by one with the same label keeps the labels distinct. */
  lemma SameLabelKeepsLabels(objects: map<Handle, Obj>, h: Handle, o: Obj)
    requires DistinctLabels(objects) && h in objects && o.tag == objects[h].tag
    ensures DistinctLabels(objects[h := o])
  {
    var u := objects[h := o];
    forall g, k | g in u && k in u && g != k
      ensures u[g].tag != u[k].tag
    {
      assert objects[g].tag != objects[k].tag;
    }
  }

  /** An object whose references are all known keeps the reference graph closed. */
  lemma KnownReferencesKeepClosed(objects: map<Handle, Obj>, h: Handle, o: Obj)
    requires Closed(objects)
    requires forall x :: x in o.references ==> x in objects
    ensures Closed(objects[h := o])
  {
    var u := objects[h := o];
    forall g, x | g in u && x in u[g].references
      ensures x in u
    {
      if g != h {
        assert x in objects[g].references;
      }
    }
  }

  /** Object `h` replaced by one with the same type and label keeps the registry. */
  lemma SameLabelKeepsRegistry(t: Tracer, h: Handle, o: Obj)
    requires Registry(t) && h in t.objects
    requires o.typeName == t.objects[h].typeName && o.tag == t.objects[h].tag
    ensures Registry(Update(t, h, o))
  {
    var u := Update(t, h, o);
    forall g | g in u.objects
      ensures u.objects[g].typeName == t.objects[g].typeName && u.objects[g].tag == t.objects[g].tag
    {
    }
  }

  /**
   * From a consistent state, `new_object` fails exactly when the address is
   * still live, and the object it adds keeps the state consistent: its
   * handle is new and no other object has its label.
   */
  lemma {:induction false} NewObjectKeepsInv(t: Tracer, typeName: string, addr: int)
    requires Inv(t)
    ensures Inv(NewObject(t, typeName, addr).0)
    ensures NewObject(t, typeName, addr).1.None? <==> addr in t.addr2object
    ensures NewObject(t, typeName, addr).1.Some? ==>
              var h := NewObject(t, typeName, addr).1.value;
              h !in t.objects && forall g :: g in t.objects ==> t.objects[g].tag != NewObject(t, typeName, addr).0.objects[h].tag
  {
    CountKeepsRegistry(t, typeName, addr);
    var counted := t.(typeCounts := Bumped(t.typeCounts, typeName), addrCounts := Bumped(t.addrCounts, addr),
                      log := NewObject(t, typeName, addr).0.log);
    assert Inv(counted);
    var h := Handle(addr, counted.addrCounts[addr]);
    if addr !in t.addr2object {
      RegisterKeepsInv(counted, h, Fresh(typeName, counted.typeCounts[typeName]));
      assert NewObject(t, typeName, addr).0
             == counted.(objects := t.objects[h := Fresh(typeName, counted.typeCounts[typeName])],
                         addr2object := t.addr2object[addr := h]);
    }
  }

  /** `get_object_by_addr`: the live object at `addr`, or a warning (naming the call if given) and nothing. */
  function GetObjectByAddr(t: Tracer, addr: int, call: Option<string>): (r: (Tracer, Option<Handle>))
    ensures r.1.Some? <==> addr in t.addr2object
    ensures r.1.Some? ==> r.0 == t && r.1.value == t.addr2object[addr]
    ensures r.1.None? ==> r.0 == t.(log := t.log + [UnknownAddress(addr, call)])
  {
    if addr !in t.addr2object then (t.(log := t.log + [UnknownAddress(addr, call)]), None)
    else (t, Some(t.addr2object[addr]))
  }

  /** The object found by a lookup is a known one, and a warning changes nothing else. */
  lemma {:induction false} GetObjectByAddrKeepsInv(t: Tracer, addr: int, call: Option<string>)
    requires Inv(t)
    ensures Inv(GetObjectByAddr(t, addr, call).0)
    ensures GetObjectByAddr(t, addr, call).1.Some? ==>
              GetObjectByAddr(t, addr, call).1.value in t.objects &&
              GetObjectByAddr(t, addr, call).1.value.addr == addr
  {
    var r := GetObjectByAddr(t, addr, call);
    assert r.0.objects == t.objects && r.0.addr2object == t.addr2object;
  }

  /** The object keeps what the reference graph and the labels depend on. */
  predicate SameLinks(a: Obj, b: Obj)
  {
    b.typeName == a.typeName && b.tag == a.tag && b.references == a.references
  }

  /** The state with object `h` replaced by `o`. */
  function Update(t: Tracer, h: Handle, o: Obj): Tracer
  {
    t.(objects := t.objects[h := o])
  }

  /** Replacing an object by one with the same links keeps the state consistent. */
  lemma {:induction false} UpdateKeepsInv(t: Tracer, h: Handle, o: Obj)
    requires Inv(t) && h in t.objects && SameLinks(t.objects[h], o)
    ensures Inv(Update(t, h, o))
  {
    SameLabelKeepsRegistry(t, h, o);
    SameLabelKeepsLabels(t.objects, h, o);
    KnownReferencesKeepClosed(t.objects, h, o);
  }

  /** `Object.set_property`: sets the field, and marks the object dirty when asked; nothing else changes. */
  function SetProperty(o: Obj, field: string, value: Value, markDirty: bool): (r: Obj)
    ensures r.fields.Keys == o.fields.Keys + {field} && r.fields[field] == value
    ensures forall f :: f in o.fields && f != field ==> r.fields[f] == o.fields[f]
    ensures r.dirty == (o.dirty || markDirty)
    ensures r.(fields := o.fields, dirty := o.dirty) == o
  {
    o.(fields := o.fields[field := value], dirty := o.dirty || markDirty)
  }

  /** Setting several properties in order without marking the object dirty. */
  function SetProperties(o: Obj, properties: seq<(string, Value)>): (r: Obj)
    ensures forall i :: 0 <= i < |properties| ==> properties[i].0 in r.fields
    ensures forall f :: f in o.fields ==> f in r.fields
    ensures r.(fields := o.fields) == o
    decreases |properties|
  {
    if properties == [] then o
    else
      var r := SetProperties(SetProperty(o, properties[0].0, properties[0].1, false), properties[1..]);
      assert forall i :: 1 <= i < |properties| ==> properties[i] == properties[1..][i - 1];
      r
  }

  /** `Object.add_edge`: sets the labelled edge, and marks the object dirty when asked; nothing else changes. */
  function AddEdge(o: Obj, edgeLabel: EdgeLabel, other: Handle, markDirty: bool): (r: Obj)
    ensures r.edges.Keys == o.edges.Keys + {edgeLabel} && r.edges[edgeLabel] == other
    ensures forall e :: e in o.edges && e != edgeLabel ==> r.edges[e] == o.edges[e]
    ensures r.dirty == (o.dirty || markDirty)
    ensures r.(edges := o.edges, dirty := o.dirty) == o
  {
    o.(edges := o.edges[edgeLabel := other], dirty := o.dirty || markDirty)
  }

  /** `Object.commit`: the object is clean again; nothing else changes. */
  function Commit(o: Obj): (r: Obj)
    ensures !r.dirty
    ensures r.(dirty := o.dirty) == o
  {
    o.(dirty := false)
  }

  /** `Object.incref`: one reference more; nothing else changes. */
  function Incref(o: Obj): (r: Obj)
    ensures r.refcount == o.refcount + 1
    ensures r.(refcount := o.refcount) == o
  {
    o.(refcount := o.refcount + 1)
  }

  /**
   * `Object.add_reference`: fails, as the script's assertion does, when the
   * target is already referenced; otherwise appends it, adds one to its
   * count and records this object among its sources.
   */
  function AddReference(t: Tracer, h: Handle, other: Handle): (r: (Tracer, bool))
    requires h in t.objects && other in t.objects
    ensures r.1 <==> other !in t.objects[h].references
    ensures !r.1 ==> r.0 == t
    ensures r.1 ==>
              r.0.objects.Keys == t.objects.Keys &&
              r.0.objects[h].references == t.objects[h].references + [other] &&
              r.0.objects[h].edges == t.objects[h].edges && r.0.objects[h].dirty == t.objects[h].dirty &&
              r.0.objects[other].refcount == t.objects[other].refcount + 1 &&
              other in r.0.referenceSources && h in r.0.referenceSources[other] &&
              r.0.referenceSources[other] - {h} ==
                (if other in t.referenceSources then t.referenceSources[other] else {}) - {h}
  {
    if other in t.objects[h].references then (t, false)
    else
      var o := t.objects[h];
      var linked := Update(t, h, o.(references := o.references + [other]));
      var p := linked.objects[other];
      var sources := if other in t.referenceSources then t.referenceSources[other] else {};
      (Update(linked, other, p.(refcount := p.refcount + 1)).(referenceSources := t.referenceSources[other := sources + {h}]),
       true)
  }

  /** A reference added between known objects keeps the state consistent. */
  lemma {:induction false} AddReferenceKeepsInv(t: Tracer, h: Handle, other: Handle)
    requires Inv(t) && h in t.objects && other in t.objects
    ensures Inv(AddReference(t, h, other).0)
  {
    if other !in t.objects[h].references {
      var o := t.objects[h];
      var q := o.(references := o.references + [other]);
      var t1 := Update(t, h, q);
      var p := t1.objects[other];
      var t2 := Update(t1, other, p.(refcount := p.refcount + 1));
      var sources := if other in t.referenceSources then t.referenceSources[other] else {};
      var t3 := AddReferenceUnfold(t, h, other, t1, t2, sources);
      SameLabelKeepsRegistry(t, h, q);
      SameLabelKeepsLabels(t.objects, h, q);
      KnownReferencesKeepClosed(t.objects, h, q);
      UpdateKeepsInv(t1, other, p.(refcount := p.refcount + 1));
      SourcesKeepInv(t2, t3.referenceSources);
    }
  }

  /** The state `add_reference` builds, named step by step. */
  lemma AddReferenceUnfold(t: Tracer, h: Handle, other: Handle, t1: Tracer, t2: Tracer, sources: set<Handle>)
    returns (t3: Tracer)
    requires h in t.objects && other in t.objects && other !in t.objects[h].references
    requires t1 == Update(t, h, t.objects[h].(references := t.objects[h].references + [other]))
    requires other in t1.objects && t2 == Update(t1, other, t1.objects[other].(refcount := t1.objects[other].refcount + 1))
    requires sources == if other in t.referenceSources then t.referenceSources[other] else {}
    ensures t3 == t2.(referenceSources := t.referenceSources[other := sources + {h}])
    ensures AddReference(t, h, other).0 == t3
  {
    t3 := t2.(referenceSources := t.referenceSources[other := sources + {h}]);
  }

  /** The sources of known objects can be recorded without breaking consistency. */
  lemma SourcesKeepInv(t: Tracer, sources: map<Handle, set<Handle>>)
    requires Inv(t) && sources.Keys <= t.objects.Keys
    ensures Inv(t.(referenceSources := sources))
  {
    var u := t.(referenceSources := sources);
    assert u.objects == t.objects && u.addr2object == t.addr2object;
    assert u.typeCounts == t.typeCounts && u.addrCounts == t.addrCounts;
  }

  /** During a release an object changes only in its count, which falls, and its deletion flag, which only rises. */
  predicate Reshaped(a: Obj, b: Obj)
  {
    b == a.(refcount := b.refcount, deleted := b.deleted) && b.refcount <= a.refcount && (a.deleted ==> b.deleted)
  }

  /** Reference sources only lose members during a release. */
  predicate Pruned(src0: map<Handle, set<Handle>>, src1: map<Handle, set<Handle>>)
  {
    src1.Keys == src0.Keys && forall x :: x in src1 ==> src1[x] <= src0[x]
  }

  /**
   * What a release may change: objects are only reshaped, live addresses
   * and reference sources only shrink, deleted handles only grow, and the
   * log only grows at its end.
   */
  predicate Released(t0: Tracer, t1: Tracer)
  {
    t1.typeCounts == t0.typeCounts && t1.addrCounts == t0.addrCounts &&
    (forall a :: a in t1.addr2object ==> a in t0.addr2object && t1.addr2object[a] == t0.addr2object[a]) &&
    t0.deletedHandles <= t1.deletedHandles && Pruned(t0.referenceSources, t1.referenceSources) &&
    t1.objects.Keys == t0.objects.Keys && (forall g :: g in t1.objects ==> Reshaped(t0.objects[g], t1.objects[g])) &&
    t0.log <= t1.log
  }

  lemma ReleasedTransitive(t0: Tracer, t1: Tracer, t2: Tracer)
    requires Released(t0, t1) && Released(t1, t2)
    ensures Released(t0, t2)
  {
  }

  /** A release keeps every reference pointing to a known object. */
  lemma {:induction false} ReleasedKeepsClosed(t0: Tracer, t1: Tracer)
    requires Closed(t0.objects) && Released(t0, t1)
    ensures Closed(t1.objects)
  {
    forall g, x | g in t1.objects && x in t1.objects[g].references
      ensures x in t1.objects
    {
      assert t1.objects[g].references == t0.objects[g].references;
    }
  }

  /** A release keeps the state consistent. */
  lemma {:induction false} ReleasedKeepsInv(t0: Tracer, t1: Tracer)
    requires Inv(t0) && Released(t0, t1)
    ensures Inv(t1)
  {
    ReleasedKeepsClosed(t0, t1);
    forall g | g in t1.objects
      ensures t1.objects[g].typeName == t0.objects[g].typeName && t1.objects[g].tag == t0.objects[g].tag
    {
      assert Reshaped(t0.objects[g], t1.objects[g]);
    }
    assert DistinctLabels(t1.objects) by {
      forall g, k | g in t1.objects && k in t1.objects && g != k
        ensures t1.objects[g].tag != t1.objects[k].tag
      {
        assert t0.objects[g].tag != t0.objects[k].tag;
      }
    }
  }

  /** A release that continues from where another stopped adds up to one release, and keeps references known. */
  lemma {:induction false} ReleasedChain(t0: Tracer, t1: Tracer, t2: Tracer)
    requires Closed(t0.objects) && Released(t0, t1) && Released(t1, t2)
    ensures Released(t0, t2) && Closed(t2.objects)
  {
    ReleasedTransitive(t0, t1, t2);
    ReleasedKeepsClosed(t0, t2);
  }

  /** The state with one reference fewer on `h`. */
  function Decremented(t: Tracer, h: Handle): Tracer
    requires h in t.objects
  {
    Update(t, h, t.objects[h].(refcount := t.objects[h].refcount - 1))
  }

  /** A release does not raise any count. */
  lemma ReleasedLowers(t0: Tracer, t1: Tracer, h: Handle)
    requires Released(t0, t1) && h in t0.objects
    ensures h in t1.objects && t1.objects[h].refcount <= t0.objects[h].refcount
  {
    assert Reshaped(t0.objects[h], t1.objects[h]);
  }

  /** The state with `h` removed from the sources of `x`. */
  function Prune(t: Tracer, x: Handle, h: Handle): Tracer
    requires x in t.referenceSources
  {
    t.(referenceSources := t.referenceSources[x := t.referenceSources[x] - {h}])
  }

  lemma {:induction false} DecrementedReleased(t: Tracer, h: Handle)
    requires Closed(t.objects) && h in t.objects
    ensures Released(t, Decremented(t, h)) && Closed(Decremented(t, h).objects)
    ensures Decremented(t, h).objects[h].refcount == t.objects[h].refcount - 1
  {
    var u := Decremented(t, h);
    assert Released(t, u) by {
      forall g | g in u.objects
        ensures Reshaped(t.objects[g], u.objects[g])
      {
      }
    }
    ReleasedKeepsClosed(t, u);
  }

  lemma {:induction false} PruneReleased(t: Tracer, x: Handle, h: Handle)
    requires Closed(t.objects) && x in t.referenceSources
    ensures Released(t, Prune(t, x, h)) && Closed(Prune(t, x, h).objects)
  {
  }

  /** What a completed deletion of `h` leaves behind. */
  predicate Gone(t0: Tracer, t1: Tracer, h: Handle)
    requires h in t1.objects
  {
    t1.objects[h].deleted && h !in t0.deletedHandles && h in t1.deletedHandles &&
    h.addr !in t1.addr2object && |t1.log| > 0 && t1.log[|t1.log| - 1] == Deleted(h)
  }

  /** `x` has lost `h` as a source and has a lower count in `t1` than in `t0`. */
  predicate Cut(t0: Tracer, t1: Tracer, h: Handle, x: Handle)
  {
    x in t1.referenceSources && h !in t1.referenceSources[x] &&
    x in t0.objects && x in t1.objects && t1.objects[x].refcount < t0.objects[x].refcount
  }

  /** Every reference of `h` from position `i` on is cut from it. */
  predicate Unlinked(t0: Tracer, t1: Tracer, h: Handle, i: nat)
    requires h in t0.objects
  {
    forall k :: i <= k < |t0.objects[h].references| ==> Cut(t0, t1, h, t0.objects[h].references[k])
  }

  /**
   * `Object.decref`: one reference fewer; when none is left, every
   * referenced object is released in turn and loses this object as a
   * source, then this object is marked deleted, which happens once. A
   * cascade that completes has done all of that. `depth` is the stack the
   * interpreter has left for the cascade.
   */
  function Decref(t: Tracer, h: Handle, depth: nat): (r: (Tracer, bool))
    requires Closed(t.objects) && h in t.objects
    decreases depth, 1, 0
    ensures Released(t, r.0)
    ensures r.0.objects[h].refcount < t.objects[h].refcount
    ensures r.1 && t.objects[h].refcount <= 1 ==> Gone(t, r.0, h) && Unlinked(t, r.0, h, 0)
  {
    var t1 := Decremented(t, h);
    DecrementedReleased(t, h);
    if t1.objects[h].refcount > 0 then (t1, true)
    else
      var (t2, ok) := ReleaseAll(t1, h, 0, depth);
      if !ok then
        ReleasedLowers(t1, t2, h);
        ReleasedTransitive(t, t1, t2);
        (t2, false)
      else
        var (t3, ok3) := MarkDeleted(t2, h);
        ReleasedTransitive(t1, t2, t3);
        ReleasedLowers(t1, t3, h);
        ReleasedTransitive(t, t1, t3);
        DeletedUnlinked(t, t1, t2, t3, h);
        (t3, ok3)
  }

  /** The cuts made by the loop survive the deletion that follows it. */
  lemma {:induction false} DeletedUnlinked(t: Tracer, t1: Tracer, t2: Tracer, t3: Tracer, h: Handle)
    requires h in t.objects && Released(t, t1) && Released(t1, t2) && Released(t2, t3)
    requires Unlinked(t1, t2, h, 0)
    ensures Unlinked(t, t3, h, 0)
  {
    assert Reshaped(t.objects[h], t1.objects[h]);
    forall k | 0 <= k < |t.objects[h].references|
      ensures Cut(t, t3, h, t.objects[h].references[k])
    {
      var x := t.objects[h].references[k];
      assert Cut(t1, t2, h, x);
      assert Reshaped(t.objects[x], t1.objects[x]);
      assert Reshaped(t2.objects[x], t3.objects[x]);
    }
  }

  /**
   * The loop of `decref` over the object's references from position `i`:
   * release each one, then remove this object from its sources, which must
   * hold it. A loop that completes has done so for every one of them.
   */
  function ReleaseAll(t: Tracer, h: Handle, i: nat, depth: nat): (r: (Tracer, bool))
    requires Closed(t.objects) && h in t.objects && i <= |t.objects[h].references|
    decreases depth, 0, |t.objects[h].references| - i
    ensures Released(t, r.0)
    ensures r.1 ==> Unlinked(t, r.0, h, i)
  {
    var refs := t.objects[h].references;
    if i == |refs| then (t, true)
    else if depth == 0 then (t, false)
    else
      var other := refs[i];
      var r1 := Decref(t, other, depth - 1);
      var t1 := r1.0;
      if !r1.1 || other !in t1.referenceSources || h !in t1.referenceSources[other] then (t1, false)
      else
        var t2 := Prune(t1, other, h);
        PruneReleased(t1, other, h);
        ReleasedChain(t, t1, t2);
        assert t2.objects[h].references == refs;
        assert Cut(t, t2, h, other);
        var (t3, ok3) := ReleaseAll(t2, h, i + 1, depth);
        ReleasedTransitive(t, t2, t3);
        if ok3 then UnlinkedStep(t, t2, t3, h, i); (t3, ok3)
        else (t3, ok3)
  }

  /** Cutting the reference at position `i`, then those after it, cuts all from `i` on. */
  lemma {:induction false} UnlinkedStep(t: Tracer, t2: Tracer, t3: Tracer, h: Handle, i: nat)
    requires h in t.objects && h in t2.objects && i < |t.objects[h].references|
    requires t2.objects[h].references == t.objects[h].references
    requires Released(t, t2) && Released(t2, t3)
    requires Cut(t, t2, h, t.objects[h].references[i])
    requires Unlinked(t2, t3, h, i + 1)
    ensures Unlinked(t, t3, h, i)
  {
    var refs := t.objects[h].references;
    forall k | i <= k < |refs|
      ensures Cut(t, t3, h, refs[k])
    {
      var x := refs[k];
      assert Reshaped(t.objects[x], t2.objects[x]);
      if k > i {
        assert Cut(t2, t3, h, x);
      } else {
        assert Reshaped(t2.objects[x], t3.objects[x]);
      }
    }
  }

  /**
   * The end of `decref`: the object is flagged deleted, its address
   * forgotten (a `KeyError` if it is not live) and its handle recorded as
   * deleted, which the script asserts happens once.
   */
  function MarkDeleted(t: Tracer, h: Handle): (r: (Tracer, bool))
    requires h in t.objects
    ensures Released(t, r.0)
    ensures r.0.objects[h].deleted
    ensures r.1 <==> h.addr in t.addr2object && h !in t.deletedHandles
    ensures r.0.addr2object == t.addr2object - {h.addr}
    ensures r.1 ==> r.0.deletedHandles == t.deletedHandles + {h} && r.0.log == t.log + [Deleted(h)]
    ensures !r.1 ==> r.0.deletedHandles == t.deletedHandles && r.0.log == t.log
  {
    var first := h.addr in t.addr2object && h !in t.deletedHandles;
    var deleted := if first then t.deletedHandles + {h} else t.deletedHandles;
    var log := if first then t.log + [Deleted(h)] else t.log;
    FlagReleased(t, h, t.addr2object - {h.addr}, deleted, log);
    (t.(objects := t.objects[h := t.objects[h].(deleted := true)], addr2object := t.addr2object - {h.addr},
        deletedHandles := deleted, log := log), first)
  }

  /** Flagging an object deleted, forgetting addresses, recording deletions and logging is a release. */
  lemma FlagReleased(t: Tracer, h: Handle, addr2object: map<int, Handle>, deleted: set<Handle>, log: seq<Message>)
    requires h in t.objects && addr2object.Keys <= t.addr2object.Keys
    requires forall a :: a in addr2object ==> addr2object[a] == t.addr2object[a]
    requires t.deletedHandles <= deleted && t.log <= log
    ensures Released(t, t.(objects := t.objects[h := t.objects[h].(deleted := true)], addr2object := addr2object,
                           deletedHandles := deleted, log := log))
  {
  }

  /** Above one reference, `decref` only lowers the count. */
  lemma DecrefAboveOne(t: Tracer, h: Handle, depth: nat)
    requires Closed(t.objects) && h in t.objects && t.objects[h].refcount > 1
    ensures Decref(t, h, depth) == (Decremented(t, h), true)
  {
    DecrementedReleased(t, h);
  }

  /**
   * The start of every `ospNew*` call: a new object, whose one reference
   * is the caller's. It fails when the address is still live.
   */
  function OspNew(t: Tracer, typeName: string, addr: int): (r: (Tracer, Option<Handle>))
    requires Inv(t)
    ensures Inv(r.0)
    ensures r.1.None? <==> addr in t.addr2object
    ensures r.1.Some? ==>
              var h := r.1.value;
              h !in t.objects && h in r.0.objects && h.addr == addr &&
              addr in r.0.addr2object && r.0.addr2object[addr] == h && typeName in r.0.typeCounts &&
              r.0.objects[h] == Fresh(typeName, r.0.typeCounts[typeName]).(refcount := 1)
  {
    NewObjectKeepsInv(t, typeName, addr);
    var (t1, o) := NewObject(t, typeName, addr);
    if o.None? then (t1, None)
    else
      var h := o.value;
      UpdateKeepsInv(t1, h, Incref(t1.objects[h]));
      (Update(t1, h, Incref(t1.objects[h])), Some(h))
  }

  /** `ospNew<type>`: the arguments become properties, without marking the object dirty. */
  function NewPlainStep(t: Tracer, typeName: string, addr: int, properties: seq<(string, Value)>): (r: (Tracer, bool))
    requires Inv(t)
    ensures Inv(r.0)
    ensures r.1 <==> addr !in t.addr2object
    ensures r.1 ==> addr in r.0.addr2object && r.0.addr2object[addr] in r.0.objects &&
                    r.0.objects[r.0.addr2object[addr]].refcount == 1 && r.0.objects[r.0.addr2object[addr]].dirty
  {
    var (t1, o) := OspNew(t, typeName, addr);
    if o.None? then (t1, false)
    else
      var h := o.value;
      var p := SetProperties(t1.objects[h], properties);
      UpdateKeepsInv(t1, h, p);
      (Update(t1, h, p), true)
  }

  /** `ospNewFrameBuffer`: the format becomes a property, and the frame buffer starts clean. */
  function NewFrameBufferStep(t: Tracer, addr: int, format: Value): (r: (Tracer, bool))
    requires Inv(t)
    ensures Inv(r.0)
    ensures r.1 <==> addr !in t.addr2object
    ensures r.1 ==> addr in r.0.addr2object && r.0.addr2object[addr] in r.0.objects &&
                    r.0.objects[r.0.addr2object[addr]].refcount == 1 && !r.0.objects[r.0.addr2object[addr]].dirty
  {
    var (t1, o) := OspNew(t, "FrameBuffer", addr);
    if o.None? then (t1, false)
    else
      var h := o.value;
      var p := Commit(SetProperty(t1.objects[h], "format", format, false));
      UpdateKeepsInv(t1, h, p);
      (Update(t1, h, p), true)
  }

  /** An edge to `other`, then a reference to it. */
  function Link(t: Tracer, h: Handle, edgeLabel: EdgeLabel, other: Handle, markDirty: bool): (r: (Tracer, bool))
    requires Inv(t) && h in t.objects && other in t.objects
    ensures Inv(r.0) && r.0.objects.Keys == t.objects.Keys
    ensures r.1 <==> other !in t.objects[h].references
    ensures r.1 ==> edgeLabel in r.0.objects[h].edges && r.0.objects[h].edges[edgeLabel] == other &&
                    r.0.objects[h].dirty == (t.objects[h].dirty || markDirty) &&
                    r.0.objects[h].references == t.objects[h].references + [other]
  {
    var p := AddEdge(t.objects[h], edgeLabel, other, markDirty);
    UpdateKeepsInv(t, h, p);
    var t1 := Update(t, h, p);
    AddReferenceKeepsInv(t1, h, other);
    AddReference(t1, h, other)
  }

  /**
   * `ospNewGeometricModel`, `ospNewVolumetricModel` and `ospNewInstance`: an
   * edge to, and a reference on, the object given as argument when its
   * address is known.
   */
  function NewLinkedStep(t: Tracer, typeName: string, addr: int, edge: string, target: int): (r: (Tracer, bool))
    requires Inv(t)
    ensures Inv(r.0)
    ensures addr in t.addr2object ==> !r.1
  {
    var (t1, o) := OspNew(t, typeName, addr);
    if o.None? then (t1, false)
    else
      var h := o.value;
      GetObjectByAddrKeepsInv(t1, target, Some("ospNew" + typeName));
      var (t2, q) := GetObjectByAddr(t1, target, Some("ospNew" + typeName));
      if q.None? then (t2, true)
      else Link(t2, h, Named(edge), q.value, false)
  }

  /**
   * The `source` objects of `ospNewSharedData`, from position `idx` on: each
   * must be known (the script asserts it) and gets an edge `[idx]` and a
   * reference.
   */
  function LinkSources(t: Tracer, h: Handle, sources: seq<int>, idx: nat): (r: (Tracer, bool))
    requires Inv(t) && h in t.objects
    ensures Inv(r.0) && r.0.objects.Keys == t.objects.Keys
    ensures r.1 ==> forall a :: a in sources ==> a in t.addr2object
    decreases |sources|
  {
    if sources == [] then (t, true)
    else
      GetObjectByAddrKeepsInv(t, sources[0], None);
      var (t1, q) := GetObjectByAddr(t, sources[0], None);
      if q.None? then (t1, false)
      else
        var (t2, ok) := Link(t1, h, Item(idx), q.value, false);
        if !ok then (t2, false)
        else
          var (t3, ok3) := LinkSources(t2, h, sources[1..], idx + 1);
          assert ok3 ==> forall a :: a in sources ==> a == sources[0] || a in sources[1..];
          (t3, ok3)
  }

  /** `ospNewSharedData`: properties, then the edges and references to its sources. */
  function NewSharedDataStep(t: Tracer, addr: int, properties: seq<(string, Value)>, sources: seq<int>): (r: (Tracer, bool))
    requires Inv(t)
    ensures Inv(r.0)
    ensures r.1 ==> addr !in t.addr2object && forall a :: a in sources ==> a in t.addr2object || a == addr
  {
    var (t1, o) := OspNew(t, "SharedData", addr);
    if o.None? then (t1, false)
    else
      var h := o.value;
      var p := SetProperties(t1.objects[h], properties);
      UpdateKeepsInv(t1, h, p);
      LinkSources(Update(t1, h, p), h, sources, 0)
  }

  /** `ospCommit`: the object, if its address is known, is clean. */
  function CommitStep(t: Tracer, addr: int): (r: (Tracer, bool))
    requires Inv(t)
    ensures Inv(r.0) && r.1
    ensures addr in t.addr2object ==> t.addr2object[addr] in r.0.objects && !r.0.objects[t.addr2object[addr]].dirty
  {
    GetObjectByAddrKeepsInv(t, addr, Some("ospCommit"));
    var (t1, q) := GetObjectByAddr(t, addr, Some("ospCommit"));
    if q.None? then (t1, true)
    else
      var p := Commit(t1.objects[q.value]);
      UpdateKeepsInv(t1, q.value, p);
      (Update(t1, q.value, p), true)
  }

  /**
   * `ospSetParam` of an object type: an edge named after the parameter and a
   * reference, both marking the object dirty, when both addresses are known;
   * an unknown `mem` is reported.
   */
  function SetReferenceStep(t: Tracer, addr: int, id: string, other: int): (r: (Tracer, bool))
    requires Inv(t)
    ensures Inv(r.0)
    ensures addr !in t.addr2object || other !in t.addr2object ==> r.1
    ensures addr in t.addr2object && other !in t.addr2object ==> |r.0.log| > 0 && r.0.log[|r.0.log| - 1] == UnknownMem(other)
    ensures addr in t.addr2object && other in t.addr2object && r.1 ==>
              var h := t.addr2object[addr];
              h in r.0.objects && r.0.objects[h].dirty &&
              Named(id) in r.0.objects[h].edges && r.0.objects[h].edges[Named(id)] == t.addr2object[other]
  {
    GetObjectByAddrKeepsInv(t, addr, Some("ospSetParam"));
    var (t1, q) := GetObjectByAddr(t, addr, Some("ospSetParam"));
    if q.None? then (t1, true)
    else
      GetObjectByAddrKeepsInv(t1, other, Some("ospSetParam"));
      var (t2, q2) := GetObjectByAddr(t1, other, Some("ospSetParam"));
      if q2.None? then (t2.(log := t2.log + [UnknownMem(other)]), true)
      else Link(t2, q.value, Named(id), q2.value, true)
  }

  /** `ospSetParam` of a value type: the property, marking the object dirty, when `mem` is given. */
  function SetValueStep(t: Tracer, addr: int, id: string, mem: Option<Value>): (r: (Tracer, bool))
    requires Inv(t)
    ensures Inv(r.0) && r.1
    ensures addr in t.addr2object && mem.Some? ==>
              var h := t.addr2object[addr];
              h in r.0.objects && r.0.objects[h].dirty && id in r.0.objects[h].fields && r.0.objects[h].fields[id] == mem.value
  {
    GetObjectByAddrKeepsInv(t, addr, Some("ospSetParam"));
    var (t1, q) := GetObjectByAddr(t, addr, Some("ospSetParam"));
    if q.None? || mem.None? then (t1, true)
    else
      var p := SetProperty(t1.objects[q.value], id, mem.value, true);
      UpdateKeepsInv(t1, q.value, p);
      (Update(t1, q.value, p), true)
  }

  /** `ospRelease`: address 0 only warns; a known object is released. */
  function ReleaseStep(t: Tracer, addr: int): (r: (Tracer, bool))
    requires Inv(t)
    ensures Inv(r.0)
    ensures addr == 0 ==> r == (t.(log := t.log + [ReleaseOfNull]), true)
    ensures addr != 0 && addr !in t.addr2object ==> r == (t.(log := t.log + [UnknownAddress(addr, None)]), true)
    ensures addr != 0 && addr in t.addr2object ==>
              var h := t.addr2object[addr];
              h in r.0.objects && r.0.objects[h].refcount < t.objects[h].refcount
  {
    if addr == 0 then (t.(log := t.log + [ReleaseOfNull]), true)
    else
      GetObjectByAddrKeepsInv(t, addr, None);
      var (t1, q) := GetObjectByAddr(t, addr, None);
      if q.None? then (t1, true)
      else
        var r := Decref(t1, q.value, RECURSION_LIMIT);
        ReleasedKeepsInv(t1, r.0);
        r
  }

  /**
   * The lines of an `ospray_faker` log the script acts on. Property lists
   * stand for the arguments of each `ospNew*` call; `NewLinked` is an
   * `ospNew*` whose argument is another object (a geometric or volumetric
   * model, or an instance).
   */
  datatype Call =
    | NewPlain(typeName: string, addr: int, properties: seq<(string, Value)>)
    | NewFrameBuffer(addr: int, format: Value)
    | NewLinked(typeName: string, addr: int, edge: string, target: int)
    | NewSharedData(addr: int, properties: seq<(string, Value)>, sources: seq<int>)
    | CommitCall(addr: int)
    | SetReference(addr: int, id: string, other: int)
    | SetValue(addr: int, id: string, mem: Option<Value>)
    | Release(addr: int)
    | Unhandled(name: string)

  /**
   * One line of the log. Only `ospSetParam` among the `ospSet*` calls is a
   * `Call`: the script raises on the others.
   */
  function Step(t: Tracer, c: Call): (r: (Tracer, bool))
    requires Inv(t)
    ensures Inv(r.0)
  {
    match c
    case NewPlain(typeName, addr, properties) => NewPlainStep(t, typeName, addr, properties)
    case NewFrameBuffer(addr, format) => NewFrameBufferStep(t, addr, format)
    case NewLinked(typeName, addr, edge, target) => NewLinkedStep(t, typeName, addr, edge, target)
    case NewSharedData(addr, properties, sources) => NewSharedDataStep(t, addr, properties, sources)
    case CommitCall(addr) => CommitStep(t, addr)
    case SetReference(addr, id, other) => SetReferenceStep(t, addr, id, other)
    case SetValue(addr, id, mem) => SetValueStep(t, addr, id, mem)
    case Release(addr) => ReleaseStep(t, addr)
    case Unhandled(name) => (t.(log := t.log + [UnhandledCall(name)]), true)
  }

  /** The calls in order, until one ends the script. */
  function Replay(t: Tracer, calls: seq<Call>): (r: (Tracer, bool))
    requires Inv(t)
    ensures Inv(r.0)
    decreases |calls|
  {
    if calls == [] then (t, true)
    else
      var (t1, ok) := Step(t, calls[0]);
      if !ok then (t1, false) else Replay(t1, calls[1..])
  }

  /**
   * The script's loop over the lines of the log: every state it reaches is
   * consistent, so in particular no two objects ever share a label and
   * every live address names its object.
   */
  method ReplayLog(calls: seq<Call>) returns (t: Tracer, ok: bool)
    ensures Inv(t)
    ensures (t, ok) == Replay(Start, calls)
  {
    t, ok := Start, true;
    var i := 0;
    while i < |calls| && ok
      invariant 0 <= i <= |calls| && Inv(t)
      invariant Replay(Start, calls) == if ok then Replay(t, calls[i..]) else (t, false)
    {
      assert calls[i..][1..] == calls[i + 1..];
      var (next, stepped) := Step(t, calls[i]);
      t, ok := next, stepped;
      i := i + 1;
    }
    if ok {
      assert calls[i..] == [];
    }
  }
}
