/**
 * The OSPRay call tracer (faker/faker.cpp): a preloaded library whose
 * `osp*` wrappers log each call and forward it to the real function. It
 * keeps four global maps: the real functions found so far by name, and for
 * every object it has seen a reference count, a label `<type>#<n>`, and per
 * type the counter the labels come from.
 *
 * Pointers are addresses (`Ptr`, 0 is null). The real OSPRay calls and
 * `dlsym` are not modelled: their results are parameters. The log text is
 * not modelled, except for the warnings (as values) and the lines
 * `dump_arrays` writes for a new data array (as values; float formatting is
 * left out).
 */
module Faker {
  import opened Bytes
  import opened Text

  type Ptr = nat

  /** The two warnings about reference counts. */
  datatype Warning =
    | LostReference(ptr: Ptr)        // a new object's address already had a count
    | NoPreviousReference(ptr: Ptr)  // `ospRelease` of an address without a count

  /** The number the post-incremented type counter gives a new object, and the counters after it. */
  function NextLabel(typeCounts: map<string, int>, typeName: string): (int, map<string, int>)
  {
    if typeName !in typeCounts then (1, typeCounts[typeName := 1])
    else (typeCounts[typeName], typeCounts[typeName := typeCounts[typeName] + 1])
  }

  /** The label numbers of `n` objects of one type created in a row. */
  function LabelNumbers(typeCounts: map<string, int>, typeName: string, n: nat): (r: seq<int>)
    ensures |r| == n
    decreases n
  {
    if n == 0 then []
    else
      var (number, next) := NextLabel(typeCounts, typeName);
      [number] + LabelNumbers(next, typeName, n - 1)
  }

  /** Once a type has a counter `c`, the next objects get `c`, `c + 1`, … */
  lemma {:induction false} LabelNumbersFrom(typeCounts: map<string, int>, typeName: string, n: nat, k: nat)
    requires typeName in typeCounts && k < n
    ensures LabelNumbers(typeCounts, typeName, n)[k] == typeCounts[typeName] + k
  {
    if k > 0 {
      var next := NextLabel(typeCounts, typeName).1;
      LabelNumbersFrom(next, typeName, n - 1, k - 1);
    }
  }

  /**
   * Because the counter is read before it is incremented, the first two
   * objects of a type are both `#1`, and the `k`-th after them is `#k`:
   * labels are unique from the second object on.
   */
  lemma {:induction false} LabelNumbersOfNewType(typeCounts: map<string, int>, typeName: string, n: nat)
    requires typeName !in typeCounts
    ensures forall k :: 0 <= k < n ==> LabelNumbers(typeCounts, typeName, n)[k] == if k == 0 then 1 else k
    ensures n >= 2 ==> LabelNumbers(typeCounts, typeName, n)[0] == LabelNumbers(typeCounts, typeName, n)[1]
    ensures forall j, k :: 1 <= j < k < n ==>
              LabelNumbers(typeCounts, typeName, n)[j] != LabelNumbers(typeCounts, typeName, n)[k]
  {
    if n > 0 {
      var next := NextLabel(typeCounts, typeName).1;
      forall k | 1 <= k < n
        ensures LabelNumbers(typeCounts, typeName, n)[k] == k
      {
        LabelNumbersFrom(next, typeName, n - 1, k - 1);
      }
    }
  }

  /** The label of an object. */
  function Label(typeName: string, number: nat): (s: string)
    ensures |s| > |typeName| + 1 && s[..|typeName|] == typeName && s[|typeName|] == '#'
    ensures forall k :: |typeName| < k < |s| ==> IsDigit(s[k])
    ensures ParseDigits(s[|typeName| + 1..]) == number
  {
    var digits := NatToString(number);
    var s := typeName + "#" + digits;
    assert s[|typeName| + 1..] == digits;
    ParseNatToString(number);
    s
  }

  /** The element types `ospNewData` can dump. */
  datatype DataType = OspFloat | OspVec2f | OspVec3f | OspVec4f | OspObject | OspOtherType(code: int)

  /** How many floats one item of a float type has: `type - OSP_FLOAT + 1`. */
  function Components(t: DataType): (v: nat)
    ensures 1 <= v <= 4 <==> t in {OspFloat, OspVec2f, OspVec3f, OspVec4f}
    ensures v == 0 <==> t !in {OspFloat, OspVec2f, OspVec3f, OspVec4f}
  {
    match t
    case OspFloat => 1
    case OspVec2f => 2
    case OspVec3f => 3
    case OspVec4f => 4
    case _ => 0
  }

  /** The number of items logged: all of them, or at most 30 when `dump_arrays` is 1. */
  function Shown(numItems: nat, dumpArrays: int): (n: nat)
    ensures n <= numItems
    ensures dumpArrays == 1 ==> n <= 30 && (numItems <= 30 ==> n == numItems)
    ensures dumpArrays != 1 ==> n == numItems
  {
    if dumpArrays == 1 then Min(numItems, 30) else numItems
  }

  /** A line `dump_arrays` writes: an item's floats, an item's object information, or the ellipsis. */
  datatype DumpLine = FloatRow(index: nat, values: seq<F32>) | ObjectRow(index: nat, info: string) | Ellipsis

  lemma RowBound(v: nat, i: nat, n: nat)
    requires i < n
    ensures v * i + v <= v * n
  {
    assert v * i + v == v * (i + 1);
  }

  /** The `v` floats of item `i` of an array of at least `n` items. */
  function ItemFloats(source: seq<F32>, v: nat, i: nat, n: nat): (r: seq<F32>)
    requires i < n && v * n <= |source|
    ensures v * i + v <= |source|
    ensures |r| == v && forall c :: 0 <= c < v ==> r[c] == source[v * i + c]
  {
    RowBound(v, i, n);
    source[v * i..v * i + v]
  }

  /** `library_pointers`, the reference counts, the labels and the type counters. */
  class Tracer {
    var libraryPointers: map<string, Ptr>
    var referenceCounts: map<Ptr, int>
    var referenceTypes: map<Ptr, string>
    var typeCounts: map<string, int>
    var warnings: seq<Warning>

    /** Every labelled object has a count, and every count and counter is at least one. */
    ghost predicate Valid()
      reads this
    {
      referenceTypes.Keys <= referenceCounts.Keys &&
      (forall p :: p in referenceCounts ==> referenceCounts[p] >= 1) &&
      (forall t :: t in typeCounts ==> typeCounts[t] >= 1)
    }

    /** The maps are empty when the library is loaded. */
    constructor ()
      ensures Valid()
      ensures libraryPointers == map[] && referenceCounts == map[] && referenceTypes == map[]
      ensures typeCounts == map[] && warnings == []
    {
      libraryPointers := map[];
      referenceCounts := map[];
      referenceTypes := map[];
      typeCounts := map[];
      warnings := [];
    }

    /**
     * `find_or_load_call`: a name looked up before gets the cached pointer
     * and `dlsym` is not consulted; a new name is resolved once, unchecked,
     * and cached.
     */
    method FindOrLoadCall(callname: string, dlsymResult: Ptr) returns (ptr: Ptr)
      modifies this`libraryPointers
      ensures callname in old(libraryPointers) ==> ptr == old(libraryPointers)[callname]
      ensures callname !in old(libraryPointers) ==> ptr == dlsymResult
      ensures libraryPointers == old(libraryPointers)[callname := ptr]
    {
      if callname in libraryPointers {
        return libraryPointers[callname];
      }
      ptr := dlsymResult;
      libraryPointers := libraryPointers[callname := ptr];
    }

    /**
     * `objinfo`: `???` for an address without a label, otherwise the label,
     * a colon and the decimal reference count.
     */
    function ObjInfo(ptr: Ptr): (r: string)
      reads this
      requires Valid()
      ensures ptr !in referenceTypes ==> r == "???"
      ensures ptr in referenceTypes ==>
                var name := referenceTypes[ptr];
                |r| > |name| + 1 && r[..|name|] == name && r[|name|] == ':' &&
                (forall k :: |name| < k < |r| ==> IsDigit(r[k])) &&
                ParseDigits(r[|name| + 1..]) == referenceCounts[ptr]
    {
      if ptr !in referenceTypes then "???"
      else
        var digits := NatToString(referenceCounts[ptr]);
        var r := referenceTypes[ptr] + ":" + digits;
        assert r[|referenceTypes[ptr]| + 1..] == digits;
        ParseNatToString(referenceCounts[ptr]);
        r
    }

    /**
     * `newobj`: a count of one and the next label of the type; the type's
     * counter is read before it is incremented.
     */
    method NewObj(ptr: Ptr, typeName: string)
      requires Valid()
      modifies this`referenceCounts, this`referenceTypes, this`typeCounts
      ensures Valid()
      ensures referenceCounts == old(referenceCounts)[ptr := 1]
      ensures typeCounts == NextLabel(old(typeCounts), typeName).1
      ensures referenceTypes == old(referenceTypes)[ptr := Label(typeName, NextLabel(old(typeCounts), typeName).0)]
    {
      var count: nat;
      if typeName !in typeCounts {
        typeCounts := typeCounts[typeName := 1];
        count := 1;
      } else {
        count := typeCounts[typeName];
        typeCounts := typeCounts[typeName := typeCounts[typeName] + 1];
      }
      referenceCounts := referenceCounts[ptr := 1];
      referenceTypes := referenceTypes[ptr := Label(typeName, count)];
    }

    /**
     * `ospNew<type>` for a type whose constructor takes no other object:
     * the result gets a count of one and a label. All of them except
     * `ospNewData` and `ospNewFrameBuffer` first warn when the address
     * already had a count.
     */
    method OspNew(res: Ptr, typeName: string, checksLost: bool)
      requires Valid()
      modifies this`referenceCounts, this`referenceTypes, this`typeCounts, this`warnings
      ensures Valid()
      ensures warnings == old(warnings) + if checksLost && res in old(referenceCounts) then [LostReference(res)] else []
      ensures referenceCounts == old(referenceCounts)[res := 1]
      ensures typeCounts == NextLabel(old(typeCounts), typeName).1
      ensures referenceTypes == old(referenceTypes)[res := Label(typeName, NextLabel(old(typeCounts), typeName).0)]
    {
      if checksLost && res in referenceCounts {
        warnings := warnings + [LostReference(res)];
      }
      NewObj(res, typeName);
    }

    /** `reference_counts[p] += 1`: an address without a count starts from zero. */
    method AddCount(p: Ptr)
      requires Valid()
      modifies this`referenceCounts
      ensures Valid()
      ensures p in old(referenceCounts) ==> referenceCounts == old(referenceCounts)[p := old(referenceCounts)[p] + 1]
      ensures p !in old(referenceCounts) ==> referenceCounts == old(referenceCounts)[p := 1]
    {
      var c := if p in referenceCounts then referenceCounts[p] else 0;
      referenceCounts := referenceCounts[p := c + 1];
    }

    /**
     * `ospNewGeometricModel`, `ospNewInstance` and `ospNewVolumetricModel`:
     * as `OspNew`, then one more count on the object passed in.
     */
    method OspNewLinked(res: Ptr, typeName: string, arg: Ptr)
      requires Valid()
      modifies this`referenceCounts, this`referenceTypes, this`typeCounts, this`warnings
      ensures Valid()
      ensures warnings == old(warnings) + if res in old(referenceCounts) then [LostReference(res)] else []
      ensures res in referenceCounts && referenceCounts[res] == if arg == res then 2 else 1
      ensures arg != res ==>
                referenceCounts == old(referenceCounts)[res := 1]
                  [arg := if arg in old(referenceCounts) then old(referenceCounts)[arg] + 1 else 1]
      ensures typeCounts == NextLabel(old(typeCounts), typeName).1
      ensures referenceTypes == old(referenceTypes)[res := Label(typeName, NextLabel(old(typeCounts), typeName).0)]
    {
      OspNew(res, typeName, true);
      AddCount(arg);
    }

    /** `ospSetData` and `ospSetObject`: one more count on the object set; nothing else changes. */
    method OspSetReference(other: Ptr)
      requires Valid()
      modifies this`referenceCounts
      ensures Valid()
      ensures other in referenceCounts
      ensures referenceCounts[other] == if other in old(referenceCounts) then old(referenceCounts)[other] + 1 else 1
      ensures forall p :: p != other ==> (p in referenceCounts <==> p in old(referenceCounts))
      ensures forall p :: p in old(referenceCounts) && p != other ==> referenceCounts[p] == old(referenceCounts)[p]
    {
      AddCount(other);
    }

    /** `ospRelease`: the counts are never lowered; an address without a count is only warned about. */
    method OspRelease(obj: Ptr)
      requires Valid()
      modifies this`warnings
      ensures warnings == old(warnings) + if obj in referenceCounts then [] else [NoPreviousReference(obj)]
    {
      if obj !in referenceCounts {
        warnings := warnings + [NoPreviousReference(obj)];
      }
    }

    /** The floats of item `i`: `v` consecutive values from `v * i` on. */
    method RowValues(source: seq<F32>, i: nat, v: nat) returns (values: seq<F32>)
      requires v * i + v <= |source|
      ensures values == source[v * i..v * i + v]
    {
      values := [];
      for c := 0 to v
        invariant values == source[v * i..v * i + c]
      {
        values := values + [source[v * i + c]];
      }
    }

    /**
     * The lines `ospNewData` logs for a new array when `dump_arrays` is
     * positive: one per shown item of a float or object array (none for
     * other types) and, when `dump_arrays` is 1 and items were held back,
     * an ellipsis.
     */
    method DumpArray(t: DataType, numItems: nat, floats: seq<F32>, objects: seq<Ptr>, dumpArrays: int)
      returns (lines: seq<DumpLine>)
      requires Valid()
      requires dumpArrays > 0 && Components(t) > 0 ==> Components(t) * Shown(numItems, dumpArrays) <= |floats|
      requires dumpArrays > 0 && t == OspObject ==> Shown(numItems, dumpArrays) <= |objects|
      ensures dumpArrays <= 0 ==> lines == []
      ensures dumpArrays > 0 ==>
                var n := Shown(numItems, dumpArrays);
                var rows := if Components(t) > 0 || t == OspObject then n else 0;
                var more := dumpArrays == 1 && numItems > n;
                |lines| == rows + (if more then 1 else 0) &&
                (more ==> lines[rows] == Ellipsis) &&
                (forall i :: 0 <= i < rows && Components(t) > 0 ==>
                   lines[i] == FloatRow(i, ItemFloats(floats, Components(t), i, n))) &&
                (forall i :: 0 <= i < rows && t == OspObject ==> lines[i] == ObjectRow(i, ObjInfo(objects[i])))
    {
      lines := [];
      if dumpArrays <= 0 {
        return;
      }
      var n := Shown(numItems, dumpArrays);
      var v := Components(t);
      if v > 0 {
        for i := 0 to n
          invariant |lines| == i
          invariant forall k :: 0 <= k < i ==> lines[k] == FloatRow(k, ItemFloats(floats, v, k, n))
        {
          RowBound(v, i, n);
          var values := RowValues(floats, i, v);
          assert values == ItemFloats(floats, v, i, n);
          lines := lines + [FloatRow(i, values)];
        }
      } else if t == OspObject {
        for i := 0 to n
          invariant |lines| == i
          invariant forall k :: 0 <= k < i ==> lines[k] == ObjectRow(k, ObjInfo(objects[k]))
        {
          lines := lines + [ObjectRow(i, ObjInfo(objects[i]))];
        }
      }
      if dumpArrays == 1 && numItems > n {
        lines := lines + [Ellipsis];
      }
    }
  }
}
