/**
 * The parsed JSON values the server receives as plugin parameters and
 * custom properties, with the type tests it applies to them. A float is
 * carried as its bit pattern and never computed on.
 */
module Json {
  import opened Bytes
  import opened Wrappers

  datatype Value =
    | JNull
    | JBool(b: bool)
    | JInt(i: int)
    | JUnsigned(u: nat)
    | JFloat(f: F32)
    | JString(s: string)
    | JArray(items: seq<Value>)
    | JObject(members: map<string, Value>)

  /** `is_primitive`: null, a boolean, a number or a string. */
  predicate IsPrimitive(v: Value)
  {
    !v.JArray? && !v.JObject?
  }

  /** `is_number_integer`: a signed or an unsigned integer. */
  predicate IsInteger(v: Value)
  {
    v.JInt? || v.JUnsigned?
  }

  /**
   * Conversion to a float, with `get<float>()` or an implicit cast: a
   * number, or a boolean, which becomes 0 or 1; any other value throws.
   */
  predicate ToFloat(v: Value)
  {
    v.JInt? || v.JUnsigned? || v.JFloat? || v.JBool?
  }

  /**
   * `v[i]` on a value that is not `const`, converted to a float, does not
   * throw: `v` is an array with an entry at `i` that converts. On null, or
   * past the end of an array, the index pads with nulls, which do not
   * convert; on any other value the index itself throws.
   */
  predicate FloatAt(v: Value, i: nat)
  {
    v.JArray? && i < |v.items| && ToFloat(v.items[i])
  }

  /** The value is an object with a member under `key`. */
  predicate HasMember(v: Value, key: string)
  {
    v.JObject? && key in v.members
  }

  /**
   * `find(key)`: the member under `key`. Any value other than an object
   * has no members, so the key is missing there.
   */
  function Find(v: Value, key: string): Option<Value>
  {
    if v.JObject? && key in v.members then Some(v.members[key]) else None
  }

  /**
   * `v[key]` read as a `std::string`: the string under `key`; `None` where
   * nlohmann::json throws, for a missing key or a member that is not a string.
   */
  function StringMember(v: Value, key: string): (r: Option<string>)
    ensures r.Some? <==> HasMember(v, key) && v.members[key].JString?
    ensures r.Some? ==> v.members[key] == JString(r.value)
  {
    match Find(v, key)
    case Some(JString(s)) => Some(s)
    case _ => None
  }
}
