/**
 * The HYG star catalogue converter (scripts/hygcsv2json.py): the first CSV
 * row names the columns, and every later row becomes one entry, a dictionary
 * from column name to value, with the values of the non-string columns
 * coerced to `None`, an integer or a float.
 *
 * Reading the CSV file and writing the JSON text are not modelled: the rows
 * come in as lists of fields, and the entries go out as values. A dictionary
 * is an association list in insertion order, as Python keeps it. A float is
 * carried as the literal it was parsed from; its value is not computed.
 */
module HygCsv {
  import opened Wrappers
  import Text

  /** The columns whose values stay strings, for both catalogue versions. */
  const STRING_FIELDS: set<string> := {
    "proper", "gl", "spect", "con", "var", "bf", "bayer", "base",
    "Spectrum", "Gliese", "BayerFlamsteed", "ProperName"
  }

  /** A value of an entry. */
  datatype JValue = JNull | JInt(i: int) | JFloat(literal: string) | JString(s: string)

  /** A non-empty run of decimal digits. */
  predicate IsDigits(s: string)
  {
    |s| > 0 && forall k :: 0 <= k < |s| ==> Text.IsDigit(s[k])
  }

  predicate IsSign(c: char)
  {
    c == '+' || c == '-'
  }

  /** Digits, possibly after one sign character. */
  predicate SignedDigits(s: string)
  {
    IsDigits(s) || (|s| > 1 && IsSign(s[0]) && IsDigits(s[1..]))
  }

  /** What `int()` makes of a field: an optionally signed decimal number, or nothing. */
  function ParseInt(s: string): (r: Option<int>)
    ensures r.Some? <==> SignedDigits(s)
  {
    if IsDigits(s) then Some(Text.ParseDigits(s))
    else if |s| > 1 && IsSign(s[0]) && IsDigits(s[1..]) then
      var magnitude: int := Text.ParseDigits(s[1..]);
      Some(if s[0] == '-' then -magnitude else magnitude)
    else None
  }

  /** Index of the first occurrence of a character of `cs` in `s`, or `|s|`. */
  function FirstOf(s: string, cs: set<char>): (r: nat)
    ensures r <= |s|
    ensures r < |s| ==> s[r] in cs
    ensures forall k :: 0 <= k < r ==> s[k] !in cs
  {
    if s == [] then 0
    else if s[0] in cs then 0
    else FirstOf(s[1..], cs) + 1
  }

  /** Only digits, possibly none. */
  predicate AllDigits(s: string)
  {
    forall k :: 0 <= k < |s| ==> Text.IsDigit(s[k])
  }

  /** Digits with at most one decimal point, and at least one digit. */
  predicate Mantissa(m: string)
  {
    var d := FirstOf(m, {'.'});
    if d == |m| then IsDigits(m)
    else |m| > 1 && AllDigits(m[..d]) && AllDigits(m[d + 1..])
  }

  /** A mantissa, then possibly `e` or `E` and a signed exponent. */
  predicate Unsigned(s: string)
  {
    var e := FirstOf(s, {'e', 'E'});
    if e == |s| then Mantissa(s) else Mantissa(s[..e]) && SignedDigits(s[e + 1..])
  }

  /** What `float()` accepts here: a decimal literal, possibly after one sign character. */
  predicate FloatLiteral(s: string)
  {
    Unsigned(s) || (|s| > 1 && IsSign(s[0]) && Unsigned(s[1..]))
  }

  /** Everything `int()` accepts, `float()` accepts too. */
  lemma IntIsFloat(s: string)
    requires SignedDigits(s)
    ensures FloatLiteral(s)
  {
    if IsDigits(s) {
      DigitsUnsigned(s);
    } else {
      DigitsUnsigned(s[1..]);
    }
  }

  lemma DigitsUnsigned(s: string)
    requires IsDigits(s)
    ensures Unsigned(s)
  {
    FirstOfAbsent(s, {'e', 'E'});
    FirstOfAbsent(s, {'.'});
  }

  lemma FirstOfAbsent(s: string, cs: set<char>)
    requires forall k :: 0 <= k < |s| ==> s[k] !in cs
    ensures FirstOf(s, cs) == |s|
  {
  }

  /**
   * The coercion of one field, and whether it printed that it could not
   * convert it: a string column keeps its text; otherwise an empty field is
   * `None`, an integer literal an integer, a float literal a float, and any
   * other text stays a string with a message.
   */
  function Coerce(key: string, value: string): (JValue, bool)
  {
    if key in STRING_FIELDS then (JString(value), false)
    else if value == "" then (JNull, false)
    else match ParseInt(value)
      case Some(i) => (JInt(i), false)
      case None => if FloatLiteral(value) then (JFloat(value), false) else (JString(value), true)
  }

  /**
   * Only a field of a non-string column that is neither empty nor a number
   * is reported, and it stays a string; an integer literal becomes an integer.
   */
  lemma CoerceMeaning(key: string, value: string)
    ensures var r := Coerce(key, value);
            (r.1 <==> key !in STRING_FIELDS && value != "" && !FloatLiteral(value)) &&
            (r.0.JNull? <==> key !in STRING_FIELDS && value == "") &&
            (r.0.JString? ==> r.0.s == value) &&
            (r.0.JString? <==> key in STRING_FIELDS || r.1) &&
            (r.0.JInt? <==> key !in STRING_FIELDS && ParseInt(value).Some?)
  {
    if key !in STRING_FIELDS && value != "" && ParseInt(value).Some? {
      IntIsFloat(value);
    }
  }

  /** A number written in decimal comes back as that integer. */
  lemma CoerceDecimal(key: string, n: nat)
    requires key !in STRING_FIELDS
    ensures Coerce(key, Text.NatToString(n)) == (JInt(n), false)
    ensures Coerce(key, "-" + Text.NatToString(n)) == (JInt(-(n as int)), false)
  {
    var s := Text.NatToString(n);
    Text.ParseNatToString(n);
    assert !IsDigits("-" + s) by {
      assert ("-" + s)[0] == '-';
    }
    assert ("-" + s)[1..] == s;
  }

  /** A dictionary in insertion order. */
  type Entry = seq<(string, JValue)>

  /** Where `key` sits in `entry`, if it is there. */
  function Find(entry: Entry, key: string): (r: Option<nat>)
    ensures r.Some? ==> r.value < |entry| && entry[r.value].0 == key
    ensures r.None? ==> forall i :: 0 <= i < |entry| ==> entry[i].0 != key
  {
    if entry == [] then None
    else if entry[|entry| - 1].0 == key then Some(|entry| - 1)
    else Find(entry[..|entry| - 1], key)
  }

  /** `entry[key]`, or nothing when the key is absent. */
  function Lookup(entry: Entry, key: string): Option<JValue>
  {
    match Find(entry, key)
    case Some(i) => Some(entry[i].1)
    case None => None
  }

  /** No key appears twice. */
  predicate DistinctKeys(entry: Entry)
  {
    forall i, j :: 0 <= i < j < |entry| ==> entry[i].0 != entry[j].0
  }

  /**
   * `entry[key] = value`: a key already present keeps its place and takes
   * the new value; a new key goes at the end.
   */
  function Put(entry: Entry, key: string, value: JValue): (r: Entry)
    ensures Lookup(r, key) == Some(value)
    ensures Find(entry, key).Some? ==> |r| == |entry| && forall i :: 0 <= i < |r| ==> r[i].0 == entry[i].0
    ensures Find(entry, key).None? ==> r == entry + [(key, value)]
  {
    match Find(entry, key)
    case Some(i) =>
      FindReplaced(entry, i, key, value);
      entry[i := (key, value)]
    case None =>
      assert (entry + [(key, value)])[..|entry|] == entry;
      entry + [(key, value)]
  }

  /** A new value at the place a key is found is found there too. */
  lemma {:induction false} FindReplaced(entry: Entry, i: nat, key: string, value: JValue)
    requires Find(entry, key) == Some(i)
    ensures Find(entry[i := (key, value)], key) == Some(i)
  {
    var r := entry[i := (key, value)];
    if i < |entry| - 1 {
      var init := entry[..|entry| - 1];
      assert r[..|r| - 1] == init[i := (key, value)];
      FindReplaced(init, i, key, value);
    }
  }

  /** Putting one key leaves every other key's value as it was. */
  lemma PutOther(entry: Entry, key: string, value: JValue, k: string)
    requires k != key
    ensures Lookup(Put(entry, key, value), k) == Lookup(entry, k)
  {
    match Find(entry, key)
    case Some(i) =>
      FindUnchanged(entry, entry[i := (key, value)], k, i);
    case None =>
      var r := entry + [(key, value)];
      assert r[..|r| - 1] == entry;
  }

  /** Putting into a dictionary without repeated keys makes none. */
  lemma PutDistinct(entry: Entry, key: string, value: JValue)
    requires DistinctKeys(entry)
    ensures DistinctKeys(Put(entry, key, value))
  {
  }

  /** Replacing the value at `i` does not move any other key. */
  lemma {:induction false} FindUnchanged(entry: Entry, r: Entry, k: string, i: nat)
    requires i < |entry| && |r| == |entry| && r[i].0 == entry[i].0 && entry[i].0 != k
    requires forall j :: 0 <= j < |entry| && j != i ==> r[j] == entry[j]
    ensures Find(r, k) == Find(entry, k)
    ensures Lookup(r, k) == Lookup(entry, k)
  {
    if |entry| > 0 && entry[|entry| - 1].0 != k {
      if i < |entry| - 1 {
        FindUnchanged(entry[..|entry| - 1], r[..|r| - 1], k, i);
      } else {
        assert r[..|r| - 1] == entry[..|entry| - 1];
      }
    }
  }

  /** The dictionary the assignments `pairs` make, in order, to an empty one. */
  function Build(pairs: seq<(string, JValue)>): Entry
  {
    if pairs == [] then []
    else
      var last := pairs[|pairs| - 1];
      Put(Build(pairs[..|pairs| - 1]), last.0, last.1)
  }

  lemma BuildNext(pairs: seq<(string, JValue)>, p: (string, JValue))
    ensures Build(pairs + [p]) == Put(Build(pairs), p.0, p.1)
  {
    assert (pairs + [p])[..|pairs|] == pairs;
  }

  /** The dictionary never holds a key twice. */
  lemma {:induction false} BuildDistinct(pairs: seq<(string, JValue)>)
    ensures DistinctKeys(Build(pairs))
  {
    if pairs != [] {
      var last := pairs[|pairs| - 1];
      BuildDistinct(pairs[..|pairs| - 1]);
      PutDistinct(Build(pairs[..|pairs| - 1]), last.0, last.1);
    }
  }

  /** A key never assigned has no value. */
  lemma {:induction false} BuildAbsent(pairs: seq<(string, JValue)>, key: string)
    requires forall j :: 0 <= j < |pairs| ==> pairs[j].0 != key
    ensures Lookup(Build(pairs), key) == None
  {
    if pairs != [] {
      var init, last := pairs[..|pairs| - 1], pairs[|pairs| - 1];
      assert forall j :: 0 <= j < |init| ==> init[j] == pairs[j];
      BuildAbsent(init, key);
      PutOther(Build(init), last.0, last.1, key);
    }
  }

  /** A key takes the value of its last assignment. */
  lemma {:induction false} BuildLast(pairs: seq<(string, JValue)>, j: nat)
    requires j < |pairs|
    requires forall l :: j < l < |pairs| ==> pairs[l].0 != pairs[j].0
    ensures Lookup(Build(pairs), pairs[j].0) == Some(pairs[j].1)
  {
    var init, last := pairs[..|pairs| - 1], pairs[|pairs| - 1];
    if j < |pairs| - 1 {
      assert init[j] == pairs[j];
      assert forall l :: j < l < |init| ==> init[l] == pairs[l];
      BuildLast(init, j);
      PutOther(Build(init), last.0, last.1, pairs[j].0);
    }
  }

  /** The first `n` pairs of `zip(columns, row)`, each field coerced. */
  function Pairs(columns: seq<string>, row: seq<string>, n: nat): (r: seq<(string, JValue)>)
    requires n <= |columns| && n <= |row|
    ensures |r| == n && forall j :: 0 <= j < n ==> r[j] == (columns[j], Coerce(columns[j], row[j]).0)
  {
    seq(n, j requires 0 <= j < n => (columns[j], Coerce(columns[j], row[j]).0))
  }

  lemma PairsNext(columns: seq<string>, row: seq<string>, n: nat)
    requires n < |columns| && n < |row|
    ensures Pairs(columns, row, n + 1) == Pairs(columns, row, n) + [(columns[n], Coerce(columns[n], row[n]).0)]
  {
    assert Pairs(columns, row, n + 1)[..n] == Pairs(columns, row, n);
  }

  /** The keys among the first `n` whose fields could not be converted, in order. */
  function Warned(columns: seq<string>, row: seq<string>, n: nat): (r: seq<string>)
    requires n <= |columns| && n <= |row|
    ensures |r| <= n
  {
    if n == 0 then []
    else Warned(columns, row, n - 1) + if Coerce(columns[n - 1], row[n - 1]).1 then [columns[n - 1]] else []
  }

  /** The entry the first `n` pairs of `zip(columns, row)` make. */
  function EntryOf(columns: seq<string>, row: seq<string>, n: nat): Entry
    requires n <= |columns| && n <= |row|
  {
    Build(Pairs(columns, row, n))
  }

  /** An entry never holds a column twice, however often the header repeats it. */
  lemma EntryOfDistinct(columns: seq<string>, row: seq<string>, n: nat)
    requires n <= |columns| && n <= |row|
    ensures DistinctKeys(EntryOf(columns, row, n))
  {
    BuildDistinct(Pairs(columns, row, n));
  }

  /** A column that does not occur among the first `n` has no value. */
  lemma EntryOfAbsent(columns: seq<string>, row: seq<string>, n: nat, key: string)
    requires n <= |columns| && n <= |row|
    requires forall j :: 0 <= j < n ==> columns[j] != key
    ensures Lookup(EntryOf(columns, row, n), key) == None
  {
    BuildAbsent(Pairs(columns, row, n), key);
  }

  /** A column takes the coerced field of its last occurrence among the first `n`. */
  lemma EntryOfLast(columns: seq<string>, row: seq<string>, n: nat, j: nat)
    requires n <= |columns| && n <= |row| && j < n
    requires forall l :: j < l < n ==> columns[l] != columns[j]
    ensures Lookup(EntryOf(columns, row, n), columns[j]) == Some(Coerce(columns[j], row[j]).0)
  {
    BuildLast(Pairs(columns, row, n), j);
  }

  /** The number of pairs `zip` makes. */
  function Zipped(columns: seq<string>, row: seq<string>): (n: nat)
    ensures n <= |columns| && n <= |row|
    ensures n == |columns| || n == |row|
  {
    if |columns| <= |row| then |columns| else |row|
  }

  /** What the loop over `zip(columns, row)` has built after `i` pairs. */
  predicate RowSoFar(columns: seq<string>, row: seq<string>, i: nat, entry: Entry, warned: seq<string>)
    requires i <= |columns| && i <= |row|
  {
    entry == Build(Pairs(columns, row, i)) && warned == Warned(columns, row, i)
  }

  /** One more pair: its coerced field is put, and reported when it could not be converted. */
  lemma RowStep(columns: seq<string>, row: seq<string>, i: nat, entry: Entry, warned: seq<string>)
    requires i < |columns| && i < |row| && RowSoFar(columns, row, i, entry, warned)
    ensures var c := Coerce(columns[i], row[i]);
            RowSoFar(columns, row, i + 1, Put(entry, columns[i], c.0), if c.1 then warned + [columns[i]] else warned)
  {
    PairsNext(columns, row, i);
    BuildNext(Pairs(columns, row, i), (columns[i], Coerce(columns[i], row[i]).0));
  }

  /** The loop over `zip(columns, row)` that builds one entry. */
  method ConvertRow(columns: seq<string>, row: seq<string>) returns (entry: Entry, warned: seq<string>)
    ensures entry == EntryOf(columns, row, Zipped(columns, row))
    ensures warned == Warned(columns, row, Zipped(columns, row))
  {
    entry, warned := [], [];
    var i := 0;
    while i < Zipped(columns, row)
      invariant i <= Zipped(columns, row)
      invariant RowSoFar(columns, row, i, entry, warned)
    {
      var key := columns[i];
      var c := Coerce(key, row[i]);
      RowStep(columns, row, i, entry, warned);
      entry := Put(entry, key, c.0);
      if c.1 {
        warned := warned + [key];
      }
      i := i + 1;
    }
  }

  /** The entry every data row becomes. */
  function Entries(rows: seq<seq<string>>): (r: seq<Entry>)
    requires |rows| > 0
    ensures |r| == |rows| - 1
    ensures forall i :: 0 <= i < |r| ==> r[i] == EntryOf(rows[0], rows[i + 1], Zipped(rows[0], rows[i + 1]))
  {
    seq(|rows| - 1, i requires 0 <= i < |rows| - 1 => EntryOf(rows[0], rows[i + 1], Zipped(rows[0], rows[i + 1])))
  }

  /**
   * The whole conversion: the first row gives the columns and every later
   * row an entry, in row order. A file without rows has no first row to
   * take, which raises.
   */
  method Convert(rows: seq<seq<string>>) returns (r: Result<seq<Entry>>, warned: seq<string>)
    ensures r.Failure? <==> rows == []
    ensures r.Ok? ==> r.value == Entries(rows)
  {
    if rows == [] {
      return Failure("StopIteration"), [];
    }
    var columns := rows[0];
    var lst: seq<Entry> := [];
    warned := [];
    for i := 1 to |rows|
      invariant |lst| == i - 1
      invariant forall k :: 0 <= k < i - 1 ==> lst[k] == EntryOf(columns, rows[k + 1], Zipped(columns, rows[k + 1]))
    {
      var entry, w := ConvertRow(columns, rows[i]);
      lst := lst + [entry];
      warned := warned + w;
    }
    r := Ok(lst);
  }
}
