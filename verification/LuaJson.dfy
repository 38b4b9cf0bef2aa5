/** Conversion between JSON and Lua values (src/cli/gnoblinctl-json.c). */
module LuaJson {
  import opened Options
  import opened Sets

  const DEPTH: nat := 64

  /** Strings of json-glib are C strings. */
  type Text = s: string | '\0' !in s witness ""

  datatype Number = Finite(r: real) | NotFinite

  /** Objects are compared as maps: the order of members carries no meaning, and Lua tables do not keep it. */
  datatype Json =
    | Null
    | Boolean(b: bool)
    | Integer(i: int)
    | Double(x: Number)
    | String(s: Text)
    | Array(elements: seq<Json>)
    | Object(members: map<Text, Json>)

  datatype Key = Index(i: int) | Name(name: Text) | OtherKey(id: nat)

  datatype Lua =
    | Nil
    | Bool(b: bool)
    | Int(i: int)
    | Float(x: Number)
    | Str(text: string)
    | Table(fields: map<Key, Lua>)
    | ReadOnly(inner: Lua)
    | Function(id: nat)

  // From JSON to Lua.

  function ArrayKeys(a: seq<Json>): (r: set<Key>)
    ensures forall k :: k in r <==> k.Index? && 1 <= k.i <= |a| && a[k.i - 1] != Null
  {
    set i | 0 <= i < |a| && a[i] != Null :: Index(i + 1)
  }

  function ObjectKeys(m: map<Text, Json>): (r: set<Key>)
    ensures forall k :: k in r <==> k.Name? && k.name in m && m[k.name] != Null
  {
    set name | name in m && m[name] != Null :: Name(name)
  }

  /** A nil is not stored. */
  function ToLua(j: Json): (v: Lua)
    ensures v == Nil <==> j == Null
    decreases j
  {
    match j
    case Null => Nil
    case Boolean(b) => Bool(b)
    case Integer(i) => Int(i)
    case Double(x) => Float(x)
    case String(s) => Str(s)
    case Array(a) => Table(map k | k in ArrayKeys(a) :: ToLua(a[k.i - 1]))
    case Object(m) => Table(map k | k in ObjectKeys(m) :: ToLua(m[k.name]))
  }

  // From Lua to JSON.

  function Indices(n: nat): (r: set<Key>)
    ensures |r| == n && forall k :: k in r <==> k.Index? && 1 <= k.i <= n
  {
    if n == 0 then {} else Indices(n - 1) + {Index(n)}
  }

  /** The keys of an array: 1 to their number, and there is one. */
  predicate Dense(keys: set<Key>) {
    |keys| > 0 && keys == Indices(|keys|)
  }

  predicate Succeed(results: map<Key, Option<Json>>) {
    forall k :: k in results ==> results[k].Some?
  }

  /** The values of a dense table in the order of their indices. */
  function Listed(results: map<Key, Option<Json>>, n: nat): (r: seq<Json>)
    requires Succeed(results) && Indices(n) <= results.Keys
    ensures |r| == n
  {
    seq(n, i requires 0 <= i < n => assert Index(i + 1) in Indices(n); results[Index(i + 1)].value)
  }

  lemma ListedAt(results: map<Key, Option<Json>>, n: nat, k: Key)
    requires Succeed(results) && Indices(n) <= results.Keys && k in Indices(n)
    ensures results[k] == Some(Listed(results, n)[k.i - 1])
  {
  }

  function NamesOf(keys: set<Key>): (r: set<Text>)
    ensures forall name :: name in r <==> Name(name) in keys
  {
    set k | k in keys && k.Name? :: k.name
  }

  function Named(results: map<Key, Option<Json>>): (r: map<Text, Json>)
    requires Succeed(results)
  {
    map name | name in NamesOf(results.Keys) :: results[Name(name)].value
  }

  predicate AllNames(keys: set<Key>) {
    forall k :: k in keys ==> k.Name?
  }

  /** Of what came of the fields: an array, or else an object, or neither if a key is not a name. */
  function Container(results: map<Key, Option<Json>>): Option<Json> {
    if !Succeed(results) then None
    else if Dense(results.Keys) then Some(Array(Listed(results, |results.Keys|)))
    else if AllNames(results.Keys) then Some(Object(Named(results)))
    else None
  }

  /** `utf8` says which strings are valid UTF-8. None stands for any of the errors. */
  function ToJson(utf8: string -> bool, v: Lua, depth: nat): Option<Json>
    decreases v
  {
    if depth > DEPTH then None
    else
      match v
      case Nil => Some(Null)
      case Bool(b) => Some(Boolean(b))
      case Int(i) => Some(Integer(i))
      case Float(x) => if x.Finite? then Some(Double(x)) else None
      case Str(text) => if utf8(text) && '\0' !in text then Some(String(text)) else None
      case Table(fields) => Container(map k | k in fields :: ToJson(utf8, fields[k], depth + 1))
      case ReadOnly(inner) => ToJson(utf8, inner, depth + 1)
      case Function(_) => None
  }

  lemma ContainerIsArray(results: map<Key, Option<Json>>, a: seq<Json>)
    ensures Container(results) == Some(Array(a)) <==>
      |a| > 0 && results.Keys == Indices(|a|) && forall k :: k in results ==> results[k] == Some(a[k.i - 1])
  {
    if |a| > 0 && results.Keys == Indices(|a|) && forall k :: k in results ==> results[k] == Some(a[k.i - 1]) {
      assert |results.Keys| == |a|;
      forall i | 0 <= i < |a| ensures Listed(results, |a|)[i] == a[i] {
        assert Index(i + 1) in results;
        ListedAt(results, |a|, Index(i + 1));
      }
      assert Listed(results, |a|) == a;
    } else if Container(results) == Some(Array(a)) {
      forall k | k in results ensures results[k] == Some(a[k.i - 1]) {
        ListedAt(results, |a|, k);
      }
    }
  }

  lemma ContainerIsObject(results: map<Key, Option<Json>>, m: map<Text, Json>)
    ensures Container(results) == Some(Object(m)) <==>
      && (forall name :: name in m <==> Name(name) in results)
      && (forall k :: k in results ==> k.Name? && k.name in m && results[k] == Some(m[k.name]))
  {
    if (forall name :: name in m <==> Name(name) in results)
       && (forall k :: k in results ==> k.Name? && k.name in m && results[k] == Some(m[k.name])) {
      NamesAreNotDense(results.Keys);
      assert Named(results) == m;
    }
  }

  lemma NamesAreNotDense(keys: set<Key>)
    requires AllNames(keys)
    ensures !Dense(keys)
  {
    assert |keys| > 0 ==> Index(1) in Indices(|keys|);
  }

  // The round trip.

  /** No null inside a container, no empty array, at most 64 levels, finite numbers and valid text. */
  predicate Plain(utf8: string -> bool, j: Json, depth: nat)
    decreases j
  {
    && depth <= DEPTH
    && match j
       case Double(x) => x.Finite?
       case String(s) => utf8(s)
       case Array(a) => |a| > 0 && forall i :: 0 <= i < |a| ==> a[i] != Null && Plain(utf8, a[i], depth + 1)
       case Object(m) => forall k :: k in m ==> m[k] != Null && Plain(utf8, m[k], depth + 1)
       case _ => true
  }

  /** What came of the fields of a table. */
  predicate Results(utf8: string -> bool, fields: map<Key, Lua>, depth: nat, results: map<Key, Option<Json>>) {
    results.Keys == fields.Keys && forall k :: k in fields ==> results[k] == ToJson(utf8, fields[k], depth + 1)
  }

  lemma TableResult(utf8: string -> bool, fields: map<Key, Lua>, depth: nat, results: map<Key, Option<Json>>)
    requires depth <= DEPTH && Results(utf8, fields, depth, results)
    ensures ToJson(utf8, Table(fields), depth) == Container(results)
  {
    assert results == map k | k in fields :: ToJson(utf8, fields[k], depth + 1);
  }

  predicate RoundTrips(utf8: string -> bool, j: Json, depth: nat) {
    ToJson(utf8, ToLua(j), depth) == Some(j)
  }

  lemma ArrayReturns(utf8: string -> bool, a: seq<Json>, depth: nat)
    requires depth <= DEPTH
    ensures RoundTrips(utf8, Array(a), depth) <==>
      |a| > 0 && ArrayKeys(a) == Indices(|a|)
      && forall k :: k in Indices(|a|) ==> RoundTrips(utf8, a[k.i - 1], depth + 1)
  {
    var fields := ToLua(Array(a)).fields;
    assert fields.Keys == ArrayKeys(a);
    var results := map k | k in ArrayKeys(a) :: ToJson(utf8, ToLua(a[k.i - 1]), depth + 1);
    assert forall k :: k in fields ==> fields[k] == ToLua(a[k.i - 1]);
    TableResult(utf8, fields, depth, results);
    ContainerIsArray(results, a);
  }

  lemma ObjectReturns(utf8: string -> bool, m: map<Text, Json>, depth: nat)
    requires depth <= DEPTH
    ensures RoundTrips(utf8, Object(m), depth) <==>
      forall name :: name in m ==> m[name] != Null && RoundTrips(utf8, m[name], depth + 1)
  {
    var fields := ToLua(Object(m)).fields;
    assert fields.Keys == ObjectKeys(m);
    var results := map k | k in ObjectKeys(m) :: ToJson(utf8, ToLua(m[k.name]), depth + 1);
    assert forall k :: k in fields ==> fields[k] == ToLua(m[k.name]);
    TableResult(utf8, fields, depth, results);
    ContainerIsObject(results, m);
    assert forall name :: name in m && m[name] != Null ==>
      Name(name) in results && results[Name(name)] == ToJson(utf8, ToLua(m[name]), depth + 1);
  }

  lemma ByIndex(utf8: string -> bool, a: seq<Json>, depth: nat)
    ensures ArrayKeys(a) == Indices(|a|) <==> forall i :: 0 <= i < |a| ==> a[i] != Null
    ensures (forall k :: k in Indices(|a|) ==> RoundTrips(utf8, a[k.i - 1], depth))
      <==> (forall i :: 0 <= i < |a| ==> RoundTrips(utf8, a[i], depth))
  {
    forall i | 0 <= i < |a| ensures Index(i + 1) in Indices(|a|) && (Index(i + 1) in ArrayKeys(a) <==> a[i] != Null) {
    }
  }

  lemma ArrayRoundTrip(utf8: string -> bool, a: seq<Json>, depth: nat)
    requires depth <= DEPTH
    requires forall i :: 0 <= i < |a| ==> (RoundTrips(utf8, a[i], depth + 1) <==> Plain(utf8, a[i], depth + 1))
    ensures RoundTrips(utf8, Array(a), depth) <==> Plain(utf8, Array(a), depth)
  {
    hide RoundTrips, ToJson, ToLua;
    ArrayReturns(utf8, a, depth);
    ByIndex(utf8, a, depth + 1);
  }

  lemma ObjectRoundTrip(utf8: string -> bool, m: map<Text, Json>, depth: nat)
    requires depth <= DEPTH
    requires forall k :: k in m ==> (RoundTrips(utf8, m[k], depth + 1) <==> Plain(utf8, m[k], depth + 1))
    ensures RoundTrips(utf8, Object(m), depth) <==> Plain(utf8, Object(m), depth)
  {
    ObjectReturns(utf8, m, depth);
  }

  /** What json_to_lua makes of a value is turned back into the same value exactly when the value is plain. */
  lemma {:induction false} RoundTripIffPlain(utf8: string -> bool, j: Json, depth: nat)
    ensures RoundTrips(utf8, j, depth) <==> Plain(utf8, j, depth)
    decreases j
  {
    if depth <= DEPTH {
      match j
      case Array(a) =>
        forall i | 0 <= i < |a| ensures RoundTrips(utf8, a[i], depth + 1) <==> Plain(utf8, a[i], depth + 1) {
          RoundTripIffPlain(utf8, a[i], depth + 1);
        }
        ArrayRoundTrip(utf8, a, depth);
      case Object(m) =>
        forall k | k in m ensures RoundTrips(utf8, m[k], depth + 1) <==> Plain(utf8, m[k], depth + 1) {
          RoundTripIffPlain(utf8, m[k], depth + 1);
        }
        ObjectRoundTrip(utf8, m, depth);
      case _ =>
    }
  }

  // The other way round.

  /** Tables hold no nil, and a read-only view is of a table. */
  predicate Solid(v: Lua)
    decreases v
  {
    match v
    case Table(fields) => forall k :: k in fields ==> fields[k] != Nil && Solid(fields[k])
    case ReadOnly(inner) => inner.Table? && Solid(inner)
    case _ => true
  }

  /** The value with copies in place of its read-only views. */
  function Bare(v: Lua): (r: Lua)
    decreases v
  {
    match v
    case Table(fields) => Table(map k | k in fields :: Bare(fields[k]))
    case ReadOnly(inner) => Bare(inner)
    case _ => v
  }

  lemma {:induction false} PlainBelow(utf8: string -> bool, j: Json, depth: nat)
    requires Plain(utf8, j, depth + 1)
    ensures Plain(utf8, j, depth)
    decreases j
  {
    match j
    case Array(a) =>
      forall i | 0 <= i < |a| ensures Plain(utf8, a[i], depth + 1) {
        PlainBelow(utf8, a[i], depth + 1);
      }
    case Object(m) =>
      forall k | k in m ensures Plain(utf8, m[k], depth + 1) {
        PlainBelow(utf8, m[k], depth + 1);
      }
    case _ =>
  }

  function ResultsOf(utf8: string -> bool, fields: map<Key, Lua>, depth: nat): (r: map<Key, Option<Json>>)
    ensures Results(utf8, fields, depth, r)
  {
    map k | k in fields :: ToJson(utf8, fields[k], depth + 1)
  }

  /** What is read from Lua survives the way there and back, whatever it is. */
  lemma {:induction false} ToJsonIsPlain(utf8: string -> bool, v: Lua, depth: nat)
    requires Solid(v) && ToJson(utf8, v, depth).Some?
    ensures Plain(utf8, ToJson(utf8, v, depth).value, depth)
    ensures ToJson(utf8, v, depth).value == Null <==> v == Nil
    decreases v
  {
    match v
    case Table(fields) =>
      var results := ResultsOf(utf8, fields, depth);
      TableResult(utf8, fields, depth, results);
      forall k | k in fields ensures results[k].value != Null && Plain(utf8, results[k].value, depth + 1) {
        ToJsonIsPlain(utf8, fields[k], depth + 1);
      }
      PlainContainer(utf8, results, depth);
    case ReadOnly(inner) =>
      ToJsonIsPlain(utf8, inner, depth + 1);
      PlainBelow(utf8, ToJson(utf8, inner, depth + 1).value, depth);
    case _ =>
  }

  lemma PlainContainer(utf8: string -> bool, results: map<Key, Option<Json>>, depth: nat)
    requires depth <= DEPTH && Container(results).Some?
    requires forall k :: k in results ==> results[k].value != Null && Plain(utf8, results[k].value, depth + 1)
    ensures Plain(utf8, Container(results).value, depth) && Container(results) != Some(Null)
  {
    if Dense(results.Keys) {
      var a := Container(results).value.elements;
      forall i | 0 <= i < |a| ensures a[i] != Null && Plain(utf8, a[i], depth + 1) {
        ListedAt(results, |a|, Index(i + 1));
      }
    }
  }

  lemma NoHoles(a: seq<Json>, keys: set<Key>)
    requires keys == Indices(|a|) && forall k :: k in keys ==> a[k.i - 1] != Null
    ensures ArrayKeys(a) == keys
  {
  }

  lemma ArrayBack(a: seq<Json>, back: map<Key, Lua>)
    requires back.Keys == ArrayKeys(a) && forall k :: k in back ==> ToLua(a[k.i - 1]) == back[k]
    ensures ToLua(Array(a)) == Table(back)
  {
    assert back == map k | k in ArrayKeys(a) :: ToLua(a[k.i - 1]);
  }

  lemma ObjectBack(m: map<Text, Json>, back: map<Key, Lua>)
    requires forall name :: name in m <==> Name(name) in back
    requires forall k :: k in back ==> k.Name? && k.name in m && m[k.name] != Null && ToLua(m[k.name]) == back[k]
    ensures ToLua(Object(m)) == Table(back)
  {
    assert forall k :: k in back ==> k == Name(k.name);
    assert ObjectKeys(m) == back.Keys;
    assert ToLua(Object(m)).fields == back;
  }

  lemma ContainerBack(results: map<Key, Option<Json>>, back: map<Key, Lua>)
    requires Container(results).Some? && results.Keys == back.Keys
    requires forall k :: k in back ==> results[k].value != Null && ToLua(results[k].value) == back[k]
    ensures ToLua(Container(results).value) == Table(back)
  {
    var j := Container(results).value;
    if Dense(results.Keys) {
      ContainerIsArray(results, j.elements);
      NoHoles(j.elements, back.Keys);
      ArrayBack(j.elements, back);
    } else {
      ContainerIsObject(results, j.members);
      ObjectBack(j.members, back);
    }
  }

  /** Back in Lua it is the same value, with copies in place of read-only views. */
  lemma {:induction false} BackToLua(utf8: string -> bool, v: Lua, depth: nat)
    requires Solid(v) && ToJson(utf8, v, depth).Some?
    ensures ToLua(ToJson(utf8, v, depth).value) == Bare(v)
    decreases v
  {
    match v
    case Table(fields) =>
      var results, back := ResultsOf(utf8, fields, depth), Bare(v).fields;
      TableResult(utf8, fields, depth, results);
      forall k | k in fields ensures results[k].value != Null && ToLua(results[k].value) == back[k] {
        ToJsonIsPlain(utf8, fields[k], depth + 1);
        BackToLua(utf8, fields[k], depth + 1);
      }
      ContainerBack(results, back);
    case ReadOnly(inner) => BackToLua(utf8, inner, depth + 1);
    case _ =>
  }

  // The code: tables, arrays and objects are built step by step.

  /** lua_rawlen may answer with any border of a table. */
  ghost predicate IsBorder(fields: map<Key, Lua>, n: nat) {
    (n == 0 || Index(n) in fields) && Index(n + 1) !in fields
  }

  method RawLength(fields: map<Key, Lua>) returns (n: nat)
    ensures IsBorder(fields, n)
  {
    n := 0;
    while Index(n + 1) in fields
      invariant n == 0 || Index(n) in fields
      invariant forall i :: 1 <= i <= n ==> Index(i) in fields
      decreases |fields| - n
    {
      n := n + 1;
      SubsetSize(Indices(n), fields.Keys);
    }
  }

  /** lua_rawset: a nil is not stored. */
  function RawSet(fields: map<Key, Lua>, k: Key, v: Lua): map<Key, Lua> {
    if v == Nil then fields - {k} else fields[k := v]
  }

  method JsonToLua(j: Json) returns (v: Lua)
    ensures v == ToLua(j)
    decreases j, 1
  {
    match j {
      case Null => v := Nil;
      case Boolean(b) => v := Bool(b);
      case Integer(i) => v := Int(i);
      case Double(x) => v := Float(x);
      case String(s) => v := Str(s);
      case Array(_) => v := TableOfArray(j);
      case Object(_) => v := TableOfObject(j);
    }
  }

  /** `fields` are the fields of `whole` up to an index. */
  ghost predicate UpTo(fields: map<Key, Lua>, whole: map<Key, Lua>, i: nat) {
    && (forall k :: k in fields ==> k in whole && k.Index? && k.i <= i && fields[k] == whole[k])
    && (forall k :: k in whole && k.Index? && k.i <= i ==> k in fields)
  }

  lemma UpToNext(fields: map<Key, Lua>, whole: map<Key, Lua>, i: nat, v: Lua)
    requires UpTo(fields, whole, i)
    requires (Index(i + 1) in whole <==> v != Nil) && (Index(i + 1) in whole ==> whole[Index(i + 1)] == v)
    ensures UpTo(RawSet(fields, Index(i + 1), v), whole, i + 1)
  {
  }

  method TableOfArray(j: Json) returns (v: Lua)
    requires j.Array?
    ensures v == ToLua(j)
    decreases j, 0
  {
    var a := j.elements;
    ghost var whole := ToLua(j).fields;
    var fields: map<Key, Lua> := map[];
    assert forall k :: k in whole ==> k.Index? && 1 <= k.i <= |a|;
    for i := 0 to |a|
      invariant UpTo(fields, whole, i)
    {
      var element := JsonToLua(a[i]);
      FieldOfArray(a, i);
      UpToNext(fields, whole, i, element);
      fields := RawSet(fields, Index(i + 1), element);
    }
    SameFields(fields, whole);
    v := Table(fields);
  }

  lemma FieldOfArray(a: seq<Json>, i: nat)
    requires i < |a|
    ensures var whole := ToLua(Array(a)).fields;
      (Index(i + 1) in whole <==> ToLua(a[i]) != Nil) && (Index(i + 1) in whole ==> whole[Index(i + 1)] == ToLua(a[i]))
  {
  }

  lemma SameFields(x: map<Key, Lua>, y: map<Key, Lua>)
    requires (forall k :: k in x ==> k in y && x[k] == y[k]) && forall k :: k in y ==> k in x
    ensures x == y
  {
  }

  method TableOfObject(j: Json) returns (v: Lua)
    requires j.Object?
    ensures v == ToLua(j)
    decreases j, 0
  {
    var m := j.members;
    ghost var whole := ToLua(j).fields;
    var fields: map<Key, Lua> := map[];
    var left := m.Keys;
    while left != {}
      invariant left <= m.Keys
      invariant forall k :: k in fields <==> k in whole && k.name !in left
      invariant forall k :: k in fields ==> fields[k] == whole[k]
      decreases |left|
    {
      var name :| name in left;
      var member := JsonToLua(m[name]);
      assert Name(name) in whole <==> member != Nil;
      fields := RawSet(fields, Name(name), member);
      left := left - {name};
    }
    assert fields == whole;
    v := Table(fields);
  }

  /** Counts the entries and looks for one outside 1 to `length`. */
  method IsArray(fields: map<Key, Lua>) returns (dense: bool, length: nat)
    ensures dense == Dense(fields.Keys) && (dense ==> length == |fields.Keys|)
  {
    length := RawLength(fields);
    dense := length > 0;
    var entries := 0;
    var left := fields.Keys;
    while left != {}
      invariant left <= fields.Keys && entries == |fields.Keys| - |left|
      invariant dense <==> length > 0 && forall k :: k in fields && k !in left ==> k.Index? && 1 <= k.i <= length
      decreases |left|
    {
      var k :| k in left;
      entries := entries + 1;
      if !k.Index? || k.i < 1 || k.i > length {
        dense := false;
      }
      left := left - {k};
    }
    if dense && entries != length {
      dense := false;
    }
    DenseIffBorder(fields, length);
  }

  /** Whichever border lua_rawlen answers with, counting up to it finds the same. */
  lemma DenseIffBorder(fields: map<Key, Lua>, length: nat)
    requires IsBorder(fields, length)
    ensures Dense(fields.Keys) <==>
      length > 0 && |fields.Keys| == length && forall k :: k in fields ==> k.Index? && 1 <= k.i <= length
  {
    if Dense(fields.Keys) {
      assert Index(length + 1) !in Indices(|fields.Keys|);
    } else if |fields.Keys| == length && forall k :: k in fields ==> k.Index? && 1 <= k.i <= length {
      SubsetSize(fields.Keys, Indices(length));
    }
  }

  method LuaToJson(utf8: string -> bool, v: Lua, depth: nat) returns (r: Option<Json>)
    ensures r == ToJson(utf8, v, depth)
    decreases v, 1
  {
    if depth > DEPTH {
      return None;
    }
    match v {
      case Nil => r := Some(Null);
      case Bool(b) => r := Some(Boolean(b));
      case Int(i) => r := Some(Integer(i));
      case Float(x) =>
        if x == NotFinite {
          return None;
        }
        r := Some(Double(x));
      case Str(text) =>
        if !utf8(text) || '\0' in text {
          return None;
        }
        r := Some(String(text));
      case Table(fields) =>
        var dense, length := IsArray(fields);
        if dense {
          r := ArrayOf(utf8, v, length, depth);
        } else {
          r := ObjectOf(utf8, v, depth);
        }
      case ReadOnly(inner) => r := LuaToJson(utf8, inner, depth + 1);
      case Function(_) => r := None;
    }
  }

  /** The values read so far are those of the first indices. */
  ghost predicate Reads(results: map<Key, Option<Json>>, values: seq<Json>) {
    forall k :: k in Indices(|values|) ==> k in results && results[k] == Some(values[k.i - 1])
  }

  lemma ReadsNext(results: map<Key, Option<Json>>, values: seq<Json>, value: Json)
    requires Reads(results, values) && Index(|values| + 1) in results && results[Index(|values| + 1)] == Some(value)
    ensures Reads(results, values + [value])
  {
  }

  lemma ReadsAll(results: map<Key, Option<Json>>, values: seq<Json>)
    requires Dense(results.Keys) && |values| == |results.Keys| && Reads(results, values)
    ensures Container(results) == Some(Array(values))
  {
    ContainerIsArray(results, values);
  }

  lemma FailsWithOne(results: map<Key, Option<Json>>, k: Key)
    requires k in results && results[k] == None
    ensures Container(results) == None
  {
  }

  lemma IndexIsKey(keys: set<Key>, i: nat)
    requires Dense(keys) && 0 < i <= |keys|
    ensures Index(i) in keys
  {
    assert Index(i) in Indices(|keys|);
  }

  method ArrayOf(utf8: string -> bool, v: Lua, length: nat, depth: nat) returns (r: Option<Json>)
    requires depth <= DEPTH && v.Table? && Dense(v.fields.Keys) && length == |v.fields.Keys|
    ensures r == ToJson(utf8, v, depth)
    decreases v, 0
  {
    hide Container, ToJson, Dense;
    var fields := v.fields;
    ghost var results := ResultsOf(utf8, fields, depth);
    TableResult(utf8, fields, depth, results);
    var values: seq<Json> := [];
    for i := 0 to length
      invariant |values| == i && Reads(results, values)
    {
      IndexIsKey(fields.Keys, i + 1);
      var value := LuaToJson(utf8, fields[Index(i + 1)], depth + 1);
      assert value == results[Index(i + 1)];
      if value.None? {
        FailsWithOne(results, Index(i + 1));
        return None;
      }
      ReadsNext(results, values, value.value);
      values := values + [value.value];
    }
    ReadsAll(results, values);
    r := Some(Array(values));
  }

  method ObjectOf(utf8: string -> bool, v: Lua, depth: nat) returns (r: Option<Json>)
    requires depth <= DEPTH && v.Table? && !Dense(v.fields.Keys)
    ensures r == ToJson(utf8, v, depth)
    decreases v, 0
  {
    var fields := v.fields;
    ghost var results := ResultsOf(utf8, fields, depth);
    TableResult(utf8, fields, depth, results);
    var members: map<Text, Json> := map[];
    var left := fields.Keys;
    while left != {}
      invariant left <= fields.Keys
      invariant forall name :: name in members <==> Name(name) in results && Name(name) !in left
      invariant forall k :: k in results && k !in left ==> k.Name? && results[k] == Some(members[k.name])
      decreases |left|
    {
      var k :| k in left;
      if !k.Name? {
        return None;
      }
      var value := LuaToJson(utf8, fields[k], depth + 1);
      assert value == results[k];
      if value.None? {
        return None;
      }
      members := members[k.name := value.value];
      left := left - {k};
    }
    ContainerIsObject(results, members);
    r := Some(Object(members));
  }
}
