/** What single values become, and how deep they may lie (src/cli/gnoblinctl-json.c). */
module LuaJsonLaws {
  import opened Options
  import opened LuaJson

  /** Values that are no containers, from JSON to Lua and from Lua to JSON. */
  lemma ScalarsMean(utf8: string -> bool, b: bool, i: int, r: real, text: string, depth: nat)
    requires depth <= 64
    ensures ToLua(Null) == Nil && ToJson(utf8, Nil, depth) == Some(Null)
    ensures ToLua(Boolean(b)) == Bool(b) && ToJson(utf8, Bool(b), depth) == Some(Boolean(b))
    ensures ToLua(Integer(i)) == Int(i) && ToJson(utf8, Int(i), depth) == Some(Integer(i))
    ensures ToLua(Double(Finite(r))) == Float(Finite(r))
    ensures ToJson(utf8, Float(Finite(r)), depth) == Some(Double(Finite(r)))
    ensures ToJson(utf8, Float(NotFinite), depth) == None
    ensures ToJson(utf8, Str(text), depth) == if utf8(text) && '\0' !in text then Some(String(text)) else None
    ensures '\0' !in text ==> ToLua(String(text)) == Str(text)
  {
  }

  /** An array becomes a table with its elements at 1, 2 and so on, without the nulls. */
  lemma ArrayMeans(a: seq<Json>, k: Key)
    ensures ToLua(Array(a)).Table?
    ensures var fields := ToLua(Array(a)).fields;
      && (k in fields <==> k.Index? && 1 <= k.i <= |a| && a[k.i - 1] != Null)
      && (k in fields ==> fields[k] == ToLua(a[k.i - 1]))
  {
    assert ToLua(Array(a)).fields.Keys == ArrayKeys(a);
  }

  /** An object becomes a table with its members under their names, without the nulls. */
  lemma ObjectMeans(m: map<Text, Json>, k: Key)
    ensures ToLua(Object(m)).Table?
    ensures var fields := ToLua(Object(m)).fields;
      && (k in fields <==> k.Name? && k.name in m && m[k.name] != Null)
      && (k in fields ==> fields[k] == ToLua(m[k.name]))
  {
    assert ToLua(Object(m)).fields.Keys == ObjectKeys(m);
  }

  /** Tables in tables, `n` of them around an empty one. */
  function Nested(n: nat): Lua {
    if n == 0 then Table(map[]) else Table(map[Index(1) := Nested(n - 1)])
  }

  function NestedJson(n: nat): Json {
    if n == 0 then Object(map[]) else Array([NestedJson(n - 1)])
  }

  lemma TooDeep(utf8: string -> bool, v: Lua, depth: nat)
    requires depth > 64
    ensures ToJson(utf8, v, depth) == None
  {
  }

  lemma {:induction false} NestedConverts(utf8: string -> bool, n: nat, depth: nat)
    ensures ToJson(utf8, Nested(n), depth) == if n + depth <= 64 then Some(NestedJson(n)) else None
    decreases n
  {
    hide ToJson;
    if depth > 64 {
      TooDeep(utf8, Nested(n), depth);
    } else if n == 0 {
      EmptyTable(utf8, depth);
    } else {
      NestedConverts(utf8, n - 1, depth + 1);
      OneElement(utf8, Nested(n - 1), depth);
    }
  }

  /** An empty table is an object. */
  lemma EmptyTable(utf8: string -> bool, depth: nat)
    requires depth <= 64
    ensures ToJson(utf8, Table(map[]), depth) == Some(Object(map[]))
  {
    var results: map<Key, Option<Json>> := map[];
    TableResult(utf8, map[], depth, results);
    ContainerIsObject(results, map[]);
  }

  lemma OneElement(utf8: string -> bool, v: Lua, depth: nat)
    requires depth <= 64
    ensures var r := ToJson(utf8, v, depth + 1);
      ToJson(utf8, Table(map[Index(1) := v]), depth) == if r.Some? then Some(Array([r.value])) else None
  {
    var r := ToJson(utf8, v, depth + 1);
    var results := map[Index(1) := r];
    TableResult(utf8, map[Index(1) := v], depth, results);
    if r.Some? {
      assert results.Keys == Indices(1) by {
        assert forall k :: k in Indices(1) <==> k == Index(1);
      }
      ContainerIsArray(results, [r.value]);
    }
  }

  /** 64 tables around an empty one convert, and 65 are too deep. */
  lemma DeepestNesting(utf8: string -> bool, n: nat)
    ensures ToJson(utf8, Nested(n), 0).Some? <==> n <= 64
  {
    NestedConverts(utf8, n, 0);
  }
}
