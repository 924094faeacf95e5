/**
 * Structured JSON values as the org.json classes hold them once a line has
 * been decoded: objects (JSONObject) and arrays (JSONArray) of values. Text
 * parsing is not part of this model; a line that fails to decode reaches the
 * model as `None`.
 */
module Json {
  import opened Wrappers

  datatype Json =
    | JNull
    | JBool(b: bool)
    | JInt(n: int)
    | JStr(s: string)
    | JArr(elems: seq<Json>)
    | JObj(members: seq<Member>)

  /** One key/value pair of an object, in insertion order. */
  datatype Member = Member(key: string, value: Json)

  /** The keys an object's members carry. */
  function Keys(members: seq<Member>): set<string> {
    set m | m in members :: m.key
  }

  /**
   * JSONObject.opt: the value stored under `key`. Decoding a text that repeats
   * a key keeps the last value (JSONTokener puts each pair in turn), so the
   * last member with that key is the one found.
   */
  function Lookup(members: seq<Member>, key: string): Option<Json> {
    if members == [] then None
    else if members[|members| - 1].key == key then Some(members[|members| - 1].value)
    else Lookup(members[..|members| - 1], key)
  }

  /** A lookup succeeds exactly for the keys present, and finds a member stored under that key. */
  lemma {:induction false} LookupFindsKey(members: seq<Member>, key: string)
    ensures Lookup(members, key).Some? <==> key in Keys(members)
    ensures Lookup(members, key).Some? ==> Member(key, Lookup(members, key).value) in members
  {
    if members != [] {
      var init := members[..|members| - 1];
      LookupFindsKey(init, key);
      assert members == init + [members[|members| - 1]];
    }
  }

  /** A later member with the same key hides an earlier one. */
  lemma LookupLastWins(members: seq<Member>, key: string, v: Json)
    ensures Lookup(members + [Member(key, v)], key) == Some(v)
  {
  }

  /** Looking a key up in a two-member object literal. */
  lemma LookupTwo(a: Member, b: Member, key: string)
    ensures Lookup([a, b], key) ==
      if b.key == key then Some(b.value) else if a.key == key then Some(a.value) else None
  {
    assert [a, b][..1] == [a];
    assert [a][..0] == [];
    assert Lookup([a], key) == if a.key == key then Some(a.value) else Lookup([], key);
  }

  /** Looking a key up in a three-member object literal. */
  lemma LookupThree(a: Member, b: Member, c: Member, key: string)
    ensures Lookup([a, b, c], key) ==
      if c.key == key then Some(c.value) else if b.key == key then Some(b.value)
      else if a.key == key then Some(a.value) else None
  {
    assert [a, b, c][..2] == [a, b];
    LookupTwo(a, b, key);
  }

  /** JSONObject.has */
  predicate Has(members: seq<Member>, key: string) {
    Lookup(members, key).Some?
  }

  /** JSONObject.getInt: fails (None) when the key is missing or not an integer. */
  function GetInt(members: seq<Member>, key: string): Option<int> {
    match Lookup(members, key)
    case Some(JInt(n)) => Some(n)
    case _ => None
  }

  /** JSONObject.getString */
  function GetString(members: seq<Member>, key: string): Option<string> {
    match Lookup(members, key)
    case Some(JStr(s)) => Some(s)
    case _ => None
  }

  /** JSONObject.getJSONArray */
  function GetArray(members: seq<Member>, key: string): Option<seq<Json>> {
    match Lookup(members, key)
    case Some(JArr(a)) => Some(a)
    case _ => None
  }

  /** JSONObject.getJSONObject */
  function GetObject(members: seq<Member>, key: string): Option<seq<Member>> {
    match Lookup(members, key)
    case Some(JObj(o)) => Some(o)
    case _ => None
  }

  /** JSONArray.getInt: fails when the index is out of range or the element is not an integer. */
  function IntAt(elems: seq<Json>, i: nat): Option<int> {
    if i < |elems| && elems[i].JInt? then Some(elems[i].n) else None
  }

  /** JSONArray.getString */
  function StringAt(elems: seq<Json>, i: nat): Option<string> {
    if i < |elems| && elems[i].JStr? then Some(elems[i].s) else None
  }

  /** JSONArray.getJSONArray */
  function ArrayAt(elems: seq<Json>, i: nat): Option<seq<Json>> {
    if i < |elems| && elems[i].JArr? then Some(elems[i].elems) else None
  }
}
