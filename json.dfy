/**
 * The values `json.loads` produces, as the modelled Python code sees them:
 * `None`, booleans, integers, strings, lists and dicts. A dict is the list of
 * its members in insertion order, so Python's `str()` of it can be rendered.
 */
module JsonValue {
  import opened Wrappers
  import opened Strings

  datatype Json =
    | JNull
    | JBool(b: bool)
    | JInt(n: int)
    | JStr(s: string)
    | JArr(items: seq<Json>)
    | JObj(members: seq<Member>)

  datatype Member = Member(key: string, value: Json)

  /** Python truthiness: `None`, `False`, `0`, `""`, `[]` and `{}` are false. */
  predicate Truthy(j: Json) {
    match j
    case JNull => false
    case JBool(b) => b
    case JInt(n) => n != 0
    case JStr(s) => s != ""
    case JArr(items) => items != []
    case JObj(members) => members != []
  }

  /** `key in d` */
  predicate HasKey(members: seq<Member>, key: string) {
    exists i :: 0 <= i < |members| && members[i].key == key
  }

  /** The keys of a dict, in order. */
  function Keys(members: seq<Member>): (ks: seq<string>)
    ensures |ks| == |members|
    ensures forall i :: 0 <= i < |members| ==> ks[i] == members[i].key
  {
    if |members| == 0 then [] else [members[0].key] + Keys(members[1..])
  }

  /** Every key of a dict occurs once, as in every dict Python builds. */
  predicate UniqueKeys(members: seq<Member>) {
    forall i, j :: 0 <= i < j < |members| ==> members[i].key != members[j].key
  }

  /** `d[key]`, or nothing when the key is absent. */
  function Lookup(members: seq<Member>, key: string): (r: Option<Json>)
    ensures r.Some? <==> HasKey(members, key)
    ensures r.Some? ==> exists i :: 0 <= i < |members| && members[i] == Member(key, r.value)
  {
    if |members| == 0 then None
    else if members[0].key == key then Some(members[0].value)
    else
      var r := Lookup(members[1..], key);
      assert HasKey(members, key) ==> HasKey(members[1..], key) by {
        if HasKey(members, key) {
          var i :| 0 <= i < |members| && members[i].key == key;
          assert members[1..][i - 1].key == key;
        }
      }
      assert r.Some? ==> members[1..][0..] == members[1..];
      r
  }

  /** `d.get(key)`: the value, with `None` for a missing key. */
  function Get(members: seq<Member>, key: string): Json {
    Lookup(members, key).GetOr(JNull)
  }

  lemma HasKeyTail(members: seq<Member>, key: string)
    requires |members| > 0 && members[0].key != key
    ensures HasKey(members, key) <==> HasKey(members[1..], key)
  {
    if HasKey(members, key) {
      var i :| 0 <= i < |members| && members[i].key == key;
      assert members[1..][i - 1].key == key;
    }
    if HasKey(members[1..], key) {
      var i :| 0 <= i < |members[1..]| && members[1..][i].key == key;
      assert members[i + 1].key == key;
    }
  }

  /** `d[key] = value`: an existing key keeps its place, a new key goes last. */
  function Put(members: seq<Member>, key: string, value: Json): (r: seq<Member>)
    ensures Lookup(r, key) == Some(value)
    ensures forall k :: k != key ==> Lookup(r, k) == Lookup(members, k)
  {
    if |members| == 0 then [Member(key, value)]
    else if members[0].key == key then [Member(key, value)] + members[1..]
    else
      var r := [members[0]] + Put(members[1..], key, value);
      assert r[1..] == Put(members[1..], key, value);
      r
  }

  /** Assignment keeps the order of the keys and appends a new one. */
  lemma {:induction false} PutKeys(members: seq<Member>, key: string, value: Json)
    ensures Keys(Put(members, key, value))
         == if HasKey(members, key) then Keys(members) else Keys(members) + [key]
  {
    if |members| > 0 && members[0].key != key {
      var m, rest := members[0], members[1..];
      assert members == [m] + rest;
      HasKeyTail(members, key);
      PutKeys(rest, key, value);
      PutFirst(m, rest, key, value);
      KeysCons(m, rest);
      KeysCons(m, Put(rest, key, value));
    } else if |members| > 0 {
      assert HasKey(members, key) by { assert members[0].key == key; }
    }
  }

  /** Assigning a key a dict lacks appends it. */
  lemma {:induction false} PutAbsent(members: seq<Member>, key: string, value: Json)
    requires !HasKey(members, key)
    ensures Put(members, key, value) == members + [Member(key, value)]
  {
    if |members| > 0 {
      var m, rest := members[0], members[1..];
      assert members == [m] + rest;
      assert m.key != key by {
        assert members[0] == m;
      }
      HasKeyTail(members, key);
      PutAbsent(rest, key, value);
      PutFirst(m, rest, key, value);
      ConsAppend(m, rest, Member(key, value));
    }
  }

  /** Assigning the last key, which occurs nowhere before it, replaces its value in place. */
  lemma {:induction false} PutLast(prefix: seq<Member>, key: string, value: Json, updated: Json)
    requires !HasKey(prefix, key)
    ensures Put(prefix + [Member(key, value)], key, updated) == prefix + [Member(key, updated)]
  {
    if |prefix| > 0 {
      var m, rest := prefix[0], prefix[1..];
      assert prefix == [m] + rest;
      assert m.key != key by {
        assert prefix[0] == m;
      }
      assert !HasKey(rest, key) by {
        HasKeyTail(prefix, key);
      }
      PutLast(rest, key, value, updated);
      PutFirst(m, rest + [Member(key, value)], key, updated);
      ConsAppend(m, rest, Member(key, value));
      ConsAppend(m, rest, Member(key, updated));
    }
  }

  lemma KeysCons(m: Member, rest: seq<Member>)
    ensures Keys([m] + rest) == [m.key] + Keys(rest)
  {
    assert ([m] + rest)[1..] == rest;
  }

  lemma ConsAppend(m: Member, rest: seq<Member>, last: Member)
    ensures [m] + rest + [last] == [m] + (rest + [last])
  {
  }

  lemma PutFirst(m: Member, rest: seq<Member>, key: string, value: Json)
    requires m.key != key
    ensures Put([m] + rest, key, value) == [m] + Put(rest, key, value)
  {
    assert ([m] + rest)[1..] == rest;
  }

  /** The last key, which occurs nowhere before it, looks up its own value. */
  lemma LookupLast(prefix: seq<Member>, key: string, value: Json)
    requires !HasKey(prefix, key)
    ensures Lookup(prefix + [Member(key, value)], key) == Some(value)
  {
    assert (prefix + [Member(key, value)])[|prefix|] == Member(key, value);
  }

  /** Appending a member leaves the lookup of every other key as it was. */
  lemma {:induction false} LookupAppend(prefix: seq<Member>, m: Member, key: string)
    requires m.key != key
    ensures Lookup(prefix + [m], key) == Lookup(prefix, key)
  {
    if |prefix| > 0 && prefix[0].key != key {
      LookupAppend(prefix[1..], m, key);
      assert (prefix + [m])[1..] == prefix[1..] + [m];
    }
  }

  /** Assignment adds one member exactly when the key is new. */
  lemma PutLength(members: seq<Member>, key: string, value: Json)
    ensures |Put(members, key, value)| == if HasKey(members, key) then |members| else |members| + 1
  {
    PutKeys(members, key, value);
  }

  /**
   * Python's `key in x` for a string key: membership of a dict key, a
   * substring test on a string, element equality on a list; on `None`, a
   * boolean or a number the operator raises, which is `None` here.
   */
  function PyIn(key: string, x: Json): (r: Option<bool>)
    ensures r.Some? <==> (x.JObj? || x.JStr? || x.JArr?)
    ensures x.JObj? ==> r == Some(HasKey(x.members, key))
    ensures x.JArr? ==> r == Some(JStr(key) in x.items)
  {
    match x
    case JObj(members) => Some(HasKey(members, key))
    case JStr(s) => Some(Contains(s, key))
    case JArr(items) => Some(JStr(key) in items)
    case _ => None
  }

  /** `d.pop(key)` on a dict that holds the key: the dict without that member. */
  function Remove(members: seq<Member>, key: string): (r: seq<Member>)
    ensures forall k :: k != key ==> Lookup(r, k) == Lookup(members, k)
    ensures UniqueKeys(members) ==> !HasKey(r, key)
    ensures |r| <= |members|
  {
    if |members| == 0 then []
    else if members[0].key == key then Remove(members[1..], key)
    else
      var r := [members[0]] + Remove(members[1..], key);
      assert UniqueKeys(members) ==> UniqueKeys(members[1..]) by {
        if UniqueKeys(members) {
          forall i, j | 0 <= i < j < |members[1..]|
            ensures members[1..][i].key != members[1..][j].key
          {
            assert members[1..][i] == members[i + 1] && members[1..][j] == members[j + 1];
          }
        }
      }
      assert r[1..] == Remove(members[1..], key);
      r
  }

  /** Python's `str(x)` of a parsed JSON value. */
  function PyStr(j: Json): string {
    match j
    case JStr(s) => s
    case _ => PyRepr(j)
  }

  /** Python's `repr(x)`; strings are rendered between single quotes without escaping. */
  function PyRepr(j: Json): string
    decreases j, 1
  {
    match j
    case JNull => "None"
    case JBool(b) => if b then "True" else "False"
    case JInt(n) => IntToString(n)
    case JStr(s) => "'" + s + "'"
    case JArr(items) => "[" + ReprItems(j, items) + "]"
    case JObj(members) => "{" + ReprMembers(j, members) + "}"
  }

  function ReprItems(ghost parent: Json, items: seq<Json>): string
    requires forall k :: 0 <= k < |items| ==> items[k] < parent
    decreases parent, 0, |items|
  {
    if |items| == 0 then ""
    else if |items| == 1 then PyRepr(items[0])
    else PyRepr(items[0]) + ", " + ReprItems(parent, items[1..])
  }

  function ReprMembers(ghost parent: Json, members: seq<Member>): string
    requires forall k :: 0 <= k < |members| ==> members[k].value < parent
    decreases parent, 0, |members|
  {
    if |members| == 0 then ""
    else
      var m := "'" + members[0].key + "': " + PyRepr(members[0].value);
      if |members| == 1 then m else m + ", " + ReprMembers(parent, members[1..])
  }
}
