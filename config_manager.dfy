/**
 * The settings manager: the settings are a dict of category dicts. On load
 * the decrypted JSON is completed with the schema's defaults, and a fresh
 * or unreadable settings file is replaced with the defaults. Values are read
 * and written by category and field key.
 *
 * Reading, decrypting and parsing the settings file, and every later write,
 * are outside the model: the load receives the file's existence and the
 * parsed value, and a save records the settings it would write in `stored`.
 */
module ConfigManager {
  import opened Wrappers
  import opened JsonValue
  import opened ConfigSchema

  // ---------------------------------------------------------------------
  // Defaults
  // ---------------------------------------------------------------------

  /** Every value in the dict is itself a dict. */
  ghost predicate AllDicts(s: seq<Member>) {
    forall k :: HasKey(s, k) ==> Lookup(s, k).value.JObj?
  }

  /** `self.settings[key][field.key] = field.default` */
  function SetDefault(s: seq<Member>, key: string, f: SettingField): (r: seq<Member>)
    requires Get(s, key).JObj?
  {
    Put(s, key, JObj(Put(Get(s, key).members, f.key, f.default)))
  }

  /** The field loop of `_init_default_settings` for one category, from field `j` on. */
  function InitFields(s: seq<Member>, cat: SettingCategory, j: nat): (r: seq<Member>)
    requires j <= |cat.fields| && AllDicts(s) && HasKey(s, cat.key)
    ensures AllDicts(r) && HasKey(r, cat.key)
    decreases |cat.fields| - j
  {
    if j == |cat.fields| then s
    else
      SetDefaultDicts(s, cat.key, cat.fields[j]);
      InitFields(SetDefault(s, cat.key, cat.fields[j]), cat, j + 1)
  }

  /** The category loop of `_init_default_settings`, from category `i` on. */
  function InitCats(s: seq<Member>, schema: seq<SettingCategory>, i: nat): (r: seq<Member>)
    requires i <= |schema| && AllDicts(s)
    ensures AllDicts(r)
    decreases |schema| - i
  {
    if i == |schema| then s
    else
      var cat := schema[i];
      var s1 := if !HasKey(s, cat.key) then Put(s, cat.key, JObj([])) else s;
      AddEmptyDicts(s, cat.key);
      InitCats(InitFields(s1, cat, 0), schema, i + 1)
  }

  /** Setting a field of a category dict keeps every value a dict. */
  lemma SetDefaultDicts(s: seq<Member>, key: string, f: SettingField)
    requires AllDicts(s) && HasKey(s, key)
    ensures Get(s, key).JObj?
    ensures AllDicts(SetDefault(s, key, f)) && HasKey(SetDefault(s, key, f), key)
  {
    var t := SetDefault(s, key, f);
    forall k | HasKey(t, k)
      ensures Lookup(t, k).value.JObj?
    {
      if k != key {
        assert Lookup(t, k) == Lookup(s, k);
      }
    }
  }

  /** Creating a missing category as `{}` keeps every value a dict. */
  lemma AddEmptyDicts(s: seq<Member>, key: string)
    requires AllDicts(s)
    ensures var s1 := if !HasKey(s, key) then Put(s, key, JObj([])) else s;
            AllDicts(s1) && HasKey(s1, key)
  {
    if !HasKey(s, key) {
      var t := Put(s, key, JObj([]));
      forall k | HasKey(t, k)
        ensures Lookup(t, k).value.JObj?
      {
        if k != key {
          assert Lookup(t, k) == Lookup(s, k);
        }
      }
    }
  }

  /** The settings `_init_default_settings` builds. */
  function Defaults(schema: seq<SettingCategory>): seq<Member> {
    InitCats([], schema, 0)
  }

  /** The first `n` fields of a category with their defaults, in order. */
  function FieldDefaults(fields: seq<SettingField>, n: nat): (r: seq<Member>)
    requires n <= |fields|
    ensures |r| == n && forall j :: 0 <= j < n ==> r[j] == Member(fields[j].key, fields[j].default)
  {
    seq(n, j requires 0 <= j < n => Member(fields[j].key, fields[j].default))
  }

  /** The first `n` categories, each a dict of its fields with their defaults, in order. */
  function DefaultTree(schema: seq<SettingCategory>, n: nat): (r: seq<Member>)
    requires n <= |schema|
    ensures |r| == n
    ensures forall i :: 0 <= i < n ==>
              r[i] == Member(schema[i].key, JObj(FieldDefaults(schema[i].fields, |schema[i].fields|)))
  {
    seq(n, i requires 0 <= i < n => Member(schema[i].key, JObj(FieldDefaults(schema[i].fields, |schema[i].fields|))))
  }

  lemma FieldDefaultsSnoc(fields: seq<SettingField>, n: nat)
    requires n < |fields|
    ensures FieldDefaults(fields, n + 1) == FieldDefaults(fields, n) + [Member(fields[n].key, fields[n].default)]
  {
    var a := FieldDefaults(fields, n + 1);
    var b := FieldDefaults(fields, n) + [Member(fields[n].key, fields[n].default)];
    assert |a| == |b|;
    forall k | 0 <= k < |a|
      ensures a[k] == b[k]
    {
      if k < n {
        assert b[k] == FieldDefaults(fields, n)[k];
      }
    }
  }

  lemma TreeSnoc(schema: seq<SettingCategory>, n: nat)
    requires n < |schema|
    ensures DefaultTree(schema, n + 1)
         == DefaultTree(schema, n) + [Member(schema[n].key, JObj(FieldDefaults(schema[n].fields, |schema[n].fields|)))]
  {
    var a := DefaultTree(schema, n + 1);
    var b := DefaultTree(schema, n) + [Member(schema[n].key, JObj(FieldDefaults(schema[n].fields, |schema[n].fields|)))];
    assert |a| == |b|;
    forall k | 0 <= k < |a|
      ensures a[k] == b[k]
    {
      if k < n {
        assert b[k] == DefaultTree(schema, n)[k];
      }
    }
  }

  /** The dict with the category's key last, holding its first `n` fields. */
  function WithFields(prefix: seq<Member>, cat: SettingCategory, n: nat): seq<Member>
    requires n <= |cat.fields|
  {
    prefix + [Member(cat.key, JObj(FieldDefaults(cat.fields, n)))]
  }

  lemma WithFieldsDicts(prefix: seq<Member>, cat: SettingCategory, n: nat)
    requires n <= |cat.fields| && AllDicts(prefix) && !HasKey(prefix, cat.key)
    ensures AllDicts(WithFields(prefix, cat, n)) && HasKey(WithFields(prefix, cat, n), cat.key)
  {
    var m := Member(cat.key, JObj(FieldDefaults(cat.fields, n)));
    LookupLast(prefix, cat.key, m.value);
    forall k | HasKey(prefix + [m], k)
      ensures Lookup(prefix + [m], k).value.JObj?
    {
      if k != cat.key {
        LookupAppend(prefix, m, k);
      }
    }
  }

  lemma InitFieldStep(prefix: seq<Member>, cat: SettingCategory, j: nat)
    requires j < |cat.fields| && FieldsKeyed(cat.fields) && !HasKey(prefix, cat.key)
    ensures Get(WithFields(prefix, cat, j), cat.key).JObj?
    ensures SetDefault(WithFields(prefix, cat, j), cat.key, cat.fields[j]) == WithFields(prefix, cat, j + 1)
  {
    var f := cat.fields[j];
    var fs := FieldDefaults(cat.fields, j);
    LookupLast(prefix, cat.key, JObj(fs));
    assert !HasKey(fs, f.key) by {
      forall m | 0 <= m < |fs|
        ensures fs[m].key != f.key
      {
        assert fs[m].key == cat.fields[m].key;
      }
    }
    PutAbsent(fs, f.key, f.default);
    FieldDefaultsSnoc(cat.fields, j);
    PutLast(prefix, cat.key, JObj(fs), JObj(FieldDefaults(cat.fields, j + 1)));
  }

  lemma {:induction false} InitFieldsExact(prefix: seq<Member>, cat: SettingCategory, j: nat)
    requires j <= |cat.fields| && FieldsKeyed(cat.fields) && !HasKey(prefix, cat.key) && AllDicts(prefix)
    ensures AllDicts(WithFields(prefix, cat, j)) && HasKey(WithFields(prefix, cat, j), cat.key)
    ensures InitFields(WithFields(prefix, cat, j), cat, j) == WithFields(prefix, cat, |cat.fields|)
    decreases |cat.fields| - j
  {
    WithFieldsDicts(prefix, cat, j);
    if j < |cat.fields| {
      InitFieldStep(prefix, cat, j);
      InitFieldsExact(prefix, cat, j + 1);
    }
  }

  lemma TreeDicts(schema: seq<SettingCategory>, n: nat)
    requires n <= |schema|
    ensures AllDicts(DefaultTree(schema, n))
    ensures forall k :: HasKey(DefaultTree(schema, n), k) <==> exists i :: 0 <= i < n && schema[i].key == k
  {
    var t := DefaultTree(schema, n);
    forall k | HasKey(t, k)
      ensures Lookup(t, k).value.JObj?
    {
      var i :| 0 <= i < |t| && t[i] == Member(k, Lookup(t, k).value);
    }
    forall k | exists i :: 0 <= i < n && schema[i].key == k
      ensures HasKey(t, k)
    {
      var i :| 0 <= i < n && schema[i].key == k;
      assert t[i].key == k;
    }
  }

  lemma {:induction false} InitCatsExact(schema: seq<SettingCategory>, i: nat)
    requires i <= |schema| && WellKeyed(schema)
    ensures AllDicts(DefaultTree(schema, i))
    ensures InitCats(DefaultTree(schema, i), schema, i) == DefaultTree(schema, |schema|)
    decreases |schema| - i
  {
    var t := DefaultTree(schema, i);
    TreeDicts(schema, i);
    if i < |schema| {
      var cat := schema[i];
      assert !HasKey(t, cat.key) by {
        forall m | 0 <= m < |t|
          ensures t[m].key != cat.key
        {
          assert t[m].key == schema[m].key;
        }
      }
      PutAbsent(t, cat.key, JObj([]));
      assert FieldDefaults(cat.fields, 0) == [];
      assert Put(t, cat.key, JObj([])) == WithFields(t, cat, 0);
      InitFieldsExact(t, cat, 0);
      TreeSnoc(schema, i);
      assert WithFields(t, cat, |cat.fields|) == DefaultTree(schema, i + 1);
      InitCatsExact(schema, i + 1);
    }
  }

  /**
   * With distinct keys the defaults hold exactly the schema's categories, in
   * order, each a dict of exactly its fields set to their defaults.
   */
  lemma DefaultsExact(schema: seq<SettingCategory>)
    requires WellKeyed(schema)
    ensures Defaults(schema) == DefaultTree(schema, |schema|)
  {
    InitCatsExact(schema, 0);
    assert DefaultTree(schema, 0) == [];
  }

  // ---------------------------------------------------------------------
  // Merging the defaults into loaded settings
  // ---------------------------------------------------------------------

  /** Where a loop stopped: the settings so far, the `updated` flag, and whether it raised. */
  datatype Outcome = Outcome(settings: seq<Member>, updated: bool, raised: bool)

  /**
   * The field loop of `_merge_defaults` for one category, from field `j` on.
   * `field.key not in settings[key]` raises on `None`, a boolean or a number;
   * on a string or a list that lacks the key the assignment raises.
   */
  function MergeFields(s: seq<Member>, cat: SettingCategory, j: nat, updated: bool): Outcome
    requires j <= |cat.fields|
    decreases |cat.fields| - j
  {
    if j == |cat.fields| then Outcome(s, updated, false)
    else
      var f := cat.fields[j];
      var c := Get(s, cat.key);
      match PyIn(f.key, c)
      case None => Outcome(s, updated, true)
      case Some(present) =>
        if present then MergeFields(s, cat, j + 1, updated)
        else if !c.JObj? then Outcome(s, updated, true)
        else MergeFields(Put(s, cat.key, JObj(Put(c.members, f.key, f.default))), cat, j + 1, true)
  }

  /** The rest of the category loop once category `i`'s fields are done. */
  function Continue(o: Outcome, schema: seq<SettingCategory>, i: nat): Outcome
    requires i < |schema|
    decreases |schema| - i, 0
  {
    if o.raised then o else MergeCats(o.settings, schema, i + 1, o.updated)
  }

  /** The category loop of `_merge_defaults`, from category `i` on. */
  function MergeCats(s: seq<Member>, schema: seq<SettingCategory>, i: nat, updated: bool): Outcome
    requires i <= |schema|
    decreases |schema| - i, 1
  {
    if i == |schema| then Outcome(s, updated, false)
    else
      var cat := schema[i];
      var added := !HasKey(s, cat.key);
      var s1 := if added then Put(s, cat.key, JObj([])) else s;
      Continue(MergeFields(s1, cat, 0, updated || added), schema, i)
  }

  lemma MergeFieldPresent(s: seq<Member>, cat: SettingCategory, j: nat, u: bool)
    requires j < |cat.fields| && PyIn(cat.fields[j].key, Get(s, cat.key)) == Some(true)
    ensures MergeFields(s, cat, j, u) == MergeFields(s, cat, j + 1, u)
  {
  }

  lemma MergeFieldAdded(s: seq<Member>, cat: SettingCategory, j: nat, u: bool)
    requires j < |cat.fields| && Get(s, cat.key).JObj? && !HasKey(Get(s, cat.key).members, cat.fields[j].key)
    ensures MergeFields(s, cat, j, u)
         == MergeFields(Put(s, cat.key, JObj(Put(Get(s, cat.key).members, cat.fields[j].key, cat.fields[j].default))), cat, j + 1, true)
  {
  }

  lemma MergeFieldRaises(s: seq<Member>, cat: SettingCategory, j: nat, u: bool)
    requires j < |cat.fields|
    requires var c := Get(s, cat.key);
             PyIn(cat.fields[j].key, c).None? || (PyIn(cat.fields[j].key, c) == Some(false) && !c.JObj?)
    ensures MergeFields(s, cat, j, u) == Outcome(s, u, true)
  {
  }

  /** The field is in its category by `in`: a member of a dict, or a substring or element of another value. */
  predicate Covered(s: seq<Member>, catKey: string, fieldKey: string) {
    PyIn(fieldKey, Get(s, catKey)) == Some(true)
  }

  /** The entry `t` holds where `s` held `v`: a dict keeps every member it had, any other value stays. */
  ghost predicate Kept(v: Json, w: Option<Json>) {
    && w.Some?
    && if v.JObj? then w.value.JObj? && forall fk :: HasKey(v.members, fk) ==> Lookup(w.value.members, fk) == Lookup(v.members, fk)
       else w.value == v
  }

  /** Every entry of `s` is kept in `t`. */
  ghost predicate Preserved(s: seq<Member>, t: seq<Member>) {
    forall k :: HasKey(s, k) ==> Kept(Lookup(s, k).value, Lookup(t, k))
  }

  function DictLen(v: Json): nat {
    if v.JObj? then |v.members| else 0
  }

  /** The number of keys, counting those of the dicts one level down. */
  function Size(s: seq<Member>): nat {
    if |s| == 0 then 0 else 1 + DictLen(s[0].value) + Size(s[1..])
  }

  lemma {:induction false} PutSize(s: seq<Member>, key: string, v: Json)
    ensures HasKey(s, key) ==> Size(Put(s, key, v)) == Size(s) - DictLen(Lookup(s, key).value) + DictLen(v)
    ensures !HasKey(s, key) ==> Size(Put(s, key, v)) == Size(s) + 1 + DictLen(v)
  {
    if |s| > 0 {
      if s[0].key == key {
        assert HasKey(s, key);
        assert Put(s, key, v)[1..] == s[1..];
      } else {
        HasKeyTail(s, key);
        PutFirst(s[0], s[1..], key, v);
        assert s == [s[0]] + s[1..];
        PutSize(s[1..], key, v);
        assert ([s[0]] + Put(s[1..], key, v))[1..] == Put(s[1..], key, v);
      }
    } else {
      assert Put(s, key, v) == [Member(key, v)];
      assert Put(s, key, v)[1..] == [];
    }
  }

  lemma PreservedRefl(s: seq<Member>)
    ensures Preserved(s, s)
  {
  }

  lemma PreservedTrans(s: seq<Member>, t: seq<Member>, u: seq<Member>)
    requires Preserved(s, t) && Preserved(t, u)
    ensures Preserved(s, u)
  {
    forall k | HasKey(s, k)
      ensures Kept(Lookup(s, k).value, Lookup(u, k))
    {
      assert Kept(Lookup(s, k).value, Lookup(t, k));
      assert HasKey(t, k);
      assert Kept(Lookup(t, k).value, Lookup(u, k));
    }
  }

  lemma CoveredKept(s: seq<Member>, t: seq<Member>, catKey: string, fieldKey: string)
    requires Covered(s, catKey, fieldKey) && Preserved(s, t)
    ensures Covered(t, catKey, fieldKey)
  {
    assert HasKey(s, catKey);
    assert Kept(Lookup(s, catKey).value, Lookup(t, catKey));
  }

  /** Adding a missing category as an empty dict preserves every entry and adds one key. */
  lemma AddCategory(s: seq<Member>, key: string)
    requires !HasKey(s, key)
    ensures Preserved(s, Put(s, key, JObj([])))
    ensures Size(Put(s, key, JObj([]))) == Size(s) + 1
  {
    PutSize(s, key, JObj([]));
  }

  /** Adding a missing field to a category dict preserves every entry and adds one key. */
  lemma AddField(s: seq<Member>, key: string, fk: string, d: Json)
    requires Get(s, key).JObj? && !HasKey(Get(s, key).members, fk)
    ensures var t := Put(s, key, JObj(Put(Get(s, key).members, fk, d)));
            && Preserved(s, t) && Size(t) == Size(s) + 1 && Covered(t, key, fk)
  {
    var m := Get(s, key).members;
    assert HasKey(s, key);
    PutSize(s, key, JObj(Put(m, fk, d)));
    PutLength(m, fk, d);
  }

  /** The field loop keeps every entry. */
  lemma {:induction false} MergeFieldsPreserved(s: seq<Member>, cat: SettingCategory, j: nat, u: bool)
    requires j <= |cat.fields|
    ensures Preserved(s, MergeFields(s, cat, j, u).settings)
    decreases |cat.fields| - j
  {
    PreservedRefl(s);
    if j < |cat.fields| {
      var f := cat.fields[j];
      var c := Get(s, cat.key);
      if PyIn(f.key, c) == Some(true) {
        MergeFieldPresent(s, cat, j, u);
        MergeFieldsPreserved(s, cat, j + 1, u);
      } else if PyIn(f.key, c) == Some(false) && c.JObj? {
        var t := Put(s, cat.key, JObj(Put(c.members, f.key, f.default)));
        MergeFieldAdded(s, cat, j, u);
        AddField(s, cat.key, f.key, f.default);
        MergeFieldsPreserved(t, cat, j + 1, true);
        PreservedTrans(s, t, MergeFields(t, cat, j + 1, true).settings);
      } else {
        MergeFieldRaises(s, cat, j, u);
      }
    }
  }

  /** The field loop sets `updated` exactly when it added something, which makes the dict larger. */
  lemma {:induction false} MergeFieldsGrows(s: seq<Member>, cat: SettingCategory, j: nat, u: bool)
    requires j <= |cat.fields|
    ensures var o := MergeFields(s, cat, j, u);
            (o.settings == s && o.updated == u) || (o.updated && Size(o.settings) > Size(s))
    decreases |cat.fields| - j
  {
    if j < |cat.fields| {
      var f := cat.fields[j];
      var c := Get(s, cat.key);
      if PyIn(f.key, c) == Some(true) {
        MergeFieldPresent(s, cat, j, u);
        MergeFieldsGrows(s, cat, j + 1, u);
      } else if PyIn(f.key, c) == Some(false) && c.JObj? {
        var t := Put(s, cat.key, JObj(Put(c.members, f.key, f.default)));
        MergeFieldAdded(s, cat, j, u);
        AddField(s, cat.key, f.key, f.default);
        MergeFieldsGrows(t, cat, j + 1, true);
      } else {
        MergeFieldRaises(s, cat, j, u);
      }
    }
  }

  /** Unless it raises, the field loop leaves every field it passes in the category. */
  lemma {:induction false} MergeFieldsCovers(s: seq<Member>, cat: SettingCategory, j: nat, u: bool)
    requires j <= |cat.fields|
    ensures var o := MergeFields(s, cat, j, u);
            !o.raised ==> forall m :: j <= m < |cat.fields| ==> Covered(o.settings, cat.key, cat.fields[m].key)
    decreases |cat.fields| - j
  {
    if j < |cat.fields| {
      var f := cat.fields[j];
      var c := Get(s, cat.key);
      if PyIn(f.key, c) == Some(true) {
        MergeFieldPresent(s, cat, j, u);
        MergeFieldsCovers(s, cat, j + 1, u);
        MergeFieldsPreserved(s, cat, j + 1, u);
        CoveredKept(s, MergeFields(s, cat, j + 1, u).settings, cat.key, f.key);
      } else if PyIn(f.key, c) == Some(false) && c.JObj? {
        var t := Put(s, cat.key, JObj(Put(c.members, f.key, f.default)));
        MergeFieldAdded(s, cat, j, u);
        AddField(s, cat.key, f.key, f.default);
        MergeFieldsCovers(t, cat, j + 1, true);
        MergeFieldsPreserved(t, cat, j + 1, true);
        CoveredKept(t, MergeFields(t, cat, j + 1, true).settings, cat.key, f.key);
      } else {
        MergeFieldRaises(s, cat, j, u);
      }
    }
  }

  lemma MergeCatStep(s: seq<Member>, schema: seq<SettingCategory>, i: nat, u: bool)
    requires i < |schema|
    ensures var added := !HasKey(s, schema[i].key);
            var s1 := if added then Put(s, schema[i].key, JObj([])) else s;
            MergeCats(s, schema, i, u) == Continue(MergeFields(s1, schema[i], 0, u || added), schema, i)
  {
  }

  /** The category loop keeps every entry. */
  lemma {:induction false} MergeCatsPreserved(s: seq<Member>, schema: seq<SettingCategory>, i: nat, u: bool)
    requires i <= |schema|
    ensures Preserved(s, MergeCats(s, schema, i, u).settings)
    decreases |schema| - i
  {
    PreservedRefl(s);
    if i < |schema| {
      var cat := schema[i];
      var added := !HasKey(s, cat.key);
      var s1 := if added then Put(s, cat.key, JObj([])) else s;
      if added {
        AddCategory(s, cat.key);
      }
      MergeCatStep(s, schema, i, u);
      MergeFieldsPreserved(s1, cat, 0, u || added);
      var o1 := MergeFields(s1, cat, 0, u || added);
      PreservedTrans(s, s1, o1.settings);
      if !o1.raised {
        MergeCatsPreserved(o1.settings, schema, i + 1, o1.updated);
        PreservedTrans(s, o1.settings, MergeCats(o1.settings, schema, i + 1, o1.updated).settings);
      }
    }
  }

  /** The category loop sets `updated` exactly when it added something, which makes the settings larger. */
  lemma {:induction false} MergeCatsGrows(s: seq<Member>, schema: seq<SettingCategory>, i: nat, u: bool)
    requires i <= |schema|
    ensures var o := MergeCats(s, schema, i, u);
            (o.settings == s && o.updated == u) || (o.updated && Size(o.settings) > Size(s))
    decreases |schema| - i
  {
    if i < |schema| {
      var cat := schema[i];
      var added := !HasKey(s, cat.key);
      var s1 := if added then Put(s, cat.key, JObj([])) else s;
      if added {
        AddCategory(s, cat.key);
      }
      MergeCatStep(s, schema, i, u);
      MergeFieldsGrows(s1, cat, 0, u || added);
      var o1 := MergeFields(s1, cat, 0, u || added);
      if !o1.raised {
        MergeCatsGrows(o1.settings, schema, i + 1, o1.updated);
      }
    }
  }

  /** Unless it raises, the category loop leaves every field of every category it passes in its category. */
  lemma {:induction false} MergeCatsCovers(s: seq<Member>, schema: seq<SettingCategory>, i: nat, u: bool)
    requires i <= |schema|
    ensures var o := MergeCats(s, schema, i, u);
            !o.raised ==> forall n, m :: i <= n < |schema| && 0 <= m < |schema[n].fields| ==>
                            Covered(o.settings, schema[n].key, schema[n].fields[m].key)
    decreases |schema| - i
  {
    if i < |schema| {
      var cat := schema[i];
      var added := !HasKey(s, cat.key);
      var s1 := if added then Put(s, cat.key, JObj([])) else s;
      MergeCatStep(s, schema, i, u);
      MergeFieldsCovers(s1, cat, 0, u || added);
      var o1 := MergeFields(s1, cat, 0, u || added);
      if !o1.raised {
        MergeCatsCovers(o1.settings, schema, i + 1, o1.updated);
        MergeCatsPreserved(o1.settings, schema, i + 1, o1.updated);
        var o := MergeCats(o1.settings, schema, i + 1, o1.updated);
        assert MergeCats(s, schema, i, u) == o;
        if !o.raised {
          forall n, m | i <= n < |schema| && 0 <= m < |schema[n].fields|
            ensures Covered(o.settings, schema[n].key, schema[n].fields[m].key)
          {
            if n == i {
              CoveredKept(o1.settings, o.settings, cat.key, cat.fields[m].key);
            }
          }
        }
      }
    }
  }

  /**
   * After a merge that does not raise every schema field is in its
   * category, every existing entry is kept (a dict keeps all its members
   * with their values), and something was added exactly when `updated` is
   * set, which is exactly when the settings changed.
   */
  lemma MergeComplete(s: seq<Member>, schema: seq<SettingCategory>)
    ensures var o := MergeCats(s, schema, 0, false);
            && Preserved(s, o.settings)
            && (o.updated <==> o.settings != s)
            && (!o.raised ==> forall n, m :: 0 <= n < |schema| && 0 <= m < |schema[n].fields| ==>
                                Covered(o.settings, schema[n].key, schema[n].fields[m].key))
  {
    MergeCatsPreserved(s, schema, 0, false);
    MergeCatsGrows(s, schema, 0, false);
    MergeCatsCovers(s, schema, 0, false);
  }

  /** The loop touches only the schema's categories: every other key keeps its value. */
  lemma {:induction false} MergeOthers(s: seq<Member>, schema: seq<SettingCategory>, i: nat, u: bool, k: string)
    requires i <= |schema| && forall n :: i <= n < |schema| ==> schema[n].key != k
    ensures Lookup(MergeCats(s, schema, i, u).settings, k) == Lookup(s, k)
    decreases |schema| - i
  {
    if i < |schema| {
      var cat := schema[i];
      var added := !HasKey(s, cat.key);
      var s1 := if added then Put(s, cat.key, JObj([])) else s;
      assert Lookup(s1, k) == Lookup(s, k);
      MergeCatStep(s, schema, i, u);
      MergeFieldsOthers(s1, cat, 0, u || added, k);
      var o1 := MergeFields(s1, cat, 0, u || added);
      if !o1.raised {
        MergeOthers(o1.settings, schema, i + 1, o1.updated, k);
      }
    }
  }

  lemma {:induction false} MergeFieldsOthers(s: seq<Member>, cat: SettingCategory, j: nat, u: bool, k: string)
    requires j <= |cat.fields| && k != cat.key
    ensures Lookup(MergeFields(s, cat, j, u).settings, k) == Lookup(s, k)
    decreases |cat.fields| - j
  {
    if j < |cat.fields| {
      var f := cat.fields[j];
      var c := Get(s, cat.key);
      if PyIn(f.key, c) == Some(true) {
        MergeFieldsOthers(s, cat, j + 1, u, k);
      } else if PyIn(f.key, c) == Some(false) && c.JObj? {
        MergeFieldsOthers(Put(s, cat.key, JObj(Put(c.members, f.key, f.default))), cat, j + 1, true, k);
      }
    }
  }

  // ---------------------------------------------------------------------
  // Reading and writing one setting
  // ---------------------------------------------------------------------

  /**
   * `settings.get(category, {}).get(field)`; `None` where `.get` is called on
   * a stored value that is not a dict, which raises `AttributeError`.
   */
  function GetSetting(s: seq<Member>, catKey: string, fieldKey: string): (r: Option<Json>)
    ensures !HasKey(s, catKey) ==> r == Some(JNull)
    ensures HasKey(s, catKey) ==> (r.Some? <==> Get(s, catKey).JObj?)
    ensures r.Some? && Get(s, catKey).JObj? ==> r.value == Get(Get(s, catKey).members, fieldKey)
  {
    var c := Lookup(s, catKey).GetOr(JObj([]));
    if c.JObj? then Some(Get(c.members, fieldKey)) else None
  }

  /**
   * `set_setting`: the category is created as an empty dict when missing;
   * assigning into a stored value that is not a dict raises, and nothing
   * changed before that.
   */
  function SetSetting(s: seq<Member>, catKey: string, fieldKey: string, value: Json): (r: Option<seq<Member>>)
    ensures r.None? <==> HasKey(s, catKey) && !Get(s, catKey).JObj?
  {
    var s1 := if !HasKey(s, catKey) then Put(s, catKey, JObj([])) else s;
    var c := Get(s1, catKey);
    if c.JObj? then Some(Put(s1, catKey, JObj(Put(c.members, fieldKey, value)))) else None
  }

  /** A later get returns the value set, and every other setting reads as before. */
  lemma GetAfterSet(s: seq<Member>, catKey: string, fieldKey: string, value: Json, c2: string, f2: string)
    requires SetSetting(s, catKey, fieldKey, value).Some?
    ensures var t := SetSetting(s, catKey, fieldKey, value).value;
            && GetSetting(t, catKey, fieldKey) == Some(value)
            && ((c2, f2) != (catKey, fieldKey) ==> GetSetting(t, c2, f2) == GetSetting(s, c2, f2))
            && (forall k :: k != catKey ==> Lookup(t, k) == Lookup(s, k))
  {
    var s1 := if !HasKey(s, catKey) then Put(s, catKey, JObj([])) else s;
    var c := Get(s1, catKey);
    var inner := Put(c.members, fieldKey, value);
    var t := Put(s1, catKey, JObj(inner));
    assert SetSetting(s, catKey, fieldKey, value).value == t;
    assert forall k :: k != catKey ==> Lookup(s1, k) == Lookup(s, k);
    if c2 == catKey && f2 != fieldKey {
      assert Get(inner, f2) == Get(c.members, f2);
      if !HasKey(s, catKey) {
        assert c.members == [];
      }
    }
  }

  /** The settings the decoder reads (`formatting`, `anti_censorship`, ...) are not in the schema: they read as `None`. */
  lemma UnknownCategoryReadsNone(schema: seq<SettingCategory>, catKey: string, fieldKey: string)
    requires WellKeyed(schema) && forall i :: 0 <= i < |schema| ==> schema[i].key != catKey
    ensures GetSetting(Defaults(schema), catKey, fieldKey) == Some(JNull)
  {
    DefaultsExact(schema);
    TreeDicts(schema, |schema|);
  }

  // ---------------------------------------------------------------------
  // The manager
  // ---------------------------------------------------------------------

  /** What `load_settings` leaves in memory. */
  function Loaded(schema: seq<SettingCategory>, fileExists: bool, decoded: Option<Json>): seq<Member> {
    if !fileExists || decoded.None? || !decoded.value.JObj? then Defaults(schema)
    else
      var o := MergeCats(decoded.value.members, schema, 0, false);
      if o.raised then Defaults(schema) else o.settings
  }

  /**
   * The settings manager. `stored` is what the settings file holds as far
   * as this manager wrote it.
   */
  class ConfigManager {
    const schema: seq<SettingCategory>
    var settings: seq<Member>
    var stored: Option<seq<Member>>

    constructor(schema: seq<SettingCategory>)
      ensures this.schema == schema && settings == [] && stored == None
    {
      this.schema := schema;
      settings := [];
      stored := None;
    }

    /** `save_settings`: the file receives the current settings. */
    method SaveSettings()
      modifies this
      ensures settings == old(settings) && stored == Some(settings)
    {
      stored := Some(settings);
    }

    /** `_init_default_settings` */
    method InitDefaultSettings()
      modifies this
      ensures settings == Defaults(schema) && stored == Some(settings)
    {
      settings := [];
      var i := 0;
      while i < |schema|
        invariant 0 <= i <= |schema| && AllDicts(settings)
        invariant InitCats(settings, schema, i) == Defaults(schema)
        decreases |schema| - i
      {
        var cat := schema[i];
        AddEmptyDicts(settings, cat.key);
        if !HasKey(settings, cat.key) {
          settings := Put(settings, cat.key, JObj([]));
        }
        FillDefaults(cat);
        i := i + 1;
      }
      SaveSettings();
    }

    /** The field loop of `_init_default_settings` for one category. */
    method FillDefaults(cat: SettingCategory)
      requires AllDicts(settings) && HasKey(settings, cat.key)
      modifies this
      ensures settings == InitFields(old(settings), cat, 0) && stored == old(stored)
    {
      var s := settings;
      var j := 0;
      while j < |cat.fields|
        invariant 0 <= j <= |cat.fields| && AllDicts(s) && HasKey(s, cat.key)
        invariant InitFields(s, cat, j) == InitFields(old(settings), cat, 0)
        invariant unchanged(this)
        decreases |cat.fields| - j
      {
        SetDefaultDicts(s, cat.key, cat.fields[j]);
        s := SetDefault(s, cat.key, cat.fields[j]);
        j := j + 1;
      }
      settings := s;
    }

    /** `_merge_defaults`; `raised` says that it raised part-way, leaving the settings as far as it got. */
    method MergeDefaults() returns (raised: bool)
      modifies this
      ensures var o := MergeCats(old(settings), schema, 0, false);
              && raised == o.raised && settings == o.settings
              && stored == if !o.raised && o.updated then Some(settings) else old(stored)
    {
      raised := false;
      var updated := false;
      var i := 0;
      while i < |schema|
        invariant 0 <= i <= |schema| && stored == old(stored) && !raised
        invariant MergeCats(old(settings), schema, 0, false) == MergeCats(settings, schema, i, updated)
        decreases |schema| - i
      {
        var cat := schema[i];
        ghost var before := settings;
        ghost var u := updated;
        var added := !HasKey(settings, cat.key);
        if added {
          settings := Put(settings, cat.key, JObj([]));
          updated := true;
        }
        assert MergeCats(before, schema, i, u) == Continue(MergeFields(settings, cat, 0, updated), schema, i);
        raised, updated := MergeCategory(i, updated);
        if raised {
          return;
        }
        i := i + 1;
      }
      if updated {
        SaveSettings();
      }
    }

    /** The field loop of `_merge_defaults` for category `i`. */
    method MergeCategory(i: nat, updated0: bool) returns (raised: bool, updated: bool)
      requires i < |schema|
      modifies this
      ensures Outcome(settings, updated, raised) == MergeFields(old(settings), schema[i], 0, updated0)
      ensures stored == old(stored)
    {
      var cat := schema[i];
      updated := updated0;
      var j := 0;
      while j < |cat.fields|
        invariant 0 <= j <= |cat.fields| && stored == old(stored)
        invariant MergeFields(old(settings), cat, 0, updated0) == MergeFields(settings, cat, j, updated)
        decreases |cat.fields| - j
      {
        var f := cat.fields[j];
        var c := Get(settings, cat.key);
        var present := PyIn(f.key, c);
        if present.None? || (!present.value && !c.JObj?) {
          MergeFieldRaises(settings, cat, j, updated);
          return true, updated;
        }
        if !present.value {
          MergeFieldAdded(settings, cat, j, updated);
          settings := Put(settings, cat.key, JObj(Put(c.members, f.key, f.default)));
          updated := true;
        } else {
          MergeFieldPresent(settings, cat, j, updated);
        }
        j := j + 1;
      }
      raised := false;
    }

    /**
     * `load_settings`, given whether the file exists and the parsed content
     * (`None` when reading, decrypting or parsing fails). A parsed value
     * that is not a dict makes the first category's test or assignment
     * raise, given that the first category has a field.
     */
    method LoadSettings(fileExists: bool, decoded: Option<Json>)
      modifies this
      requires |schema| > 0 && |schema[0].fields| > 0
      ensures settings == Loaded(schema, fileExists, decoded)
      ensures !fileExists || decoded.None? || !decoded.value.JObj? ==> stored == Some(settings)
      ensures fileExists && decoded.Some? && decoded.value.JObj? ==>
                var o := MergeCats(decoded.value.members, schema, 0, false);
                stored == if o.raised || o.updated then Some(settings) else old(stored)
    {
      if !fileExists || decoded.None? || !decoded.value.JObj? {
        InitDefaultSettings();
        return;
      }
      settings := decoded.value.members;
      var raised := MergeDefaults();
      if raised {
        InitDefaultSettings();
      }
    }

    /**
     * `get_setting`: a missing category reads as `None` (`JNull`), a dict
     * category gives the field's value or `None`, and a category that holds
     * another value makes `.get` raise (`r == None`).
     */
    function Setting(catKey: string, fieldKey: string): (r: Option<Json>)
      reads this
      ensures !HasKey(settings, catKey) ==> r == Some(JNull)
      ensures HasKey(settings, catKey) ==> (r.Some? <==> Get(settings, catKey).JObj?)
      ensures HasKey(settings, catKey) && Get(settings, catKey).JObj? ==> r == Some(Get(Get(settings, catKey).members, fieldKey))
    {
      GetSetting(settings, catKey, fieldKey)
    }

    /** `set_setting`; `raised` says that the category holds a value that is not a dict. */
    method SetSettingValue(catKey: string, fieldKey: string, value: Json) returns (raised: bool)
      modifies this
      ensures raised <==> SetSetting(old(settings), catKey, fieldKey, value).None?
      ensures settings == SetSetting(old(settings), catKey, fieldKey, value).GetOr(old(settings))
      ensures stored == old(stored)
      ensures !raised ==> Setting(catKey, fieldKey) == Some(value)
      ensures !raised ==> forall c2, f2 :: (c2, f2) != (catKey, fieldKey) ==> Setting(c2, f2) == GetSetting(old(settings), c2, f2)
    {
      ghost var s0 := settings;
      if SetSetting(s0, catKey, fieldKey, value).Some? {
        forall c2, f2
          ensures (c2, f2) != (catKey, fieldKey) ==>
                    GetSetting(SetSetting(s0, catKey, fieldKey, value).value, c2, f2) == GetSetting(s0, c2, f2)
        {
          GetAfterSet(s0, catKey, fieldKey, value, c2, f2);
        }
        GetAfterSet(s0, catKey, fieldKey, value, catKey, fieldKey);
      }
      if !HasKey(settings, catKey) {
        settings := Put(settings, catKey, JObj([]));
      }
      var c := Get(settings, catKey);
      if !c.JObj? {
        return true;
      }
      settings := Put(settings, catKey, JObj(Put(c.members, fieldKey, value)));
      return false;
    }
  }

  /** A key's length and last character; keys that differ in either differ. */
  function Signature(k: string): (int, char) {
    if |k| == 0 then (0, ' ') else (|k|, k[|k| - 1])
  }

  lemma SignaturesKeyed(fields: seq<SettingField>, sigs: seq<(int, char)>)
    requires |sigs| == |fields| && forall i :: 0 <= i < |fields| ==> Signature(fields[i].key) == sigs[i]
    requires forall i, j :: 0 <= i < j < |sigs| ==> sigs[i] != sigs[j]
    ensures FieldsKeyed(fields)
  {
  }

  /** The shipped schema has distinct keys and a first category with a field. */
  lemma SchemaShape()
    ensures WellKeyed(Schema)
    ensures |Schema| > 0 && |Schema[0].fields| > 0
  {
    assert Schema[0].key[0] == 'd' && Schema[1].key[0] == 't' && Schema[2].key[0] == 'a' && Schema[3].key[0] == 'v';
    BehaviorKeyed();
    TestKeyed();
    AnotherKeyed();
    LongKeyed();
  }

  lemma BehaviorKeyed()
    ensures FieldsKeyed(Schema[0].fields)
  {
    SignaturesKeyed(Schema[0].fields, [(16, 'k'), (14, 'k'), (13, 'h')]);
  }

  lemma TestKeyed()
    ensures FieldsKeyed(Schema[1].fields)
  {
    SignaturesKeyed(Schema[1].fields, [(11, '1'), (11, '2'), (11, '3')]);
  }

  lemma AnotherKeyed()
    ensures FieldsKeyed(Schema[2].fields)
  {
    SignaturesKeyed(Schema[2].fields, [(14, '1'), (14, '2'), (14, '3')]);
  }

  lemma LongKeyed()
    ensures FieldsKeyed(Schema[3].fields)
  {
    SignaturesKeyed(Schema[3].fields, [(16, '1'), (16, '2'), (16, '3'), (16, '4'), (16, '5'), (10, '1'), (10, '2'), (10, '3')]);
  }
}
