/** JSON values as the agent proxy sees them after `json.loads`, and the
    scrubber `filter_event_data` that removes every `"sql"` field from an
    event payload when the `REMOVE_SQL_FROM_RESPONSE` setting is on. */
module Json {

  /** A JSON value. An object keeps its members in insertion order, as a
      Python dict does; the scalars are never looked into, only copied. */
  datatype Json =
    | JNull
    | JBool(b: bool)
    | JNum(n: real)
    | JStr(s: string)
    | JArr(items: seq<Json>)
    | JObj(fields: seq<(string, Json)>)

  /** The one key the scrubber removes. */
  const SqlKey: string := "sql"

  /** `should_filter_field`: whether the field called `name` is to be
      removed, given the value of `REMOVE_SQL_FROM_RESPONSE`. */
  predicate ShouldFilterField(removeSql: bool, name: string): (b: bool)
    ensures b <==> removeSql && name == "sql"
    ensures !removeSql ==> !b
  {
    removeSql && name == SqlKey
  }

  // ---------------------------------------------------------------------
  // The scrubber as a specification: what `filter_event_data` computes
  // when the setting is on.
  // ---------------------------------------------------------------------

  /** A value with every `"sql"` member dropped from the objects the
      scrubber walks: the value itself, member values, and list elements
      that are objects. Lists inside lists are left as they are. */
  function Scrub(v: Json): Json
    decreases v, 1
  {
    match v
    case JObj(fields) => JObj(ScrubFields(fields))
    case JArr(items) => JArr(ScrubItems(items))
    case _ => v
  }

  /** The members of an object, in order, without the `"sql"` ones and with
      every other value scrubbed. */
  function ScrubFields(fields: seq<(string, Json)>): seq<(string, Json)>
    decreases fields, 0
  {
    if fields == [] then []
    else
      assert fields[0] in fields && fields[0].1 < fields[0];
      var rest := ScrubFields(fields[1..]);
      if fields[0].0 == SqlKey then rest
      else [(fields[0].0, Scrub(fields[0].1))] + rest
  }

  /** The list comprehension: an object element is scrubbed, any other
      element (a nested list included) is kept as it is. */
  function ScrubItems(items: seq<Json>): seq<Json>
    decreases items, 0
  {
    if items == [] then []
    else [ScrubItem(items[0])] + ScrubItems(items[1..])
  }

  function ScrubItem(item: Json): Json
    decreases item, 2
  {
    if item.JObj? then Scrub(item) else item
  }

  /** `filter_event_data(event_data)`: the payload unchanged when the setting
      is off, scrubbed when it is on. The source calls `.items()` on it, so
      with the setting on it must be an object. */
  function Filtered(removeSql: bool, data: Json): Json
    requires !removeSql || data.JObj?
  {
    if !removeSql then data else Scrub(data)
  }

  // ---------------------------------------------------------------------
  // What "has no sql field" means, along the same paths.
  // ---------------------------------------------------------------------

  /** No object reached through member values or through object elements of
      lists has a `"sql"` member. */
  predicate SqlFree(v: Json)
    decreases v, 1
  {
    match v
    case JObj(fields) => FieldsSqlFree(fields)
    case JArr(items) => ItemsSqlFree(items)
    case _ => true
  }

  predicate FieldsSqlFree(fields: seq<(string, Json)>)
    decreases fields, 0
  {
    fields == [] || (assert fields[0] in fields && fields[0].1 < fields[0]; fields[0].0 != SqlKey && SqlFree(fields[0].1) && FieldsSqlFree(fields[1..]))
  }

  predicate ItemsSqlFree(items: seq<Json>)
    decreases items, 0
  {
    items == [] || ((items[0].JObj? ==> SqlFree(items[0])) && ItemsSqlFree(items[1..]))
  }

  /** The keys of an object's members, in order. */
  function Keys(fields: seq<(string, Json)>): (ks: seq<string>)
    ensures |ks| == |fields|
    ensures forall i :: 0 <= i < |fields| ==> ks[i] == fields[i].0
  {
    if fields == [] then [] else [fields[0].0] + Keys(fields[1..])
  }

  /** The keys that `should_filter_field` lets through, in order. */
  function KeptKeys(removeSql: bool, keys: seq<string>): seq<string> {
    if keys == [] then []
    else if ShouldFilterField(removeSql, keys[0]) then KeptKeys(removeSql, keys[1..])
    else [keys[0]] + KeptKeys(removeSql, keys[1..])
  }

  /** A Python dict has no key twice. */
  predicate UniqueKeys(fields: seq<(string, Json)>) {
    forall i, j :: 0 <= i < j < |fields| ==> fields[i].0 != fields[j].0
  }

  /** Every object inside the value, on any path, has unique keys. */
  predicate WellFormed(v: Json)
    decreases v, 1
  {
    match v
    case JObj(fields) => UniqueKeys(fields) && FieldsWellFormed(fields)
    case JArr(items) => ItemsWellFormed(items)
    case _ => true
  }

  predicate FieldsWellFormed(fields: seq<(string, Json)>)
    decreases fields, 0
  {
    fields == [] || (assert fields[0] in fields && fields[0].1 < fields[0]; WellFormed(fields[0].1) && FieldsWellFormed(fields[1..]))
  }

  predicate ItemsWellFormed(items: seq<Json>)
    decreases items, 0
  {
    items == [] || (WellFormed(items[0]) && ItemsWellFormed(items[1..]))
  }

  /** Every number inside the value, on any path, satisfies `ok`: for
      `json.loads` output, the numbers a Python int or float can hold. */
  predicate NumbersIn(v: Json, ok: real -> bool)
    decreases v, 1
  {
    match v
    case JNum(n) => ok(n)
    case JObj(fields) => FieldsNumbersIn(fields, ok)
    case JArr(items) => ItemsNumbersIn(items, ok)
    case _ => true
  }

  predicate FieldsNumbersIn(fields: seq<(string, Json)>, ok: real -> bool)
    decreases fields, 0
  {
    fields == [] || (assert fields[0] in fields && fields[0].1 < fields[0]; NumbersIn(fields[0].1, ok) && FieldsNumbersIn(fields[1..], ok))
  }

  predicate ItemsNumbersIn(items: seq<Json>, ok: real -> bool)
    decreases items, 0
  {
    items == [] || (NumbersIn(items[0], ok) && ItemsNumbersIn(items[1..], ok))
  }

  // ---------------------------------------------------------------------
  // filter_event_data as the source runs it: a loop that builds a fresh
  // dict one member at a time, recursing into objects and lists.
  // ---------------------------------------------------------------------

  lemma AppendAssoc<T>(a: seq<T>, b: seq<T>, c: seq<T>)
    ensures a + (b + c) == (a + b) + c
  {
  }

  /** Scrubbing the members from index `i` on: member `i`, then the rest. */
  lemma ScrubFieldsFrom(fields: seq<(string, Json)>, i: nat)
    requires i < |fields|
    ensures ScrubFields(fields[i..]) ==
      if fields[i].0 == SqlKey then ScrubFields(fields[i + 1..])
      else [(fields[i].0, Scrub(fields[i].1))] + ScrubFields(fields[i + 1..])
  {
  }

  /** Scrubbing the list elements from index `i` on: element `i`, then the rest. */
  lemma ScrubItemsFrom(items: seq<Json>, i: nat)
    requires i < |items|
    ensures ScrubItems(items[i..]) == [ScrubItem(items[i])] + ScrubItems(items[i + 1..])
  {
  }

  /** `filter_event_data`. */
  method FilterEventData(removeSql: bool, data: Json) returns (r: Json)
    requires !removeSql || data.JObj?
    ensures !removeSql ==> r == data
    ensures removeSql ==> r == Scrub(data)
    decreases data, 1
  {
    if !removeSql {
      return data;
    }
    var fields := data.fields;
    var filtered: seq<(string, Json)> := [];
    var i := 0;
    while i < |fields|
      invariant 0 <= i <= |fields|
      invariant filtered + ScrubFields(fields[i..]) == ScrubFields(fields)
    {
      var (key, value) := fields[i];
      ScrubFieldsFrom(fields, i);
      assert fields[i] in fields;
      ghost var rest := ScrubFields(fields[i + 1..]);
      if key == SqlKey {
        i := i + 1;
        continue;
      }
      var kept: Json;
      if value.JObj? {
        kept := FilterEventData(true, value);
      } else if value.JArr? {
        var list := FilterList(value.items);
        kept := JArr(list);
      } else {
        kept := value;
      }
      assert kept == Scrub(value);
      AppendAssoc(filtered, [(key, kept)], rest);
      filtered := filtered + [(key, kept)];
      i := i + 1;
    }
    assert fields[i..] == [];
    return JObj(filtered);
  }

  /** The comprehension `[filter_event_data(item) if isinstance(item, dict)
      else item for item in value]`. */
  method FilterList(items: seq<Json>) returns (r: seq<Json>)
    ensures r == ScrubItems(items)
    decreases items, 0
  {
    r := [];
    var i := 0;
    while i < |items|
      invariant 0 <= i <= |items|
      invariant r + ScrubItems(items[i..]) == ScrubItems(items)
    {
      ScrubItemsFrom(items, i);
      ghost var rest := ScrubItems(items[i + 1..]);
      var item := items[i];
      var kept: Json;
      if item.JObj? {
        kept := FilterEventData(true, item);
      } else {
        kept := item;
      }
      assert kept == ScrubItem(item);
      AppendAssoc(r, [kept], rest);
      r := r + [kept];
      i := i + 1;
    }
    assert items[i..] == [];
  }

  // ---------------------------------------------------------------------
  // Properties of the scrubber.
  // ---------------------------------------------------------------------

  /** With the setting on, no `"sql"` key is left in the top-level object, in
      any object reached through member values, or in any object element of
      a list reached that way. */
  lemma {:induction false} ScrubIsSqlFree(v: Json)
    ensures SqlFree(Scrub(v))
    decreases v, 1
  {
    match v
    case JObj(fields) => ScrubFieldsIsSqlFree(fields);
    case JArr(items) => ScrubItemsIsSqlFree(items);
    case _ =>
  }

  lemma {:induction false} ScrubFieldsIsSqlFree(fields: seq<(string, Json)>)
    ensures FieldsSqlFree(ScrubFields(fields))
    decreases fields, 0
  {
    if fields != [] {
      assert fields[0] in fields && fields[0].1 < fields[0];
      ScrubFieldsIsSqlFree(fields[1..]);
      if fields[0].0 != SqlKey {
        ScrubIsSqlFree(fields[0].1);
        var r := ScrubFields(fields);
        assert r[1..] == ScrubFields(fields[1..]);
      }
    }
  }

  lemma {:induction false} ScrubItemsIsSqlFree(items: seq<Json>)
    ensures ItemsSqlFree(ScrubItems(items))
    decreases items, 0
  {
    if items != [] {
      ScrubItemsIsSqlFree(items[1..]);
      if items[0].JObj? {
        ScrubIsSqlFree(items[0]);
      }
      var r := ScrubItems(items);
      assert r[1..] == ScrubItems(items[1..]);
    }
  }

  /** A value that already has no `"sql"` field is left exactly as it is. */
  lemma {:induction false} SqlFreeIsFixed(v: Json)
    requires SqlFree(v)
    ensures Scrub(v) == v
    decreases v, 1
  {
    match v
    case JObj(fields) => SqlFreeFieldsAreFixed(fields);
    case JArr(items) => SqlFreeItemsAreFixed(items);
    case _ =>
  }

  lemma {:induction false} SqlFreeFieldsAreFixed(fields: seq<(string, Json)>)
    requires FieldsSqlFree(fields)
    ensures ScrubFields(fields) == fields
    decreases fields, 0
  {
    if fields != [] {
      assert fields[0] in fields && fields[0].1 < fields[0];
      SqlFreeFieldsAreFixed(fields[1..]);
      SqlFreeIsFixed(fields[0].1);
      assert fields == [fields[0]] + fields[1..];
    }
  }

  lemma {:induction false} SqlFreeItemsAreFixed(items: seq<Json>)
    requires ItemsSqlFree(items)
    ensures ScrubItems(items) == items
    decreases items, 0
  {
    if items != [] {
      SqlFreeItemsAreFixed(items[1..]);
      if items[0].JObj? {
        SqlFreeIsFixed(items[0]);
      }
      assert items == [items[0]] + items[1..];
    }
  }

  /** The values the scrubber leaves unchanged are exactly the sql-free ones. */
  lemma ScrubFixpoint(v: Json)
    ensures Scrub(v) == v <==> SqlFree(v)
  {
    ScrubIsSqlFree(v);
    if SqlFree(v) {
      SqlFreeIsFixed(v);
    }
  }

  /** Scrubbing twice is scrubbing once. */
  lemma ScrubIdempotent(v: Json)
    ensures Scrub(Scrub(v)) == Scrub(v)
  {
    ScrubIsSqlFree(v);
    SqlFreeIsFixed(Scrub(v));
  }

  /** `filter_event_data` is idempotent under either setting. */
  lemma FilteredIdempotent(removeSql: bool, data: Json)
    requires !removeSql || data.JObj?
    ensures !removeSql || Filtered(removeSql, data).JObj?
    ensures Filtered(removeSql, Filtered(removeSql, data)) == Filtered(removeSql, data)
  {
    if removeSql {
      ScrubIdempotent(data);
    }
  }

  /** With the setting off `should_filter_field` rejects nothing. */
  lemma {:induction false} KeptKeysWhenOff(keys: seq<string>)
    ensures KeptKeys(false, keys) == keys
  {
    if keys != [] {
      KeptKeysWhenOff(keys[1..]);
    }
  }

  /** Scrubbing drops exactly the members whose key `should_filter_field`
      rejects, and keeps the others in order. */
  lemma {:induction false} ScrubFieldsKeys(fields: seq<(string, Json)>)
    ensures Keys(ScrubFields(fields)) == KeptKeys(true, Keys(fields))
  {
    if fields != [] {
      ScrubFieldsKeys(fields[1..]);
      assert Keys(fields)[1..] == Keys(fields[1..]);
      if fields[0].0 != SqlKey {
        var r := ScrubFields(fields);
        assert r[1..] == ScrubFields(fields[1..]);
        assert Keys(r)[1..] == Keys(r[1..]);
      }
    }
  }

  /** The filtered object keeps exactly the keys `should_filter_field` does
      not reject, in their original order; with the setting off that is
      every key. */
  lemma FilteredKeys(removeSql: bool, fields: seq<(string, Json)>)
    ensures Filtered(removeSql, JObj(fields)).JObj?
    ensures Keys(Filtered(removeSql, JObj(fields)).fields) == KeptKeys(removeSql, Keys(fields))
  {
    if removeSql {
      ScrubFieldsKeys(fields);
    } else {
      KeptKeysWhenOff(Keys(fields));
    }
  }

  /** A member is in the scrubbed object exactly when it is the scrubbed form
      of a non-`"sql"` member of the original; in particular a member with a
      scalar value is kept verbatim. */
  lemma {:induction false} ScrubFieldsMembers(fields: seq<(string, Json)>)
    ensures forall m :: m in ScrubFields(fields) <==>
      exists i :: 0 <= i < |fields| && fields[i].0 != SqlKey && m == (fields[i].0, Scrub(fields[i].1))
    ensures forall i :: (0 <= i < |fields| && fields[i].0 != SqlKey && !fields[i].1.JObj? && !fields[i].1.JArr?
                         ==> fields[i] in ScrubFields(fields))
    decreases fields
  {
    if fields != [] {
      ScrubFieldsMembers(fields[1..]);
      var r := ScrubFields(fields);
      forall m | m in r
        ensures exists i :: 0 <= i < |fields| && fields[i].0 != SqlKey && m == (fields[i].0, Scrub(fields[i].1))
      {
        if fields[0].0 != SqlKey && m == r[0] {
        } else {
          assert m in ScrubFields(fields[1..]);
          var i :| 0 <= i < |fields[1..]| && fields[1..][i].0 != SqlKey && m == (fields[1..][i].0, Scrub(fields[1..][i].1));
          assert fields[i + 1] == fields[1..][i];
        }
      }
      forall i | 0 <= i < |fields| && fields[i].0 != SqlKey
        ensures (fields[i].0, Scrub(fields[i].1)) in r
      {
        if i > 0 {
          assert fields[1..][i - 1] == fields[i];
        }
      }
    }
  }

  /** The comprehension keeps the length and the order of a list: an object
      element is scrubbed in place, any other element (a nested list
      included) is passed through untouched. */
  lemma {:induction false} ScrubItemsPointwise(items: seq<Json>)
    ensures |ScrubItems(items)| == |items|
    ensures forall i :: 0 <= i < |items| ==>
      ScrubItems(items)[i] == if items[i].JObj? then Scrub(items[i]) else items[i]
    decreases items
  {
    if items != [] {
      ScrubItemsPointwise(items[1..]);
      forall i | 0 < i < |items|
        ensures ScrubItems(items)[i] == ScrubItems(items[1..])[i - 1]
      {
      }
    }
  }

  /** Every key of the scrubbed members is a key of the original members. */
  lemma {:induction false} ScrubFieldsKeysFromInput(fields: seq<(string, Json)>)
    ensures forall k :: k in Keys(ScrubFields(fields)) ==> k in Keys(fields)
    decreases fields
  {
    if fields != [] {
      ScrubFieldsKeysFromInput(fields[1..]);
      var r := ScrubFields(fields);
      assert Keys(fields) == [fields[0].0] + Keys(fields[1..]);
      if fields[0].0 != SqlKey {
        assert Keys(r) == [fields[0].0] + Keys(ScrubFields(fields[1..]));
      }
    }
  }

  /** Scrubbing a dict that has no key twice gives a dict with no key twice,
      and the same holds for every object inside. */
  lemma {:induction false} ScrubWellFormed(v: Json)
    requires WellFormed(v)
    ensures WellFormed(Scrub(v))
    decreases v, 1
  {
    match v
    case JObj(fields) =>
      ScrubFieldsWellFormed(fields);
      ScrubFieldsUnique(fields);
    case JArr(items) => ScrubItemsWellFormed(items);
    case _ =>
  }

  lemma {:induction false} ScrubFieldsUnique(fields: seq<(string, Json)>)
    requires UniqueKeys(fields)
    ensures UniqueKeys(ScrubFields(fields))
    decreases fields
  {
    if fields != [] {
      ScrubFieldsUnique(fields[1..]);
      ScrubFieldsKeysFromInput(fields[1..]);
      var rest := ScrubFields(fields[1..]);
      if fields[0].0 != SqlKey {
        var r := ScrubFields(fields);
        forall j | 0 < j < |r|
          ensures r[0].0 != r[j].0
        {
          assert Keys(rest)[j - 1] == r[j].0;
          assert r[j].0 in Keys(rest);
          var k :| 0 <= k < |fields[1..]| && Keys(fields[1..])[k] == r[j].0;
          assert fields[k + 1].0 == r[j].0;
        }
      }
    }
  }

  lemma {:induction false} ScrubFieldsWellFormed(fields: seq<(string, Json)>)
    requires FieldsWellFormed(fields)
    ensures FieldsWellFormed(ScrubFields(fields))
    decreases fields, 0
  {
    if fields != [] {
      assert fields[0] in fields && fields[0].1 < fields[0];
      ScrubFieldsWellFormed(fields[1..]);
      if fields[0].0 != SqlKey {
        ScrubWellFormed(fields[0].1);
        var r := ScrubFields(fields);
        assert r[1..] == ScrubFields(fields[1..]);
      }
    }
  }

  lemma {:induction false} ScrubItemsWellFormed(items: seq<Json>)
    requires ItemsWellFormed(items)
    ensures ItemsWellFormed(ScrubItems(items))
    decreases items, 0
  {
    if items != [] {
      ScrubItemsWellFormed(items[1..]);
      if items[0].JObj? {
        ScrubWellFormed(items[0]);
      }
      var r := ScrubItems(items);
      assert r[1..] == ScrubItems(items[1..]);
    }
  }

  /** Scrubbing brings in no number: every number of the result was a
      number of the input. */
  lemma {:induction false} ScrubNumbersIn(v: Json, ok: real -> bool)
    requires NumbersIn(v, ok)
    ensures NumbersIn(Scrub(v), ok)
    decreases v, 1
  {
    match v
    case JObj(fields) => ScrubFieldsNumbersIn(fields, ok);
    case JArr(items) => ScrubItemsNumbersIn(items, ok);
    case _ =>
  }

  lemma {:induction false} ScrubFieldsNumbersIn(fields: seq<(string, Json)>, ok: real -> bool)
    requires FieldsNumbersIn(fields, ok)
    ensures FieldsNumbersIn(ScrubFields(fields), ok)
    decreases fields, 0
  {
    if fields != [] {
      assert fields[0] in fields && fields[0].1 < fields[0];
      ScrubFieldsNumbersIn(fields[1..], ok);
      if fields[0].0 != SqlKey {
        ScrubNumbersIn(fields[0].1, ok);
        var r := ScrubFields(fields);
        assert r[1..] == ScrubFields(fields[1..]);
      }
    }
  }

  lemma {:induction false} ScrubItemsNumbersIn(items: seq<Json>, ok: real -> bool)
    requires ItemsNumbersIn(items, ok)
    ensures ItemsNumbersIn(ScrubItems(items), ok)
    decreases items, 0
  {
    if items != [] {
      ScrubItemsNumbersIn(items[1..], ok);
      if items[0].JObj? {
        ScrubNumbersIn(items[0], ok);
      }
      var r := ScrubItems(items);
      assert r[1..] == ScrubItems(items[1..]);
    }
  }

  /** The comprehension does not look inside a list that is itself a list
      element, so an object in a list of lists keeps its `"sql"` member. */
  lemma NestedListKeepsSql()
    ensures var inner := JObj([(SqlKey, JStr("select 1"))]);
            var v := JObj([("rows", JArr([JArr([inner])]))]);
            Scrub(v) == v && !SqlFree(inner)
  {
    var inner := JObj([(SqlKey, JStr("select 1"))]);
    var nested := JArr([inner]);
    assert ScrubItems([nested]) == [nested];
    assert ScrubFields([("rows", JArr([nested]))]) == [("rows", JArr([nested]))];
  }
}
