/** `groupBy(data, key)` (PivotTable.jsx lines 19-33): one left-to-right
    pass that appends each record to the array stored under its key in an
    accumulator object, skipping records whose key is the string "NaN-NaN" or
    a value `isNaN` holds of.

    Under ECMAScript's `isNaN` every month key ("2024-3", "NaN-NaN") is NaN,
    so grouping by month skips every record and yields `{}`; see
    MonthGroupingIsEmpty. The model keeps this behaviour of the code. */
module Grouping {
  import opened JsValues
  import opened Seqs
  import opened JsObjects
  import opened DateFields

  /** Line 24: `groupKey === "NaN-NaN" || isNaN(groupKey)`. */
  predicate IsSkippedKey(groupKey: JsValue) {
    groupKey == Str("NaN-NaN") || IsNaN(groupKey)
  }

  /** The record goes into the group stored under property `p`. */
  predicate InGroup(item: Decorated, key: string, p: string) {
    var groupKey := Lookup(item, key);
    !IsSkippedKey(groupKey) && ToString(groupKey) == p
  }

  predicate IsKept(item: Decorated, key: string) {
    !IsSkippedKey(Lookup(item, key))
  }

  /** The records `groupBy` should put under property `p`, in input order. */
  function Members(data: seq<Decorated>, key: string, p: string): seq<Decorated> {
    Filter(data, item => InGroup(item, key, p))
  }

  /** The records whose key passes line 24. */
  function Kept(data: seq<Decorated>, key: string): seq<Decorated> {
    Filter(data, item => IsKept(item, key))
  }

  /** The reducer of lines 20-31 applied to the accumulator `result`:
      `if (!result[groupKey]) result[groupKey] = []; result[groupKey].push(item)`.
      The array is not shared with anything else while the object is being
      built, so the push is modelled as storing the extended array. */
  function AddToGroup(result: Obj<seq<Decorated>>, item: Decorated, key: string): (r: Obj<seq<Decorated>>)
    ensures result.Valid() ==> r.Valid()
  {
    var groupKey := Lookup(item, key);
    if IsSkippedKey(groupKey) then result
    else
      var p := ToString(groupKey);
      var created := if p in result.props then result else result.Set(p, []);
      created.Set(p, created.props[p] + [item])
  }

  /** `data.reduce(reducer, {})` */
  function GroupAll(data: seq<Decorated>, key: string): (r: Obj<seq<Decorated>>)
    ensures r.Valid()
    decreases |data|
  {
    if data == [] then EmptyObj()
    else AddToGroup(GroupAll(data[..|data| - 1], key), data[|data| - 1], key)
  }

  /** `groupBy(data, key)`, building the accumulator object in place. */
  method GroupBy(data: seq<Decorated>, key: string) returns (result: JsObject<seq<Decorated>>)
    ensures fresh(result) && result.Valid()
    ensures result.Value() == GroupAll(data, key)
  {
    result := new JsObject();
    for i := 0 to |data|
      invariant fresh(result) && result.Valid()
      invariant result.Value() == GroupAll(data[..i], key)
    {
      var item := data[i];
      assert data[..i + 1] == data[..i] + [item];
      var groupKey := Lookup(item, key);
      if !(groupKey == Str("NaN-NaN") || IsNaN(groupKey)) {
        var p := ToString(groupKey);
        if p !in result.props {
          result.Put(p, []);
        }
        result.Put(p, result.props[p] + [item]);
      }
    }
    assert data[..|data|] == data;
  }

  /** Each group holds exactly the records whose key maps to its property,
      in input order; a property exists exactly when it has a record, so no
      group is empty. */
  lemma {:induction false} GroupAllContents(data: seq<Decorated>, key: string)
    ensures forall p :: p in GroupAll(data, key).props <==> Members(data, key, p) != []
    ensures forall p :: p in GroupAll(data, key).props ==>
      GroupAll(data, key).props[p] == Members(data, key, p)
    decreases |data|
  {
    if data != [] {
      var init := data[..|data| - 1];
      var item := data[|data| - 1];
      assert data == init + [item];
      GroupAllContents(init, key);
      forall p ensures Members(data, key, p) ==
        Members(init, key, p) + (if InGroup(item, key, p) then [item] else [])
      {
      }
    }
  }

  /** A record is found in a group only if its own key passes line 24 and
      names that group. */
  lemma GroupMembersBelong(data: seq<Decorated>, key: string, p: string, item: Decorated)
    requires p in GroupAll(data, key).props && item in GroupAll(data, key).props[p]
    ensures item in data && InGroup(item, key, p)
  {
    GroupAllContents(data, key);
  }

  /** The records the group `p` receives. */
  function InGroupOf(key: string, p: string): Decorated -> bool {
    item => InGroup(item, key, p)
  }

  /** Index of the first record the group `p` receives, or `|data|` when
      no record names `p`. */
  function FirstMember(data: seq<Decorated>, key: string, p: string): (i: nat)
    ensures i <= |data|
    ensures i < |data| ==> InGroup(data[i], key, p)
    ensures forall j :: 0 <= j < i && j < |data| ==> !InGroup(data[j], key, p)
  {
    var i := FirstIndex(data, InGroupOf(key, p));
    assert forall j :: 0 <= j < |data| ==> InGroupOf(key, p)(data[j]) == InGroup(data[j], key, p);
    i
  }

  /** One more record leaves every earlier first member where it was, and
      is the first member of a group it names that had none. */
  lemma FirstMemberSnoc(init: seq<Decorated>, item: Decorated, key: string, p: string)
    ensures FirstMember(init + [item], key, p) ==
      if FirstMember(init, key, p) < |init| then FirstMember(init, key, p)
      else if InGroup(item, key, p) then |init|
      else |init| + 1
  {
    FirstIndexSnoc(init, item, InGroupOf(key, p));
  }

  /** One reducer step creates a property exactly for a kept key that had
      none, after all the others. */
  lemma AddToGroupCreated(g: Obj<seq<Decorated>>, item: Decorated, key: string)
    requires g.Valid()
    ensures AddToGroup(g, item, key).created ==
      if IsKept(item, key) && ToString(Lookup(item, key)) !in g.props
      then g.created + [ToString(Lookup(item, key))]
      else g.created
  {
  }

  /** The keys of `c` are those named in `data`, in first-occurrence order. */
  ghost predicate InFirstOccurrenceOrder(c: seq<string>, data: seq<Decorated>, key: string) {
    (forall p :: p in c <==> FirstMember(data, key, p) < |data|)
    && forall i, j :: 0 <= i < j < |c| ==> FirstMember(data, key, c[i]) < FirstMember(data, key, c[j])
  }

  /** Appending a key the next record names for the first time keeps the
      created keys in first-occurrence order. */
  lemma FirstOccurrenceStep(init: seq<Decorated>, item: Decorated, key: string, c: seq<string>)
    requires InFirstOccurrenceOrder(c, init, key)
    ensures var p := ToString(Lookup(item, key));
      InFirstOccurrenceOrder(if IsKept(item, key) && p !in c then c + [p] else c, init + [item], key)
  {
    var n := |init|;
    var data := init + [item];
    var p := ToString(Lookup(item, key));
    var kept := IsKept(item, key);
    forall q ensures FirstMember(data, key, q) ==
      if FirstMember(init, key, q) < n then FirstMember(init, key, q)
      else if kept && q == p then n
      else n + 1
    {
      FirstMemberSnoc(init, item, key, q);
    }
    var c' := if kept && p !in c then c + [p] else c;
    forall q ensures q in c' <==> FirstMember(data, key, q) < n + 1 {
      assert q in c <==> FirstMember(init, key, q) < n;
    }
    forall i, j | 0 <= i < j < |c'|
      ensures FirstMember(data, key, c'[i]) < FirstMember(data, key, c'[j])
    {
      assert c'[i] in c;
      if j < |c| {
        assert c'[j] == c[j] && c'[i] == c[i];
      }
    }
  }

  /** `groupBy` creates a property for every key some record names, and
      creates them in the order in which the keys first occur in the input,
      which is the order `Object.keys` keeps for keys that are not array
      indices. */
  lemma {:induction false} GroupKeysInFirstOccurrenceOrder(data: seq<Decorated>, key: string)
    ensures var created := GroupAll(data, key).created;
      (forall p :: p in created <==> FirstMember(data, key, p) < |data|)
      && forall i, j :: 0 <= i < j < |created| ==>
        FirstMember(data, key, created[i]) < FirstMember(data, key, created[j])
    decreases |data|
  {
    if data != [] {
      var init := data[..|data| - 1];
      var item := data[|data| - 1];
      assert data == init + [item];
      GroupKeysInFirstOccurrenceOrder(init, key);
      GroupKeysStep(init, item, key);
    }
  }

  /** One more record keeps the group keys in first-occurrence order. */
  lemma GroupKeysStep(init: seq<Decorated>, item: Decorated, key: string)
    requires InFirstOccurrenceOrder(GroupAll(init, key).created, init, key)
    ensures InFirstOccurrenceOrder(GroupAll(init + [item], key).created, init + [item], key)
  {
    var g := GroupAll(init, key);
    assert (init + [item])[..|init|] == init;
    assert GroupAll(init + [item], key) == AddToGroup(g, item, key);
    assert forall q :: q in g.props <==> q in g.created;
    AddToGroupCreated(g, item, key);
    FirstOccurrenceStep(init, item, key, g.created);
  }

  /** A record whose key is "NaN-NaN", NaN or undefined is in no group. */
  lemma SkippedRecordInNoGroup(data: seq<Decorated>, key: string, item: Decorated)
    requires IsSkippedKey(Lookup(item, key))
    ensures forall p :: p in GroupAll(data, key).props ==> item !in GroupAll(data, key).props[p]
  {
    GroupAllContents(data, key);
  }

  /** A record whose key passes line 24 is in the group of its own key. */
  lemma KeptRecordInOwnGroup(data: seq<Decorated>, key: string, i: nat)
    requires i < |data| && IsKept(data[i], key)
    ensures ToString(Lookup(data[i], key)) in GroupAll(data, key).props
    ensures data[i] in GroupAll(data, key).props[ToString(Lookup(data[i], key))]
  {
    var p := ToString(Lookup(data[i], key));
    GroupAllContents(data, key);
    FilterMultiset(data, item => InGroup(item, key, p));
    assert data[i] in data;
  }

  /** Sum of the sizes of the groups stored under `keys`. */
  function SizeSum(keys: seq<string>, props: map<string, seq<Decorated>>): nat
    requires forall k :: k in keys ==> k in props
    decreases |keys|
  {
    if keys == [] then 0
    else SizeSum(keys[..|keys| - 1], props) + |props[keys[|keys| - 1]]|
  }

  /** Growing one group by one record, under a key listed once, grows the
      sum of sizes by one. */
  lemma {:induction false} SizeSumGrow(keys: seq<string>, props: map<string, seq<Decorated>>, p: string, item: Decorated)
    requires forall k :: k in keys ==> k in props
    requires p in props && Distinct(keys)
    ensures SizeSum(keys, props[p := props[p] + [item]]) == SizeSum(keys, props) + (if p in keys then 1 else 0)
    decreases |keys|
  {
    if keys != [] {
      var init := keys[..|keys| - 1];
      var last := keys[|keys| - 1];
      assert keys == init + [last];
      assert multiset(keys) == multiset(init) + multiset{last};
      assert Distinct(init) by {
        forall x | x in init ensures multiset(init)[x] == 1 {
          assert multiset(init)[x] <= multiset(keys)[x];
        }
      }
      assert last == p ==> p !in init by {
        assert multiset(keys)[last] == multiset(init)[last] + 1;
      }
      SizeSumGrow(init, props, p, item);
    }
  }

  /** The sum of sizes only depends on the groups stored under `keys`. */
  lemma {:induction false} SizeSumFrame(keys: seq<string>, props: map<string, seq<Decorated>>, p: string, v: seq<Decorated>)
    requires forall k :: k in keys ==> k in props
    requires p !in keys
    ensures SizeSum(keys, props[p := v]) == SizeSum(keys, props)
    decreases |keys|
  {
    if keys != [] {
      SizeSumFrame(keys[..|keys| - 1], props, p, v);
    }
  }

  /** One reducer step adds one record to the sum of sizes when its key
      is kept, and none otherwise. */
  lemma AddToGroupSize(g: Obj<seq<Decorated>>, item: Decorated, key: string)
    requires g.Valid()
    ensures SizeSum(AddToGroup(g, item, key).created, AddToGroup(g, item, key).props)
      == SizeSum(g.created, g.props) + (if IsKept(item, key) then 1 else 0)
  {
    if IsKept(item, key) {
      var p := ToString(Lookup(item, key));
      AddToGroupShape(g, item, key);
      if p in g.props {
        SizeSumGrow(g.created, g.props, p, item);
      } else {
        var created := g.created + [p];
        assert created[..|created| - 1] == g.created;
        SizeSumFrame(g.created, g.props, p, [item]);
      }
    }
  }

  /** A kept record is appended to the array of its key, which is created
      empty after all the other keys when it is new. */
  lemma AddToGroupShape(g: Obj<seq<Decorated>>, item: Decorated, key: string)
    requires IsKept(item, key)
    ensures var p := ToString(Lookup(item, key));
      AddToGroup(g, item, key) ==
        if p in g.props then Obj(g.props[p := g.props[p] + [item]], g.created)
        else Obj(g.props[p := [item]], g.created + [p])
  {
    var p := ToString(Lookup(item, key));
    if p !in g.props {
      assert g.Set(p, []).props[p] + [item] == [item];
    }
  }

  /** The groups partition the kept records: their sizes add up to the
      number of records whose key passes line 24. */
  lemma {:induction false} GroupSizesSum(data: seq<Decorated>, key: string)
    ensures SizeSum(GroupAll(data, key).created, GroupAll(data, key).props) == |Kept(data, key)|
    decreases |data|
  {
    if data != [] {
      var init := data[..|data| - 1];
      var item := data[|data| - 1];
      assert data == init + [item];
      GroupSizesSum(init, key);
      assert Kept(data, key) == Kept(init, key) + (if IsKept(item, key) then [item] else []);
      AddToGroupSize(GroupAll(init, key), item, key);
    }
  }

  /** When every record's key is skipped, `groupBy` returns `{}`. */
  lemma {:induction false} AllSkippedIsEmpty(data: seq<Decorated>, key: string)
    requires forall i :: 0 <= i < |data| ==> IsSkippedKey(Lookup(data[i], key))
    ensures GroupAll(data, key) == EmptyObj()
    decreases |data|
  {
    if data != [] {
      AllSkippedIsEmpty(data[..|data| - 1], key);
    }
  }

  /** Grouping by month always yields `{}`: every month key, "2024-3" as
      much as "NaN-NaN", is a string that is not a StringNumericLiteral, so
      `isNaN` holds of it and line 24 skips the record. */
  lemma MonthGroupingIsEmpty(data: seq<Record>)
    ensures GroupAll(DecorateAll(data), "month") == EmptyObj()
  {
    var items := DecorateAll(data);
    forall i | 0 <= i < |items| ensures IsSkippedKey(Lookup(items[i], "month")) {
      MonthKeyIsNaN(data[i]);
    }
    AllSkippedIsEmpty(items, "month");
  }

  /** Grouping by year keeps a record exactly when its date is valid;
      grouping by week, exactly when the start of its year is valid too. */
  lemma YearWeekKeptIffValid(r: Record, key: string)
    requires key == "year" || key == "week"
    ensures key == "year" ==> (IsKept(Decorate(r), key) <==> r.date.ValidDate?)
    ensures key == "week" ==> (IsKept(Decorate(r), key) <==> HasWeek(r.date))
  {
    YearWeekKeys(r);
  }

  /** Line 24 skips undefined, NaN and the sentinel, and keeps every number,
      the decimal string of every integer, null and the booleans. */
  lemma SkippedKeyCases(n: int)
    ensures IsSkippedKey(Undefined) && IsSkippedKey(NaN) && IsSkippedKey(Str("NaN-NaN"))
    ensures !IsSkippedKey(Num(n)) && !IsSkippedKey(Str(IntToString(n)))
    ensures !IsSkippedKey(Null) && !IsSkippedKey(Bool(false)) && !IsSkippedKey(Bool(true))
  {
    IntStringIsNumeric(n);
    DeadStart("NaN-NaN");
    assert IntToString(n) != "NaN-NaN" by {
      assert IsDigit(IntToString(n)[|IntToString(n)| - 1]);
    }
  }

  /** The `groupKey === "NaN-NaN"` test adds nothing to `isNaN(groupKey)`:
      the sentinel string is itself not numeric. */
  lemma SentinelTestRedundant(groupKey: JsValue)
    ensures IsSkippedKey(groupKey) <==> IsNaN(groupKey)
  {
    DeadStart("NaN-NaN");
  }

  /** Names of the properties every `{}` inherits from Object.prototype
      (section 20.1.3 of ECMA-262 and Annex B.2.2). */
  const ObjectPrototypeNames: set<string> := {
    "constructor", "hasOwnProperty", "isPrototypeOf", "propertyIsEnumerable",
    "toLocaleString", "toString", "valueOf", "__proto__", "__defineGetter__",
    "__defineSetter__", "__lookupGetter__", "__lookupSetter__"
  }

  /** A key that passes line 24 never names an inherited property, so
      `!result[groupKey]` is true exactly when the accumulator has no own
      property of that name, and the push at line 29 always reaches an array
      the reducer stored. */
  lemma KeptKeyIsNotInherited(groupKey: JsValue)
    requires !IsSkippedKey(groupKey)
    ensures ToString(groupKey) !in ObjectPrototypeNames
  {
    match groupKey
    case Str(s) =>
      if s in ObjectPrototypeNames {
        PrototypeNamesStartLower(s);
        LowerStartIsDead(s);
        DeadStart(s);
      }
    case Num(n) =>
      var p := IntToString(n);
      assert p[0] == '-' || IsDigit(p[0]);
      if p in ObjectPrototypeNames {
        PrototypeNamesStartLower(p);
      }
    case Null =>
      assert |ToString(groupKey)| == 4;
    case Bool(b) =>
      assert 4 <= |ToString(groupKey)| <= 5;
    case _ =>
  }

  lemma PrototypeNamesStartLower(p: string)
    requires p in ObjectPrototypeNames
    ensures |p| > 0 && ('a' <= p[0] <= 'z' || p[0] == '_')
  {
  }

  lemma LowerStartIsDead(s: string)
    requires |s| > 0 && ('a' <= s[0] <= 'z' || s[0] == '_')
    ensures Step(Lead, s[0]) == Dead
  {
  }
}
