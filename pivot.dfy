/** The aggregation inside the `PivotTable` component (PivotTable.jsx lines
    63-86 and 208-216): decorate the records, group them by the selected
    bucket key, keep the group keys the two filters let through, and reduce
    each surviving group to the sum of its `numericDate` values, once for
    the pie chart and once for the table. */
module Pivot {
  import opened Seqs
  import opened JsValues
  import opened PropertyKeys
  import opened JsObjects
  import opened DateFields
  import opened Grouping

  /** Line 71: `key !== "NaN-NaN" || key !== "NAN"`. No key equals both
      strings, so the test holds of every key and removes nothing. */
  function FirstKeyFilter(key: string): (keep: bool)
    ensures keep
  {
    key != "NaN-NaN" || key != "NAN"
  }

  /** Line 72: `filter ? key === filter : true`; only the empty string is
      falsy. */
  predicate SecondKeyFilter(key: string, filter: string) {
    if filter != "" then key == filter else true
  }

  predicate Selected(filter: string, key: string) {
    FirstKeyFilter(key) && SecondKeyFilter(key, filter)
  }

  function Selection(filter: string): string -> bool {
    key => Selected(filter, key)
  }

  /** Lines 70-72: `Object.keys(groupedData).filter(...).filter(...)`. */
  function SelectKeys(keys: seq<string>, filter: string): seq<string> {
    Filter(keys, Selection(filter))
  }

  /** Line 72: an empty filter keeps every key; a non-empty one keeps
      exactly the occurrences of the filter itself. Either way the kept keys
      are a sub-list of the input. */
  lemma SelectKeysSpec(keys: seq<string>, filter: string)
    ensures filter == "" ==> SelectKeys(keys, filter) == keys
    ensures filter != "" ==> forall k :: k in SelectKeys(keys, filter) <==> k in keys && k == filter
    ensures multiset(SelectKeys(keys, filter)) <= multiset(keys)
  {
    FilterMultiset(keys, Selection(filter));
    if filter == "" {
      FilterAll(keys, Selection(filter));
    }
  }

  /** The properties of `props` named in `keys`. */
  function Pick<V>(props: map<string, V>, keys: seq<string>): (m: map<string, V>)
    ensures forall k :: k in m <==> k in keys && k in props
    ensures forall k :: k in m ==> m[k] == props[k]
  {
    map k | k in keys && k in props :: props[k]
  }

  lemma PickSnoc<V>(props: map<string, V>, keys: seq<string>, key: string)
    requires key in props
    ensures Pick(props, keys + [key]) == Pick(props, keys)[key := props[key]]
  {
    var m1 := Pick(props, keys + [key]);
    var m2 := Pick(props, keys)[key := props[key]];
    assert forall k :: k in m1 <==> k in m2;
    assert forall k :: k in m1 ==> m1[k] == m2[k];
  }

  lemma PickSingle<V>(props: map<string, V>, key: string)
    requires key in props
    ensures Pick(props, [key]) == map[key := props[key]]
  {
    assert forall k :: k in Pick(props, [key]) <==> k == key;
  }

  /** Lines 73-76: `filteredGroupedData`, a new object given the selected
      keys' groups one assignment at a time, in the selected order. */
  function Narrow(grouped: Obj<seq<Decorated>>, filter: string): (o: Obj<seq<Decorated>>)
    requires grouped.Valid()
    ensures o.Valid() && o.Keys() == SelectKeys(grouped.Keys(), filter)
    ensures o.props == Pick(grouped.props, o.Keys())
  {
    var keys := SelectKeys(grouped.Keys(), filter);
    OwnKeysOfSelection(grouped.created, Selection(filter));
    FilterDistinct(grouped.Keys(), Selection(filter));
    Obj(Pick(grouped.props, keys), keys)
  }

  /** Lines 73-76: `reduce((obj, key) => { obj[key] = groupedData[key];
      return obj; }, {})` over keys listed once each, in order. */
  method CopyGroups(grouped: JsObject<seq<Decorated>>, keys: seq<string>)
    returns (filtered: JsObject<seq<Decorated>>)
    requires Distinct(keys) && forall k :: k in keys ==> k in grouped.props
    ensures fresh(filtered) && filtered.Valid()
    ensures filtered.created == keys && filtered.props == Pick(grouped.props, keys)
  {
    filtered := new JsObject();
    assert Pick(grouped.props, keys[..0]) == map[];
    for i := 0 to |keys|
      invariant fresh(filtered) && filtered.Valid()
      invariant filtered.created == keys[..i]
      invariant filtered.props == Pick(grouped.props, keys[..i])
    {
      var key := keys[i];
      DistinctNotBefore(keys, i);
      PickSnoc(grouped.props, keys[..i], key);
      filtered.Put(key, grouped.props[key]);
    }
    assert keys[..|keys|] == keys;
  }

  /** Lines 70-76: the two key filters, then the copy of the selected
      groups into a new object. */
  method FilterGroups(grouped: JsObject<seq<Decorated>>, filter: string)
    returns (filtered: JsObject<seq<Decorated>>)
    requires grouped.Valid()
    ensures fresh(filtered) && filtered.Valid()
    ensures filtered.Value() == Narrow(grouped.Value(), filter)
  {
    var keys := SelectKeys(grouped.Value().Keys(), filter);
    FilterDistinct(grouped.Value().Keys(), Selection(filter));
    filtered := CopyGroups(grouped, keys);
  }

  /** One data point of the pie chart, `{label, value}`; `label` is a Dafny
      keyword, so the field is called `caption`. */
  datatype Row = Row(caption: string, value: int)

  /** `group.reduce((sum, item) => sum + item.numericDate, acc)` */
  function ReduceNumericDate(acc: int, group: seq<Decorated>): int
    decreases |group|
  {
    if group == [] then acc else ReduceNumericDate(acc + group[0].numericDate, group[1..])
  }

  /** The sum of `numericDate` over a group. */
  function TotalNumericDate(group: seq<Decorated>): int
    decreases |group|
  {
    if group == [] then 0 else group[0].numericDate + TotalNumericDate(group[1..])
  }

  /** The left fold that `reduce` performs adds up the group onto its
      starting value. */
  lemma {:induction false} ReduceIsTotal(acc: int, group: seq<Decorated>)
    ensures ReduceNumericDate(acc, group) == acc + TotalNumericDate(group)
    decreases |group|
  {
    if group != [] {
      ReduceIsTotal(acc + group[0].numericDate, group[1..]);
    }
  }

  lemma ReduceFromZeroIsTotal()
    ensures forall group :: ReduceNumericDate(0, group) == TotalNumericDate(group)
  {
    forall group ensures ReduceNumericDate(0, group) == TotalNumericDate(group) {
      ReduceIsTotal(0, group);
    }
  }

  /** Lines 78-86: `chartData`, one row per key of `filteredGroupedData`,
      in `Object.keys` order, labelled with the key and valued with the sum
      of its group's `numericDate`. */
  function ChartData(filtered: Obj<seq<Decorated>>): (rows: seq<Row>)
    requires filtered.Valid()
    ensures |rows| == |filtered.Keys()|
    ensures forall i :: 0 <= i < |rows| ==>
      rows[i].caption == filtered.Keys()[i]
      && rows[i].value == TotalNumericDate(filtered.props[filtered.Keys()[i]])
  {
    var keys := filtered.Keys();
    seq(|keys|, i requires 0 <= i < |keys| => ChartRow(filtered.props, keys[i]))
  }

  /** `{label: key, value: group.reduce(..., 0)}` for one key. */
  function ChartRow(props: map<string, seq<Decorated>>, key: string): (row: Row)
    requires key in props
    ensures row.caption == key && row.value == TotalNumericDate(props[key])
  {
    ReduceIsTotal(0, props[key]);
    Row(key, ReduceNumericDate(0, props[key]))
  }

  /** One row of the table body: its React key, the group cell and the sum
      cell. */
  datatype TableRow = TableRow(key: nat, group: string, total: int)

  /** Lines 208-218: the table body, which repeats the sum of the chart. */
  function TableBody(filtered: Obj<seq<Decorated>>): (rows: seq<TableRow>)
    requires filtered.Valid()
    ensures |rows| == |ChartData(filtered)|
    ensures forall i :: 0 <= i < |rows| ==>
      rows[i] == TableRow(i, ChartData(filtered)[i].caption, ChartData(filtered)[i].value)
  {
    var keys := filtered.Keys();
    seq(|keys|, i requires 0 <= i < |keys| =>
      TableRow(i, keys[i], ReduceNumericDate(0, filtered.props[keys[i]])))
  }

  /** `filteredGroupedData` for the records, the selected bucket key and the
      filter string. */
  function Aggregate(data: seq<Record>, groupByKey: string, filter: string): (o: Obj<seq<Decorated>>)
    ensures o.Valid()
  {
    Narrow(GroupAll(DecorateAll(data), groupByKey), filter)
  }

  /** The body of `PivotTable` after the loading check: what the pie chart
      and the table are given. */
  method PivotTable(data: seq<Record>, groupByKey: string, filter: string)
    returns (chartData: seq<Row>, tableRows: seq<TableRow>)
    ensures chartData == ChartData(Aggregate(data, groupByKey, filter))
    ensures tableRows == TableBody(Aggregate(data, groupByKey, filter))
  {
    var transformedData := DecorateAll(data);
    var groupedData := GroupBy(transformedData, groupByKey);
    var filteredGroupedData := FilterGroups(groupedData, filter);
    chartData := ChartData(filteredGroupedData.Value());
    tableRows := TableBody(filteredGroupedData.Value());
  }

  /** An empty filter keeps every group, in the same order. */
  lemma EmptyFilterKeepsAll(grouped: Obj<seq<Decorated>>)
    requires grouped.Valid()
    ensures Narrow(grouped, "").props == grouped.props
    ensures Narrow(grouped, "").Keys() == grouped.Keys()
  {
    FilterAll(grouped.Keys(), Selection(""));
  }

  /** A non-empty filter keeps only the group whose key equals it: one group
      when there is one, none otherwise. */
  lemma FilterKeepsAtMostOne(grouped: Obj<seq<Decorated>>, filter: string)
    requires grouped.Valid() && filter != ""
    ensures Narrow(grouped, filter).Keys() == if filter in grouped.props then [filter] else []
    ensures filter in grouped.props ==> Narrow(grouped, filter).props == map[filter := grouped.props[filter]]
  {
    var keys := grouped.Keys();
    SelectOnly(keys, filter);
    assert filter in keys <==> filter in grouped.props;
    var o := Narrow(grouped, filter);
    assert o.Keys() == SelectKeys(keys, filter);
    if filter in grouped.props {
      PickSingle(grouped.props, filter);
    }
  }

  lemma SelectOnly(keys: seq<string>, filter: string)
    requires Distinct(keys) && filter != ""
    ensures SelectKeys(keys, filter) == if filter in keys then [filter] else []
  {
    forall y ensures Selection(filter)(y) <==> y == filter {
      assert Selection(filter)(y) == Selected(filter, y);
    }
    FilterSingle(keys, filter, Selection(filter));
  }

  /** Grouping by month gives the chart and the table no rows at all. */
  lemma MonthHasNoRows(data: seq<Record>, filter: string)
    ensures ChartData(Aggregate(data, "month", filter)) == []
    ensures TableBody(Aggregate(data, "month", filter)) == []
  {
    MonthGroupingIsEmpty(data);
  }

  /** With an empty filter the chart has one row per group, in `Object.keys`
      order, valued with the sum of `numericDate` over exactly the records
      whose key names that group. */
  lemma UnfilteredRows(data: seq<Record>, groupByKey: string)
    ensures var rows := ChartData(Aggregate(data, groupByKey, ""));
      var keys := GroupAll(DecorateAll(data), groupByKey).Keys();
      |rows| == |keys|
      && forall i :: 0 <= i < |rows| ==>
        rows[i].caption == keys[i]
        && rows[i].value == TotalNumericDate(Members(DecorateAll(data), groupByKey, keys[i]))
  {
    var items := DecorateAll(data);
    var grouped := GroupAll(items, groupByKey);
    var o := Aggregate(data, groupByKey, "");
    assert o.props == grouped.props && o.Keys() == grouped.Keys() by {
      EmptyFilterKeepsAll(grouped);
    }
    GroupAllContents(items, groupByKey);
    var keys := grouped.Keys();
    var rows := ChartData(o);
    forall i | 0 <= i < |rows|
      ensures rows[i].value == TotalNumericDate(Members(items, groupByKey, keys[i]))
    {
      assert keys[i] in grouped.props;
    }
  }

  /** A non-empty filter gives one row, labelled with the filter and valued
      with the sum over the records of that key, when some record has that
      key, and no row otherwise. */
  lemma FilteredRow(data: seq<Record>, groupByKey: string, filter: string)
    requires filter != ""
    ensures var members := Members(DecorateAll(data), groupByKey, filter);
      ChartData(Aggregate(data, groupByKey, filter))
        == if members == [] then [] else [Row(filter, TotalNumericDate(members))]
  {
    var members := Members(DecorateAll(data), groupByKey, filter);
    FilteredGroups(data, groupByKey, filter);
    ChartOfKeys(Aggregate(data, groupByKey, filter), filter, members);
  }

  /** The chart of an object with no key, or with the single key `filter`. */
  lemma ChartOfKeys(o: Obj<seq<Decorated>>, filter: string, members: seq<Decorated>)
    requires o.Valid()
    requires o.Keys() == (if members == [] then [] else [filter])
    requires members != [] ==> filter in o.props && o.props[filter] == members
    ensures ChartData(o) == if members == [] then [] else [Row(filter, TotalNumericDate(members))]
  {
    var rows := ChartData(o);
    if members != [] {
      assert rows[0] == Row(filter, TotalNumericDate(members));
    }
  }

  /** With a filter the surviving object is the one group named by the
      filter, holding exactly the records that fall into it, or nothing. */
  lemma FilteredGroups(data: seq<Record>, groupByKey: string, filter: string)
    requires filter != ""
    ensures var members := Members(DecorateAll(data), groupByKey, filter);
      var o := Aggregate(data, groupByKey, filter);
      o.Keys() == (if members == [] then [] else [filter])
      && (members != [] ==> o.props[filter] == members)
  {
    var items := DecorateAll(data);
    var grouped := GroupAll(items, groupByKey);
    FilterKeepsAtMostOne(grouped, filter);
    GroupAllContents(items, groupByKey);
  }

  /** Grouping by year or week leaves every record with an invalid date
      out of every group. */
  lemma InvalidDateInNoGroup(data: seq<Record>, groupByKey: string, r: Record)
    requires groupByKey == "year" || groupByKey == "week"
    requires r.date.InvalidDate?
    ensures forall p :: p in GroupAll(DecorateAll(data), groupByKey).props ==>
      Decorate(r) !in GroupAll(DecorateAll(data), groupByKey).props[p]
  {
    YearWeekKeptIffValid(r, groupByKey);
    SkippedRecordInNoGroup(DecorateAll(data), groupByKey, Decorate(r));
  }

  /** A group holds some record, which therefore names that group. */
  lemma GroupWitness(data: seq<Record>, key: string, k: string) returns (i: nat)
    requires k in GroupAll(DecorateAll(data), key).props
    ensures i < |data| && InGroup(Decorate(data[i]), key, k)
  {
    var items := DecorateAll(data);
    var members := Members(items, key, k);
    assert members != [] by {
      GroupAllContents(items, key);
    }
    assert members[0] in items && InGroup(members[0], key, k);
    i :| 0 <= i < |items| && items[i] == members[0];
  }

  /** Grouping by year, every group key is the decimal notation of the year
      of a record with a valid date. */
  lemma YearGroupWitness(data: seq<Record>, k: string) returns (i: nat)
    requires k in GroupAll(DecorateAll(data), "year").props
    ensures i < |data| && data[i].date.ValidDate? && k == IntToString(data[i].date.fullYear)
  {
    i := GroupWitness(data, "year", k);
    var item := Decorate(data[i]);
    assert Lookup(item, "year") == item.year;
    YearWeekKeys(data[i]);
  }

  /** Hence a year group key is an array index when years lie in
      0 .. 2^32 - 2. */
  lemma YearKeyIsIndex(data: seq<Record>, k: string)
    requires forall r :: r in data && r.date.ValidDate? ==> 0 <= r.date.fullYear <= MaxArrayIndex
    requires k in GroupAll(DecorateAll(data), "year").props
    ensures IsArrayIndex(k)
  {
    var i := YearGroupWitness(data, k);
    assert data[i] in data;
    IntKeyIsIndex(data[i].date.fullYear);
  }

  /** Grouping by year with an empty filter, the chart lists the years in
      ascending order whatever the order of the records: `Object.keys` puts
      array-index keys in ascending numeric order. */
  lemma YearRowsAscending(data: seq<Record>)
    requires forall r :: r in data && r.date.ValidDate? ==> 0 <= r.date.fullYear <= MaxArrayIndex
    ensures var rows := ChartData(Aggregate(data, "year", ""));
      forall i, j :: 0 <= i < j < |rows| ==>
        IsArrayIndex(rows[i].caption) && DecimalValue(rows[i].caption) <= DecimalValue(rows[j].caption)
  {
    var grouped := GroupAll(DecorateAll(data), "year");
    var keys := grouped.Keys();
    assert Aggregate(data, "year", "").Keys() == keys by {
      EmptyFilterKeepsAll(grouped);
    }
    assert forall k :: k in keys ==> IsArrayIndex(k) by {
      forall k | k in keys ensures IsArrayIndex(k) {
        YearKeyIsIndex(data, k);
      }
    }
    assert keys == OwnKeys(grouped.created);
    IndexKeysAscending(grouped.created);
  }

  /** When every key `Object.keys` lists is an array index, it lists them in
      ascending numeric order. */
  lemma IndexKeysAscending(created: seq<string>)
    requires forall k :: k in OwnKeys(created) ==> IsArrayIndex(k)
    ensures var keys := OwnKeys(created);
      forall i, j :: 0 <= i < j < |keys| ==>
        IsArrayIndex(keys[i]) && DecimalValue(keys[i]) <= DecimalValue(keys[j])
  {
    var keys := OwnKeys(created);
    OwnKeysOrder(created);
    forall i, j | 0 <= i < j < |keys|
      ensures IsArrayIndex(keys[i]) && DecimalValue(keys[i]) <= DecimalValue(keys[j])
    {
      assert keys[j] in keys;
    }
  }
}
