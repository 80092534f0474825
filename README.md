# Pivot table aggregation, modelled in Dafny

The `PivotTable` component (`src/component/PivotTable.jsx`) turns a list of
records into the rows of a pie chart and a table in four steps:

1. It decorates every record with calendar bucket keys (`month`, `year`,
   `week`) and a timestamp `numericDate`, all taken from its
   `out_of_service_date` field.
2. It groups the decorated records by the selected bucket key. Records whose
   key is the string `"NaN-NaN"`, or a value that `isNaN` holds of, are
   skipped.
3. It keeps the group keys that pass two filters and copies their groups into
   a new object.
4. It reduces every surviving group to the sum of its `numericDate` values.
   This is done once for the chart (`{label, value}`) and once for the table.

The model follows the JavaScript semantics the code relies on:

- Object property keys are strings (ToPropertyKey).
- `Object.keys` lists array-index keys first, in ascending numeric order, then
  the other keys in creation order (OrdinaryOwnPropertyKeys, section 10.1.11.1
  of ECMA-262).
- `isNaN` applies ToNumber (sections 19.2.3 and 7.1.4 of ECMA-262). On a
  string, ToNumber succeeds exactly when the string is a StringNumericLiteral.
  `JsValues` recognises that grammar with a finite scanner.

Modules:

- `JsValues`: JavaScript values, ToString, and `isNaN`.
- `Seqs`: an order-preserving `Filter` and duplicate-freedom.
- `PropertyKeys`: array-index keys and the `Object.keys` order.
- `JsObjects`: plain objects.
  - The value `Obj` is used by the specification functions.
  - The class `JsObject` is what the code fills in place.
- `DateFields`: `extractDateField`, `getWeekNumber`, `convertDateToNumeric`,
  and record decoration.
- `Grouping`: `groupBy`.
  - The method `GroupBy` is the in-place reduce.
  - The function `GroupAll` specifies it.
- `Pivot`:
  - the key filters;
  - the copy loop (`CopyGroups`, `FilterGroups`) and its specification `Narrow`;
  - the chart and table sums;
  - the whole pipeline (`PivotTable`).

Month grouping yields no rows. A month key is a string such as `"2024-3"`, with
a minus sign right after a digit. It is not a StringNumericLiteral, so `isNaN`
holds of it and line 24 skips every record when grouping by month. One might
expect month buckets to survive line 24; they do not. The model follows the
code: `Grouping.MonthGroupingIsEmpty` and `Pivot.MonthHasNoRows` state this
behaviour as proved properties.

## Model

| member | source | states |
|---|---|---|
| JsValues.IntToString | src/component/PivotTable.jsx:38 | The decimal text of an integer ends in a digit, starts with `-` exactly when the integer is negative, and is all digits otherwise. This is how a year or month number is written into a key. |
| JsValues.DigitDashIsNaN | src/component/PivotTable.jsx:24 | Every string of the form `<…digit>-<anything>` is one that `isNaN` holds of. |
| JsValues.IntStringIsNumeric | src/component/PivotTable.jsx:24 | The string form of an integer is numeric, so `isNaN` does not hold of it. |
| JsValues.IsNaNOfValues | src/component/PivotTable.jsx:24 | `isNaN` holds of undefined and NaN, and not of null or a boolean. |
| JsValues.BlankStringExamples | src/component/PivotTable.jsx:24 | `isNaN` does not hold of the empty string or of a number padded with white space. |
| JsValues.DecimalStringExamples | src/component/PivotTable.jsx:24 | `isNaN` does not hold of a signed decimal literal with fraction and exponent, or of one that starts with its dot. |
| JsValues.RadixStringExamples | src/component/PivotTable.jsx:24 | `isNaN` does not hold of unsigned hexadecimal, octal and binary literals. |
| JsValues.NonNumericStringExamples | src/component/PivotTable.jsx:24 | `isNaN` holds of the month-like `"2024-3"` and of `"NaN"`. |
| JsValues.TrailingLetterExample | src/component/PivotTable.jsx:24 | `isNaN` holds of a number followed by letters, such as `"12px"`. |
| JsValues.SignedRadixExample | src/component/PivotTable.jsx:24 | `isNaN` holds of a signed hexadecimal literal. |
| JsValues.MalformedLiteralExamples | src/component/PivotTable.jsx:24 | `isNaN` holds of `"1e"` and of `"."`. |
| PropertyKeys.IntKeysDistinct | src/component/PivotTable.jsx:28 | ToString, the property key of `result[groupKey]`, gives different numbers different keys, so two numeric group keys never merge. |
| PropertyKeys.IntKeyIsIndex | src/component/PivotTable.jsx:28 | The key written for an integer is an array index exactly when the integer is in 0 .. 2^32 - 2, and it reads back as that integer. |
| PropertyKeys.SortIndicesSpec | src/component/PivotTable.jsx:70 | The array-index keys `OwnKeys` lists first are a permutation of the created ones, in ascending numeric order. |
| PropertyKeys.OwnKeysPermutes | src/component/PivotTable.jsx:70 | `OwnKeys`, which is `Object.keys`, lists exactly the created keys, each as often as it was created. |
| PropertyKeys.OwnKeysOrder | src/component/PivotTable.jsx:78 | `OwnKeys` puts array-index keys before all others and in ascending numeric order. It keeps the other keys in creation order. The chart at line 78 and the table at line 208 list their rows in this order. |
| PropertyKeys.OwnKeysIdempotent | src/component/PivotTable.jsx:73-78 | An object filled in the order its source object's `Object.keys` gives lists its keys in that same order. |
| PropertyKeys.OwnKeysOfSelection | src/component/PivotTable.jsx:70-78 | Copying a sub-list of `Object.keys(o)` into a new object and listing its keys gives that sub-list back unchanged. |
| JsObjects.Obj.Keys | src/component/PivotTable.jsx:70 | The listed keys are exactly the object's properties, with no repetition. |
| JsObjects.Obj.Set | src/component/PivotTable.jsx:74 | `obj[k] = v` stores `v` under `k` and keeps every other property as it was. A new key is created after all the others; an existing key keeps its place. It keeps the object well formed. |
| JsObjects.EmptyObj | src/component/PivotTable.jsx:32 | `{}` has no keys. |
| JsObjects.JsObject.constructor | src/component/PivotTable.jsx:32 | A new `{}` holds the empty object. |
| JsObjects.JsObject.Put | src/component/PivotTable.jsx:28-29 | An in-place assignment changes the object exactly as `Obj.Set` describes. |
| DateFields.FloorDiv | src/component/PivotTable.jsx:51 | `Math.floor(x / d)` is the integer q with d·q ≤ x < d·(q+1). |
| DateFields.CeilDiv | src/component/PivotTable.jsx:52 | `Math.ceil(x / d)` is the integer q with d·(q-1) < x ≤ d·q. |
| DateFields.DaysSinceJan1 | src/component/PivotTable.jsx:50-51 | The day count is non-negative for a date on or after January 1, and at most 365 within the year. |
| DateFields.WeekOfYear | src/component/PivotTable.jsx:52 | The week number is at least 1 for a day count ≥ 0 and a weekday ≥ 0. It is at most 54 for a day of the year and a weekday 0..6. |
| DateFields.WeekMonotonic | src/component/PivotTable.jsx:52 | A later day of the year never gets a smaller week number. |
| DateFields.DaysMonotonic | src/component/PivotTable.jsx:51 | A later instant never gets a smaller day count. |
| DateFields.GetWeekNumber | src/component/PivotTable.jsx:49-53 | The week is a number exactly when the date and its January 1 are both valid, NaN otherwise, and at least 1 for a date on or after January 1. |
| DateFields.ExtractDateField | src/component/PivotTable.jsx:35-42 | An invalid date gives `"NaN-NaN"`, NaN and NaN. A valid one gives `"<year>-<month0+1>"` and the year, and a numeric week exactly when its January 1 is valid. |
| DateFields.ConvertDateToNumeric | src/component/PivotTable.jsx:44-47 | It returns the epoch milliseconds for a valid date and 0 for an invalid one. It never fails. |
| DateFields.DecorateAll | src/component/PivotTable.jsx:63-67 | Every record is decorated once, in input order. |
| DateFields.DecoratedFields | src/component/PivotTable.jsx:63-67 | `Decorate`, and `Lookup` as `item[key]` at line 21: the spread makes the derived month, year, week and timestamp shadow same-named fields. Every other field reads as the record had it, or as undefined. |
| DateFields.MonthKeyIsNaN | src/component/PivotTable.jsx:24 | `isNaN` holds of every record's month key, `"NaN-NaN"` included. |
| DateFields.YearWeekKeys | src/component/PivotTable.jsx:39-40 | The year key is the year exactly when the date is valid. The week key is a number exactly when its January 1 is valid too. Otherwise both are NaN, and an invalid date gives `numericDate` 0. |
| Grouping.AddToGroup | src/component/PivotTable.jsx:20-31 | One reducer step keeps the accumulator well formed. |
| Grouping.GroupAll | src/component/PivotTable.jsx:19-33 | The reduce from `{}` yields a well-formed object. |
| Grouping.GroupBy | src/component/PivotTable.jsx:19-33 | The in-place reduce ends holding exactly `GroupAll(data, key)`. |
| Grouping.GroupAllContents | src/component/PivotTable.jsx:19-33 | A group exists exactly when some record names it, so no group is empty. It holds exactly those records, in input order. |
| Grouping.GroupKeysInFirstOccurrenceOrder | src/component/PivotTable.jsx:28 | `groupBy` creates a property for exactly the keys some record names, in the order of each key's first record. |
| Grouping.AddToGroupShape | src/component/PivotTable.jsx:28-29 | A kept record is appended to the array under its key. A new key gets a one-record array and is created after all the others; the other properties are unchanged. |
| Grouping.AddToGroupCreated | src/component/PivotTable.jsx:28 | One reducer step creates a property exactly for a kept key that had none, after all the others. |
| Grouping.GroupMembersBelong | src/component/PivotTable.jsx:24-29 | Every record in a group comes from the input, passes line 24, and has that group's key. |
| Grouping.SkippedRecordInNoGroup | src/component/PivotTable.jsx:24-25 | A record whose key is `"NaN-NaN"`, NaN or undefined is in no group. |
| Grouping.KeptRecordInOwnGroup | src/component/PivotTable.jsx:28-29 | A record whose key passes line 24 is in the group of its own key. |
| Grouping.AddToGroupSize | src/component/PivotTable.jsx:28-29 | One reducer step grows the total group size by one for a kept record, and by nothing otherwise. |
| Grouping.GroupSizesSum | src/component/PivotTable.jsx:19-33 | The group sizes add up to the number of records whose key passes line 24. |
| Grouping.AllSkippedIsEmpty | src/component/PivotTable.jsx:24-25 | When every key is skipped, `groupBy` returns `{}`. |
| Grouping.MonthGroupingIsEmpty | src/component/PivotTable.jsx:24 | Grouping by month always returns `{}`. |
| Grouping.YearWeekKeptIffValid | src/component/PivotTable.jsx:24 | Grouping by year keeps a record exactly when its date is valid. Grouping by week keeps it exactly when its January 1 is valid too. |
| Grouping.SkippedKeyCases | src/component/PivotTable.jsx:24 | `IsSkippedKey`, line 24's test, skips undefined, NaN and `"NaN-NaN"`. It keeps every number, every integer's decimal string, null and the booleans. |
| Grouping.SentinelTestRedundant | src/component/PivotTable.jsx:24 | The `"NaN-NaN"` test excludes nothing that `isNaN` does not already exclude. |
| Grouping.KeptKeyIsNotInherited | src/component/PivotTable.jsx:28 | A key that passes line 24 never names an Object.prototype property, so `!result[groupKey]` tests for an own property only. |
| Pivot.FirstKeyFilter | src/component/PivotTable.jsx:71 | The first key filter holds of every key. |
| Pivot.SelectKeysSpec | src/component/PivotTable.jsx:70-72 | `SelectKeys` with `SecondKeyFilter`: an empty filter keeps every key. A non-empty one keeps exactly the occurrences of the filter. The kept keys are a sub-list of the input. |
| Pivot.Narrow | src/component/PivotTable.jsx:70-76 | The new object lists exactly the selected keys, in `Object.keys` order, and holds the same groups under them. |
| Pivot.CopyGroups | src/component/PivotTable.jsx:73-76 | The step-by-step assignment creates the listed keys in order, each holding its group. |
| Pivot.FilterGroups | src/component/PivotTable.jsx:70-76 | The in-place filter-and-copy yields exactly `Narrow` of the grouped object. |
| Pivot.ReduceIsTotal | src/component/PivotTable.jsx:81-84 | The `reduce` fold adds the group's `numericDate` sum to its starting value. |
| Pivot.ReduceFromZeroIsTotal | src/component/PivotTable.jsx:212-215 | `ReduceNumericDate` from 0, the fold of both the chart and the table cell, gives the group's `numericDate` sum. |
| Pivot.ChartData | src/component/PivotTable.jsx:78-86 | There is one row per key of the filtered object, in `Object.keys` order. Each row is labelled with its key and valued with its group's `numericDate` sum. |
| Pivot.ChartRow | src/component/PivotTable.jsx:79-85 | One chart point is labelled with its key and valued with the `numericDate` sum of its group. |
| Pivot.TableBody | src/component/PivotTable.jsx:208-216 | Table row i has React key i and repeats the label and value of chart row i. |
| Pivot.Aggregate | src/component/PivotTable.jsx:63-76 | Decorating, grouping and filtering yield a well-formed object. |
| Pivot.PivotTable | src/component/PivotTable.jsx:55-86 | The component's chart data and table rows are the chart and table specifications applied to the aggregate. |
| Pivot.EmptyFilterKeepsAll | src/component/PivotTable.jsx:72 | An empty filter keeps every group, in the same order. |
| Pivot.SelectOnly | src/component/PivotTable.jsx:71-72 | A non-empty filter selects the single key equal to it when there is one, and none otherwise. |
| Pivot.FilterKeepsAtMostOne | src/component/PivotTable.jsx:70-76 | A non-empty filter leaves exactly the group under the filter key, or nothing when no group has that key. |
| Pivot.MonthHasNoRows | src/component/PivotTable.jsx:24 | Grouping by month gives no chart rows and no table rows. |
| Pivot.UnfilteredRows | src/component/PivotTable.jsx:19-86 | With an empty filter there is one chart row per group. Each is valued with the `numericDate` sum over exactly the records of that key. |
| Pivot.FilteredGroups | src/component/PivotTable.jsx:19-76 | With a non-empty filter the new object has the filter as its only key, holding exactly the records with that key, when such records exist. Otherwise it has no keys. |
| Pivot.FilteredRow | src/component/PivotTable.jsx:19-86 | With a non-empty filter there is one row, holding the filter and the sum over the records with that key, when such records exist. Otherwise there are no rows. |
| Pivot.InvalidDateInNoGroup | src/component/PivotTable.jsx:24 | Grouping by year or week, a record with an invalid date is in no group. |
| Pivot.GroupWitness | src/component/PivotTable.jsx:28-29 | Every group holds a record whose key names it. |
| Pivot.YearGroupWitness | src/component/PivotTable.jsx:39 | Every year group is named by the decimal year of a record with a valid date. |
| Pivot.YearKeyIsIndex | src/component/PivotTable.jsx:28 | With years in 0 .. 2^32 - 2, every year group key is an array index. |
| Pivot.YearRowsAscending | src/component/PivotTable.jsx:78-86 | Grouping by year with an empty filter, the chart rows come in ascending year order, whatever the order of the records. |

## Left out

- React machinery is not modelled: `useState`, the `isLoading` early return, and all JSX and MUI rendering (Select, PieChart, LineChart, the table markup apart from the row sums).
- The commented-out filter `TextField` is dead code, and nothing in the component sets `filter` from the UI. `filter` is a parameter of the model.
- `new Date(...)` parsing, the local time zone, and `getFullYear`/`getMonth`/`getDay` are host behaviour. They enter the model as a `CalendarDate` per record.
  - This includes `new Date(year, 0, 1)`, which maps years 0..99 to 19xx.
  - It also includes the case where January 1 is an invalid date although the date itself is valid. This happens in year -271821, whose January 1 precedes the earliest time value.
- Numbers are mathematical integers: the IEEE-754 rounding of large millisecond sums is not modelled.
- Fractional numbers, objects and symbols as field values are not modelled. As a consequence, Number::toString's exponent form for magnitudes ≥ 10^21 is not modelled either.
- Strings are sequences of characters. Lone UTF-16 surrogates are not distinguished.
- DateFields.ExtractDateField: states when the week is numeric, not its range. Its range is stated by `WeekOfYear` under the day-of-year and weekday conditions, which the abstract date does not guarantee.
- `result[groupKey].push(item)` is modelled as storing the extended array. The array is never shared while the accumulator is built, so aliasing is not modelled.
- Property lookup is own-property lookup. Prototype lookup is not modelled.
  - On the accumulator (`result[groupKey]`, line 28), `Grouping.KeptKeyIsNotInherited` shows that prototype lookup is never reached.
  - On a record (`item[key]`, line 21), `DateFields.Lookup` reads a name inherited from Object.prototype, such as `"toString"`, as undefined. JavaScript gives the inherited function instead. Line 24 skips both, since `isNaN` holds of a function as of undefined, so grouping is the same.
