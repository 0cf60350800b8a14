# CommsLog core, modelled in Dafny

CommsLog is a client-side store of communication events (calls, messages).
It is a thin layer over IndexedDB. This project models the sequential logic inside that layer and proves properties of it:

- **IndexFilter** (`index_filter.dfy`, module `IndexFilters`). This is a class with four fields:
  - the index name;
  - the scan order, `Prev` (descending key order of the index) or `Next` (ascending);
  - an upper and a lower filter value.

  Its setters change only those fields. `GetKeyRange` sorts the bounds into one of five IndexedDB key ranges: none, `only`, `bound`, `upperBound`, `lowerBound`.
  The tests are JavaScript truthiness and loose equality (`js_values.dfy`, module `JsValues`). So `0` and `''` count as unset, as they do in the code.
  The key ranges, and the engine's test of whether a key lies in one, are in `key_ranges.dfy` (module `KeyRanges`).
- **LogManager** (`log_manager.dfy`, module `LogManagers`).
  - `find` turns a sparse filter (`contactId`, `from`, `to`, `service`, `type`) into exactly one IndexFilter, or into `undefined`. The function `Selection` states which; the method `LogManager.Find` builds it by setter calls on a fresh object.
  - `put` and `delete` ignore a falsy argument and otherwise forward it.
  - The store behind them, CommsLogService, is abstracted. It is a map from `id` to the stored record, where `put` is an upsert. It also keeps the sequence of index scans it was asked for.
- **generateId** (`ids.dfy`, module `Ids`). `S4(n)` renders `0x10000 + n` in base 16 and drops the leading `1`. `GenerateId` joins eight such groups as 8-4-4-4-12 with hyphens.
  The model takes the eight values `n` as inputs instead of drawing them at random. It proves:
  - the layout;
  - a parse-back in both directions;
  - injectivity.
- **LogEntryProperties** (`log_entry.dfy`, module `LogEntries`). `id`, `service` and `timestamp` are constants set by the constructor. Each of the eight setters writes its own field and nothing else.

The simple getters need no members of their own, because in Dafny they are reads of the class fields:
- `getIndexName`, `getUpperFilterValue`, `getLowerFilterValue`, `getOrder`, `getFilterValue`;
- the `LogEntryProperties` getters.

`IndexFilter.State()` and `LogEntryProperties.Snapshot()` collect the fields into one value.

Three behaviours of the code look unintended; the model keeps them as written:
- The two-sided range passes the getter function as its upper end. The model keeps this and records it under Findings.
- `find` with no usable field hands `undefined` to the store. The model keeps this as `None`; it does not raise an error.
- `find` on `type` names an index that the store never creates.

## Model

| member | source | states |
|---|---|---|
| JsValues.Truthy | CommsLog.js:262-280 | JavaScript's ToBoolean, used by every `!x` / `if (x)` test of the core (also lines 386, 395 and 416-430): `undefined`, `null`, `false`, `0` and `''` are falsy, every other value truthy |
| JsValues.LooseEq | CommsLog.js:267 | JavaScript's abstract equality `upper == lower`: same-type values by value (objects by identity), `null == undefined`, a string converted to a number against a number, a boolean converted to 0 or 1 first; properties in the four lemmas below |
| JsValues.LooseEqReflexive | CommsLog.js:266-267 | every value (no NaN here) is loosely equal to itself, so bounds set by `setFilterValue` always compare equal |
| JsValues.LooseEqSymmetric | CommsLog.js:267 | `upper == lower` and `lower == upper` have the same outcome |
| JsValues.LooseEqSameKind | CommsLog.js:267 | for two numbers, two strings or two objects, `==` is plain equality (identity for objects) |
| JsValues.LooseEqNumberString | CommsLog.js:267 | cross-type comparisons: `5 == '5'`, `'-12' == -12`, `true == '1'` hold and `5 == 'five'` does not |
| KeyRanges.NonKeyUpperAdmitsNothing | CommsLog.js:272-273 | a two-sided range whose upper end is not a key is rejected by the engine and admits no key |
| IndexFilters.Inverted | CommsLog.js:249-251 | the inverted order always differs from the current one |
| IndexFilters.InvertedTwice | CommsLog.js:249-251 | inverting twice restores the order |
| IndexFilters.FreshState | CommsLog.js:210-213 | a new filter has the given index name, order `Prev` and no truthy bound |
| IndexFilters.KeyRangeOf | CommsLog.js:261-281 | the range `getKeyRange` returns for an upper and a lower value, as written: `null`, `only(upper)` for loosely equal truthy bounds, `bound(lower, getter, false, false)` for differing truthy bounds, `upperBound(upper, false)` or `lowerBound(lower, false)` for one truthy bound; its cases are the lemmas below |
| IndexFilters.IntendedKeyRange | CommsLog.js:270-273 | corrected: the same five cases, with the two-sided case `bound(lower, upper, false, false)`; related to the written range by `KeyRangeAgreesOutsideTwoSided` |
| IndexFilters.KeyRangeEmpty | CommsLog.js:262-264 | there is no range (`null`) exactly when neither bound is truthy |
| IndexFilters.KeyRangeOneSided | CommsLog.js:274-280 | only the upper bound truthy gives `upperBound(upper, false)`; only the lower gives `lowerBound(lower, false)` |
| IndexFilters.KeyRangeExact | CommsLog.js:266-269 | equal truthy bounds give `only(v)` |
| IndexFilters.KeyRangeTwoSidedAsWritten | CommsLog.js:270-273 | truthy bounds that are not loosely equal give `bound(lower, getter, false, false)`; the engine rejects that range and it admits no key |
| IndexFilters.KeyRangeTwoSidedCounterexample | CommsLog.js:270-273 | for lower 1000 and upper 2000, the range as written is one the engine refuses to build (a DataError) and admits no timestamp; the intended range admits 1500 |
| IndexFilters.IntendedTwoSided | CommsLog.js:270-273 | corrected: truthy, differing bounds give the closed range `bound(lower, upper, false, false)` |
| IndexFilters.KeyRangeAgreesOutsideTwoSided | CommsLog.js:261-281 | the ranges as written and as intended coincide exactly outside the two-sided case (or when the upper value is the getter itself) |
| IndexFilters.IntendedRangeMeaning | CommsLog.js:261-281 | for numeric bounds, the intended range admits exactly the numbers between the set bounds, both ends included; an unset side is unbounded |
| IndexFilters.ExactRangeMeaning | CommsLog.js:266-269 | an exact range on a key admits that key and nothing else |
| IndexFilters.IndexFilter.constructor | CommsLog.js:210-213 | `new IndexFilter(name)` holds the name, order `Prev` and unset (`undefined`) bounds |
| IndexFilters.IndexFilter.SetFilterValue | CommsLog.js:224-227 | sets both bounds to the value and changes nothing else; with a truthy value, `GetKeyRange` then returns `only(value)` |
| IndexFilters.IndexFilter.SetUpperFilterValue | CommsLog.js:233-235 | sets the upper bound only |
| IndexFilters.IndexFilter.SetLowerFilterValue | CommsLog.js:241-243 | sets the lower bound only |
| IndexFilters.IndexFilter.SetInvertOrder | CommsLog.js:249-251 | flips the order; the index name and bounds stay as they were |
| IndexFilters.IndexFilter.GetKeyRange | CommsLog.js:261-281 | the five-way outcome for the current bounds: none, `only(upper)`, `bound(lower, getter)`, `upperBound(upper)`, `lowerBound(lower)`, all closed |
| IndexFilters.InvertTwice | CommsLog.js:249-251 | calling `setInvertOrder` twice leaves the whole filter as it was |
| LogEntries.Shell | CommsLog.js:289-293 | a record with only `id`, `service` and `timestamp` set and the other eight properties `undefined` |
| LogEntries.LogEntryProperties.constructor | CommsLog.js:289-293 | reading back gives exactly the `id`, `service` and `timestamp` passed in; these are constants, so nothing can change them |
| LogEntries.LogEntryProperties.SetType | CommsLog.js:313-315 | writes `type`; every other property is unchanged |
| LogEntries.LogEntryProperties.SetStatus | CommsLog.js:321-323 | writes `status`; every other property is unchanged |
| LogEntries.LogEntryProperties.SetContactId | CommsLog.js:329-331 | writes `contactId`; every other property is unchanged |
| LogEntries.LogEntryProperties.SetTel | CommsLog.js:337-339 | writes `tel`; every other property is unchanged |
| LogEntries.LogEntryProperties.SetObjectId | CommsLog.js:345-347 | writes `objectId`; every other property is unchanged |
| LogEntries.LogEntryProperties.SetTitle | CommsLog.js:353-355 | writes `title`; every other property is unchanged |
| LogEntries.LogEntryProperties.SetDescription | CommsLog.js:361-363 | writes `description`; every other property is unchanged |
| LogEntries.LogEntryProperties.SetExtra | CommsLog.js:369-371 | writes `extra`; every other property is unchanged |
| Ids.HexDigit | CommsLog.js:169 | the base-16 digit for 0..15 is a lowercase hex character |
| Ids.DigitValue | CommsLog.js:169 | reading a lowercase hex character gives the digit that writes it |
| Ids.ToHexString | CommsLog.js:169 | `toString(16)` gives a non-empty string of lowercase hex digits, with no leading zero above 15 |
| Ids.ToHexStringRoundTrip | CommsLog.js:169 | reading back the base-16 text of m gives m |
| Ids.HexOfOffset | CommsLog.js:169 | `(0x10000 + n).toString(16)` is `1` followed by the four digits of n |
| Ids.S4 | CommsLog.js:168-170 | `S4` gives four lowercase hex characters whose value is n (zero-padded hex of n) |
| Ids.S4Onto | CommsLog.js:168-170 | every four-character lowercase hex string is `S4` of its value, so `S4` is a bijection onto them |
| Ids.GenerateId | CommsLog.js:173 | the id is 36 characters long |
| Ids.GenerateIdGroups | CommsLog.js:173 | the k-th four-character group of the id is `S4` of the k-th drawn value |
| Ids.GenerateIdShape | CommsLog.js:172-173 | hyphens at 8, 13, 18, 23 and a lowercase hex digit everywhere else |
| Ids.ParseId | CommsLog.js:173 | an id of this shape spells eight group values |
| Ids.ParseGenerateId | CommsLog.js:173 | parsing a generated id gives back the eight values it was made from |
| Ids.GenerateParseId | CommsLog.js:173 | every 8-4-4-4-12 lowercase-hex string is generated by the values it spells |
| Ids.GenerateIdInjective | CommsLog.js:167-174 | two draws give the same id exactly when they are the same eight values |
| LogManagers.Selection | CommsLog.js:411-435 | the IndexFilter state `find` builds, or `None` for the undefined filter: the first truthy of `contactId` (exact), `from`/`to` (timestamp range, each side only if truthy), `service` (exact), `type` (exact); `LogManager.Find` is proved to build exactly this |
| LogManagers.SelectionUndefined | CommsLog.js:414-435 | the filter stays `undefined` exactly when none of the five fields is truthy |
| LogManagers.SelectionPriority | CommsLog.js:416-433 | the first match wins, in this order: `contactId` (exact); else `from`/`to` on `timestamp`, each set only if truthy; else `service` (exact); else `type` (exact) |
| LogManagers.SelectionDescending | CommsLog.js:411-436 | every filter `find` builds scans in descending key order of the chosen index (newest first on `timestamp` only; exact contact, service or type scans come back in descending `id` order) |
| LogManagers.SelectionExactMeaning | CommsLog.js:416-433 | a contact, service or type filter on a key admits exactly records whose indexed field is that key |
| LogManagers.SelectionTimestampMeaning | CommsLog.js:419-426 | numeric `from`/`to` are meant to admit exactly timestamps in [from, to], an unset side being unbounded; the code agrees unless both are set and differ |
| LogManagers.SelectionTimestampScenario | CommsLog.js:419-426 | with records at 1000 and 2000, `{from: 1500}` admits only 2000 and `{to: 1500}` only 1000 |
| LogManagers.TypeSelectionIndexMissing | CommsLog.js:430-432 | a `type`-only filter names an index that the upgrade step never creates |
| LogManagers.SelectionIndexExists | CommsLog.js:41-45 | corrected: once a `type` index is added, every filter `find` builds names an existing index |
| LogManagers.CommsLogService.Put | CommsLog.js:86-95 | upsert: the record under the entry's id becomes the entry's contents; all other ids are unchanged |
| LogManagers.CommsLogService.Delete | CommsLog.js:153-162 | removes the record under the id; an absent id leaves the store unchanged |
| LogManagers.CommsLogService.GetByIndex | CommsLog.js:127-148 | records one scan request: the filter's index name, bounds and order, or `None` for `undefined` |
| LogManagers.LogManager.Put | CommsLog.js:384-392 | a missing entry leaves the store unchanged; otherwise the entry is upserted under its id |
| LogManagers.LogManager.Delete | CommsLog.js:394-400 | a falsy id leaves the store unchanged; otherwise the record under that id is removed |
| LogManagers.LogManager.Find | CommsLog.js:411-436 | builds a fresh IndexFilter whose state is `Selection(filter)` (null when that is `undefined`), and sends exactly that one scan request to the store |

## Left out

- `init`, `finish`, `getDatabase` (CommsLog.js:19-81): opening and upgrading the database, listener queuing and handle caching. These are asynchronous I/O against the engine.
  - From the upgrade step, only the list of created indexes is kept, as `STORE_INDEXES` (lines 42-45).
- Storage operations (CommsLog.js:86-162): transactions, cursor walks, `getAll`, and which records a `getByIndex` scan returns in which order.
  - The store's `put` and `delete` are an upsert and a removal on a map keyed by `id`.
  - `getByIndex` only records the request.
  - The `Admits` predicate gives the engine's range test for a single key.
  - The success and error callbacks are not modelled.
- `getLogEntryProperties` (CommsLog.js:181-202) is not modelled. It is an asynchronous probe with a recursive retry.
  - Line 192 reads an undeclared `result`. Under strict mode that throws whenever a stored record is found, so the retry branch cannot be reached as written.
- `LogManager.clear` (CommsLog.js:402-404) has an empty body.
- Not modelled: the top-level sample entry, the `CommsLogService.init()` call and the `console.error` diagnostics (CommsLog.js:28, 76, 441-456).
- `Math.random()` and the `| 0` truncation in `S4` (CommsLog.js:169) are left out. Floating point and randomness are not modelled, so `S4` takes the integer n in [0, 0x10000) that the expression produces.
- Ids.GenerateId: the ids are not claimed to be unique. Only injectivity in the drawn values is proved; the source makes no promise of uniqueness either.
- Numbers are integers: NaN, fractions, infinities and `-0` are not modelled.
- JsValues.LooseEq: the model does not convert an object or function to a primitive when comparing it with a primitive. Such comparisons are unequal here, although JavaScript can make them equal (`[5] == 5`).
- JsValues.StringToNumber: only two kinds of string get a number, the empty string and an optionally signed run of decimal digits. Other strings count as NaN here, including whitespace-padded text, fractions, exponents, `0x`/`0o`/`0b` prefixes and `Infinity`. So `'0x10' == 16` is false in the model, although true in JavaScript.
- KeyRanges.Admits: only numbers and strings are keys; array, date and binary keys are not modelled. A range that the engine would refuse to build with a DataError is `ValidRange` false and admits nothing. Strings are ordered by code point, where the engine compares UTF-16 code units: strings that mix astral-plane characters (U+10000 and above) with characters in U+E000–U+FFFF order differently from the engine.
- LogManagers.LogManager.Put: the entry is a `LogEntryProperties` or null.
  - A falsy primitive passed as the entry (`0`, `''`, `false`) is folded into null.
  - The engine's structured cloning and key-path evaluation are abstracted to reading `entry.id`, the getter at CommsLog.js:297. This assumes the engine evaluates the key path `id` through that prototype getter. A structured clone keeps only the own fields (`_id`, `_service`, `_timestamp`, …). An engine that evaluates the key path on the clone's own properties finds no `id`. Since the store has no key generator, `store.put` at line 91 would then throw a DataError; the model does not capture that outcome.
  - An id that is not a valid key is stored like any other; the engine would reject it.
- LogManagers.LogManager.Find:
  - The `filter` argument is always an object. An `undefined` filter would throw at line 416.
  - The out-parameter is the IndexFilter handed to `getByIndex`; JavaScript returns nothing.
  - What the store does with an `undefined` filter is not modelled. It calls a method on it, which throws inside the callback.

## Findings

| source | as written | input that shows it | evidently intended | confidence | as-written member | corrected member |
|---|---|---|---|---|---|---|
| CommsLog.js:270-273 | when both bounds are truthy and differ, the range's upper end is the getter function object, because the getter is not called | `setLowerFilterValue(1000)`, `setUpperFilterValue(2000)`, i.e. `find({from: 1000, to: 2000})`: `IDBKeyRange.bound(1000, <function>, false, false)` throws a DataError at line 272, inside the `getDatabase` callback of `getByIndex` (line 135); no cursor opens and neither the success nor the error callback runs | `bound(lower, upper, false, false)`, closed on both ends, admitting 1000..2000 | high, not executed | IndexFilters.KeyRangeTwoSidedCounterexample | IndexFilters.IntendedTwoSided |
| CommsLog.js:430-432 | a filter with only `type` set opens the index `type`, but the upgrade step (lines 41-45) creates only `contactId`, `service`, `timestamp` and `tel` | `find({type: 'missed'})` | a `type` index exists on the store | medium, not executed | LogManagers.TypeSelectionIndexMissing | LogManagers.SelectionIndexExists |
