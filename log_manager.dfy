/**
  LogManager: the application-facing entry points. `put` and `delete` guard
  their argument and forward it to the store; `find` turns a sparse filter
  into exactly one IndexFilter and hands it to the store's index scan.
  The store (CommsLogService) is abstracted as a map from id to the stored
  record, plus the sequence of index scans it has been asked for.
*/
module LogManagers {
  import opened Wrappers
  import opened JsValues
  import opened KeyRanges
  import opened IndexFilters
  import opened LogEntries

  /** The indexes the upgrade step creates on the `logs` store. */
  const STORE_INDEXES: set<string> := {"contactId", "service", "timestamp", "tel"}

  /** The indexes the store needs for every filter `find` can choose: the four above and `type`. */
  const INTENDED_STORE_INDEXES: set<string> := STORE_INDEXES + {"type"}

  /**
    The filter object given to `find`; a field the caller leaves out is
    `Undefined`. The JavaScript field `type` is `entryType` here.
  */
  datatype Filter = Filter(contactId: Value, from: Value, to: Value, service: Value, entryType: Value)

  /** An exact-match IndexFilter on one index. */
  function ExactOn(indexName: string, v: Value): IndexFilterState {
    FreshState(indexName).(upper := v, lower := v)
  }

  /**
    The IndexFilter `find` builds, or `None` for the `undefined` it passes
    on when no field is truthy. The first truthy field in the order contact,
    from/to, service, type decides the index; the others are ignored.
  */
  function Selection(filter: Filter): Option<IndexFilterState> {
    if Truthy(filter.contactId) then Some(ExactOn("contactId", filter.contactId))
    else if Truthy(filter.from) || Truthy(filter.to) then
      Some(FreshState("timestamp").(
        lower := if Truthy(filter.from) then filter.from else Undefined,
        upper := if Truthy(filter.to) then filter.to else Undefined))
    else if Truthy(filter.service) then Some(ExactOn("service", filter.service))
    else if Truthy(filter.entryType) then Some(ExactOn("type", filter.entryType))
    else None
  }

  /** `find` leaves its filter undefined exactly when no recognised field is truthy. */
  lemma SelectionUndefined(filter: Filter)
    ensures Selection(filter) == None <==>
      !Truthy(filter.contactId) && !Truthy(filter.from) && !Truthy(filter.to) &&
      !Truthy(filter.service) && !Truthy(filter.entryType)
  {
  }

  /** The first truthy field wins, and later fields never influence the choice. */
  lemma SelectionPriority(filter: Filter)
    ensures Truthy(filter.contactId) ==> Selection(filter) == Some(ExactOn("contactId", filter.contactId))
    ensures !Truthy(filter.contactId) && (Truthy(filter.from) || Truthy(filter.to)) ==>
      Selection(filter).Some? && Selection(filter).value.indexName == "timestamp" &&
      Selection(filter).value.order == Prev &&
      Selection(filter).value.lower == (if Truthy(filter.from) then filter.from else Undefined) &&
      Selection(filter).value.upper == (if Truthy(filter.to) then filter.to else Undefined)
    ensures !Truthy(filter.contactId) && !Truthy(filter.from) && !Truthy(filter.to) && Truthy(filter.service) ==>
      Selection(filter) == Some(ExactOn("service", filter.service))
    ensures (!Truthy(filter.contactId) && !Truthy(filter.from) && !Truthy(filter.to) &&
             !Truthy(filter.service) && Truthy(filter.entryType)) ==>
      Selection(filter) == Some(ExactOn("type", filter.entryType))
  {
  }

  /**
    Every chosen filter scans in descending key order of its index: newest
    first on `timestamp` only; an exact contact, service or type scan matches a
    single index key, so its records come back in descending `id` order.
  */
  lemma SelectionDescending(filter: Filter)
    requires Selection(filter).Some?
    ensures Selection(filter).value.order == Prev
  {
  }

  /**
    A contact, service or type filter on a key value selects the records whose
    indexed field is that value and no others.
  */
  lemma SelectionExactMeaning(filter: Filter, k: Value)
    requires Selection(filter).Some? && Selection(filter).value.indexName != "timestamp"
    requires IsKey(Selection(filter).value.upper)
    ensures var s := Selection(filter).value;
      Admits(KeyRangeOf(s.upper, s.lower), k) <==> k == s.upper
  {
    var s := Selection(filter).value;
    assert s.upper == s.lower && Truthy(s.upper);
    ExactRangeMeaning(s.upper, k);
  }

  /**
    A timestamp filter with numeric `from`/`to` is meant to select the
    timestamps from `from` to `to`, both included, an unset side being
    unbounded. The range as written agrees with that unless both ends are set
    and differ.
  */
  lemma SelectionTimestampMeaning(filter: Filter, k: int)
    requires !Truthy(filter.contactId) && (Truthy(filter.from) || Truthy(filter.to))
    requires filter.from.Num? || !Truthy(filter.from)
    requires filter.to.Num? || !Truthy(filter.to)
    ensures var s := Selection(filter).value;
      Admits(IntendedKeyRange(s.upper, s.lower), Num(k)) <==> WithinLower(filter.from, k) && WithinUpper(filter.to, k)
    ensures var s := Selection(filter).value;
      !(Truthy(filter.from) && Truthy(filter.to) && filter.from != filter.to) ==>
      KeyRangeOf(s.upper, s.lower) == IntendedKeyRange(s.upper, s.lower)
  {
    var s := Selection(filter).value;
    IntendedRangeMeaning(s.upper, s.lower, k);
    KeyRangeAgreesOutsideTwoSided(s.upper, s.lower);
    if Truthy(filter.from) && Truthy(filter.to) {
      LooseEqSameKind(filter.to, filter.from);
    }
  }

  /** Records stamped 1000 and 2000: `{from: 1500}` keeps only 2000, `{to: 1500}` only 1000. */
  lemma SelectionTimestampScenario()
    ensures var s := Selection(Filter(Undefined, Num(1500), Undefined, Undefined, Undefined)).value;
      Admits(KeyRangeOf(s.upper, s.lower), Num(2000)) && !Admits(KeyRangeOf(s.upper, s.lower), Num(1000))
    ensures var s := Selection(Filter(Undefined, Undefined, Num(1500), Undefined, Undefined)).value;
      Admits(KeyRangeOf(s.upper, s.lower), Num(1000)) && !Admits(KeyRangeOf(s.upper, s.lower), Num(2000))
  {
  }

  /** As written, a `type` filter chooses an index the store never creates. */
  lemma TypeSelectionIndexMissing()
    ensures var f := Filter(Undefined, Undefined, Undefined, Undefined, Str("missed"));
      Selection(f).Some? && Selection(f).value.indexName !in STORE_INDEXES
  {
  }

  /** With the `type` index added, every filter `find` chooses names an existing index. */
  lemma SelectionIndexExists(filter: Filter)
    requires Selection(filter).Some?
    ensures Selection(filter).value.indexName in INTENDED_STORE_INDEXES
  {
  }

  /**
    The store: records keyed by their `id` (the store's key path), and the
    index scans requested so far. A `None` entry is a scan asked for with an
    undefined filter.
  */
  class CommsLogService {
    var records: map<Value, EntryRecord>
    var scans: seq<Option<IndexFilterState>>

    constructor ()
      ensures records == map[] && scans == []
    {
      records := map[];
      scans := [];
    }

    /** Insert or replace the record under the entry's id. */
    method Put(entry: LogEntryProperties)
      modifies this`records
      ensures records == old(records)[entry.id := entry.Snapshot()]
    {
      records := records[entry.id := entry.Snapshot()];
    }

    /** Remove the record under `id`; an absent id leaves the store as it was. */
    method Delete(id: Value)
      modifies this`records
      ensures records == old(records) - {id}
    {
      records := records - {id};
    }

    /** Record a scan request for the filter's index, range and order. */
    method GetByIndex(indexFilter: IndexFilter?)
      modifies this`scans
      ensures scans == old(scans) + [if indexFilter == null then None else Some(indexFilter.State())]
    {
      scans := scans + [if indexFilter == null then None else Some(indexFilter.State())];
    }
  }

  class LogManager {
    const service: CommsLogService

    constructor (service: CommsLogService)
      ensures this.service == service
    {
      this.service := service;
    }

    /** A missing entry is ignored; otherwise the entry is upserted under its id. */
    method Put(entry: LogEntryProperties?)
      modifies service`records
      ensures entry == null ==> service.records == old(service.records)
      ensures entry != null ==> service.records == old(service.records)[entry.id := entry.Snapshot()]
    {
      if entry == null {
        return;
      }
      service.Put(entry);
    }

    /** A falsy id is ignored; otherwise the record under it is removed. */
    method Delete(id: Value)
      modifies service`records
      ensures !Truthy(id) ==> service.records == old(service.records)
      ensures Truthy(id) ==> service.records == old(service.records) - {id}
    {
      if !Truthy(id) {
        return;
      }
      service.Delete(id);
    }

    /**
      Builds the one IndexFilter the filter selects (null for `undefined`) by
      setter calls on a fresh object, and asks the store to scan with it.
    */
    method Find(filter: Filter) returns (indexFilter: IndexFilter?)
      modifies service`scans
      ensures indexFilter == null <==> Selection(filter) == None
      ensures indexFilter != null ==> fresh(indexFilter) && Selection(filter) == Some(indexFilter.State())
      ensures service.scans == old(service.scans) + [Selection(filter)]
    {
      if Truthy(filter.contactId) {
        indexFilter := new IndexFilter("contactId");
        indexFilter.SetFilterValue(filter.contactId);
      } else if Truthy(filter.from) || Truthy(filter.to) {
        indexFilter := new IndexFilter("timestamp");
        if Truthy(filter.from) {
          indexFilter.SetLowerFilterValue(filter.from);
        }
        if Truthy(filter.to) {
          indexFilter.SetUpperFilterValue(filter.to);
        }
      } else if Truthy(filter.service) {
        indexFilter := new IndexFilter("service");
        indexFilter.SetFilterValue(filter.service);
      } else if Truthy(filter.entryType) {
        indexFilter := new IndexFilter("type");
        indexFilter.SetFilterValue(filter.entryType);
      } else {
        indexFilter := null;
      }
      service.GetByIndex(indexFilter);
    }
  }
}
