/**
  IndexFilter: the helper object that names one index of the log store, holds
  an upper and a lower filter value and a scan direction, and turns the bounds
  into the key range a cursor is opened with.
*/
module IndexFilters {
  import opened JsValues
  import opened KeyRanges

  /** The cursor directions `IDBCursor.PREV` (descending) and `IDBCursor.NEXT` (ascending). */
  datatype Order = Prev | Next

  /** The direction `setInvertOrder` switches to. */
  function Inverted(o: Order): (r: Order)
    ensures r != o
  {
    if o == Prev then Next else Prev
  }

  /** Everything an IndexFilter holds; an unset bound is `Undefined`. */
  datatype IndexFilterState = IndexFilterState(indexName: string, order: Order, upper: Value, lower: Value)

  /** What `new IndexFilter(indexName)` holds: descending order on the index, no bounds. */
  function FreshState(indexName: string): (s: IndexFilterState)
    ensures s.indexName == indexName && s.order == Prev
    ensures !Truthy(s.upper) && !Truthy(s.lower)
  {
    IndexFilterState(indexName, Prev, Undefined, Undefined)
  }

  /**
    The range `getKeyRange` builds from the upper and lower filter values, as
    the code is written: when both are set and differ, the upper end it passes
    is the getter function itself, not the upper value.
  */
  function KeyRangeOf(upper: Value, lower: Value): KeyRange {
    if !Truthy(upper) && !Truthy(lower) then NoRange
    else if Truthy(upper) && Truthy(lower) && LooseEq(upper, lower) then Only(upper)
    else if Truthy(upper) && Truthy(lower) then Bound(lower, GetterRef, false, false)
    else if Truthy(upper) then Upper(upper, false)
    else Lower(lower, false)
  }

  /** The range `getKeyRange` is evidently meant to build: the two-sided case uses the upper value. */
  function IntendedKeyRange(upper: Value, lower: Value): KeyRange {
    if !Truthy(upper) && !Truthy(lower) then NoRange
    else if Truthy(upper) && Truthy(lower) && LooseEq(upper, lower) then Only(upper)
    else if Truthy(upper) && Truthy(lower) then Bound(lower, upper, false, false)
    else if Truthy(upper) then Upper(upper, false)
    else Lower(lower, false)
  }

  /** No range at all exactly when neither bound is truthy. */
  lemma KeyRangeEmpty(upper: Value, lower: Value)
    ensures KeyRangeOf(upper, lower) == NoRange <==> !Truthy(upper) && !Truthy(lower)
  {
  }

  /** A single truthy bound gives a closed one-sided range on that bound. */
  lemma KeyRangeOneSided(upper: Value, lower: Value)
    ensures Truthy(upper) && !Truthy(lower) ==> KeyRangeOf(upper, lower) == Upper(upper, false)
    ensures !Truthy(upper) && Truthy(lower) ==> KeyRangeOf(upper, lower) == Lower(lower, false)
  {
  }

  /** Equal truthy bounds, as `setFilterValue` leaves them, give an exact-match range. */
  lemma KeyRangeExact(v: Value)
    requires Truthy(v)
    ensures KeyRangeOf(v, v) == Only(v)
  {
    LooseEqReflexive(v);
  }

  /**
    Two truthy bounds that are not loosely equal give a closed two-sided range
    whose upper end is the getter function; the engine cannot use it.
  */
  lemma KeyRangeTwoSidedAsWritten(upper: Value, lower: Value, k: Value)
    requires Truthy(upper) && Truthy(lower) && !LooseEq(upper, lower)
    ensures KeyRangeOf(upper, lower) == Bound(lower, GetterRef, false, false)
    ensures !ValidRange(KeyRangeOf(upper, lower))
    ensures !Admits(KeyRangeOf(upper, lower), k)
  {
    NonKeyUpperAdmitsNothing(lower, false, false, GetterRef, k);
  }

  /** The concrete case `from: 1000, to: 2000`: as written no timestamp matches, as intended 1500 does. */
  lemma KeyRangeTwoSidedCounterexample()
    ensures KeyRangeOf(Num(2000), Num(1000)) == Bound(Num(1000), GetterRef, false, false)
    ensures IntendedKeyRange(Num(2000), Num(1000)) == Bound(Num(1000), Num(2000), false, false)
    ensures !Admits(KeyRangeOf(Num(2000), Num(1000)), Num(1500))
    ensures Admits(IntendedKeyRange(Num(2000), Num(1000)), Num(1500))
  {
  }

  /** Two truthy bounds that are not loosely equal give the closed range from lower to upper. */
  lemma IntendedTwoSided(upper: Value, lower: Value)
    requires Truthy(upper) && Truthy(lower) && !LooseEq(upper, lower)
    ensures IntendedKeyRange(upper, lower) == Bound(lower, upper, false, false)
  {
  }

  /** The defect is confined to the two-sided case: everywhere else both ranges coincide. */
  lemma KeyRangeAgreesOutsideTwoSided(upper: Value, lower: Value)
    ensures KeyRangeOf(upper, lower) == IntendedKeyRange(upper, lower)
        <==> !(Truthy(upper) && Truthy(lower) && !LooseEq(upper, lower)) || upper == GetterRef
  {
  }

  /** `k` is at or above the numeric lower bound, or the lower bound is unset (falsy). */
  predicate WithinLower(lower: Value, k: int)
    requires lower.Num? || !Truthy(lower)
  {
    !Truthy(lower) || lower.n <= k
  }

  /** `k` is at or below the numeric upper bound, or the upper bound is unset (falsy). */
  predicate WithinUpper(upper: Value, k: int)
    requires upper.Num? || !Truthy(upper)
  {
    !Truthy(upper) || k <= upper.n
  }

  /**
    With numeric bounds (an unset bound being any falsy value), the intended
    range admits exactly the numbers between the set bounds, both ends included.
  */
  lemma IntendedRangeMeaning(upper: Value, lower: Value, k: int)
    requires upper.Num? || !Truthy(upper)
    requires lower.Num? || !Truthy(lower)
    ensures Admits(IntendedKeyRange(upper, lower), Num(k)) <==> WithinLower(lower, k) && WithinUpper(upper, k)
  {
    if Truthy(upper) && Truthy(lower) {
      LooseEqSameKind(upper, lower);
    }
  }

  /** An exact-match range on a key admits that key and nothing else. */
  lemma ExactRangeMeaning(v: Value, k: Value)
    requires Truthy(v) && IsKey(v)
    ensures Admits(KeyRangeOf(v, v), k) <==> k == v
  {
    KeyRangeExact(v);
  }

  class IndexFilter {
    var indexName: string
    var order: Order
    var upperFilter: Value
    var lowerFilter: Value

    function State(): IndexFilterState
      reads this
    {
      IndexFilterState(indexName, order, upperFilter, lowerFilter)
    }

    /** `new IndexFilter(indexName)`: descending order, both bounds unset. */
    constructor (indexName: string)
      ensures State() == FreshState(indexName)
    {
      this.indexName := indexName;
      order := Prev;
      upperFilter := Undefined;
      lowerFilter := Undefined;
    }

    /** Sets both bounds to one value, for an exact match. */
    method SetFilterValue(value: Value)
      modifies this`upperFilter, this`lowerFilter
      ensures State() == old(State()).(upper := value, lower := value)
      ensures Truthy(value) ==> GetKeyRange() == Only(value)
    {
      upperFilter := value;
      lowerFilter := value;
      if Truthy(value) {
        KeyRangeExact(value);
      }
    }

    method SetUpperFilterValue(value: Value)
      modifies this`upperFilter
      ensures State() == old(State()).(upper := value)
    {
      upperFilter := value;
    }

    method SetLowerFilterValue(value: Value)
      modifies this`lowerFilter
      ensures State() == old(State()).(lower := value)
    {
      lowerFilter := value;
    }

    /** Flips the scan direction and touches nothing else. */
    method SetInvertOrder()
      modifies this`order
      ensures State() == old(State()).(order := Inverted(old(order)))
    {
      order := Inverted(order);
    }

    /**
      The key range for the current bounds, as `getKeyRange` computes it: none,
      exact, two-sided (with the getter function as upper end), upper-only or
      lower-only, all closed.
    */
    function GetKeyRange(): (r: KeyRange)
      reads this
      ensures r == NoRange <==> !Truthy(upperFilter) && !Truthy(lowerFilter)
      ensures Truthy(upperFilter) && Truthy(lowerFilter) && LooseEq(upperFilter, lowerFilter) ==> r == Only(upperFilter)
      ensures Truthy(upperFilter) && Truthy(lowerFilter) && !LooseEq(upperFilter, lowerFilter)
          ==> r == Bound(lowerFilter, GetterRef, false, false)
      ensures Truthy(upperFilter) && !Truthy(lowerFilter) ==> r == Upper(upperFilter, false)
      ensures !Truthy(upperFilter) && Truthy(lowerFilter) ==> r == Lower(lowerFilter, false)
    {
      KeyRangeOf(upperFilter, lowerFilter)
    }
  }

  /** Inverting twice restores the direction. */
  lemma InvertedTwice(o: Order)
    ensures Inverted(Inverted(o)) == o
  {
  }

  /** Toggling the order twice leaves a filter exactly as it was. */
  method InvertTwice(f: IndexFilter)
    modifies f
    ensures f.State() == old(f.State())
  {
    f.SetInvertOrder();
    f.SetInvertOrder();
    InvertedTwice(old(f.order));
  }
}
