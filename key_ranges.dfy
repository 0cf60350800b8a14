/**
  The key ranges the IndexedDB engine accepts for a cursor over an index, and
  the engine's test of whether a key lies in one. Only numbers and strings are
  keys in this model; IndexedDB orders every number before every string.
  Strings are ordered here by code point (a Dafny `char` is a Unicode scalar
  value); the engine compares UTF-16 code units.
*/
module KeyRanges {
  import opened JsValues

  /**
    `NoRange` is the `null` range (the whole index); the other four are
    `IDBKeyRange.only`, `bound`, `upperBound` and `lowerBound`, with their
    open/closed flags.
  */
  datatype KeyRange =
    | NoRange
    | Only(key: Value)
    | Bound(lower: Value, upper: Value, lowerOpen: bool, upperOpen: bool)
    | Upper(upper: Value, upperOpen: bool)
    | Lower(lower: Value, lowerOpen: bool)

  predicate IsKey(v: Value) {
    v.Num? || v.Str?
  }

  /** Code-point lexicographic order on strings. */
  predicate StrLess(a: string, b: string) {
    if a == [] then b != []
    else b != [] && (a[0] < b[0] || (a[0] == b[0] && StrLess(a[1..], b[1..])))
  }

  /** IndexedDB's key order, restricted to number and string keys. */
  predicate KeyLess(a: Value, b: Value) {
    match (a, b)
    case (Num(x), Num(y)) => x < y
    case (Num(_), Str(_)) => true
    case (Str(x), Str(y)) => StrLess(x, y)
    case _ => false
  }

  predicate KeyLessEq(a: Value, b: Value) {
    KeyLess(a, b) || (IsKey(a) && a == b)
  }

  /**
    Whether the engine accepts the range at all: every end must be a key, and a
    two-sided range must not have its lower end above its upper end (nor be
    empty by equal ends with an open side).
  */
  predicate ValidRange(r: KeyRange) {
    match r
    case NoRange => true
    case Only(k) => IsKey(k)
    case Bound(lo, hi, loOpen, hiOpen) =>
      IsKey(lo) && IsKey(hi) && KeyLessEq(lo, hi) && !(lo == hi && (loOpen || hiOpen))
    case Upper(hi, _) => IsKey(hi)
    case Lower(lo, _) => IsKey(lo)
  }

  /** Whether a cursor opened with range `r` visits a record whose indexed key is `k`. */
  predicate Admits(r: KeyRange, k: Value) {
    ValidRange(r) && IsKey(k) &&
    match r
    case NoRange => true
    case Only(v) => k == v
    case Bound(lo, hi, loOpen, hiOpen) =>
      (if loOpen then KeyLess(lo, k) else KeyLessEq(lo, k)) &&
      (if hiOpen then KeyLess(k, hi) else KeyLessEq(k, hi))
    case Upper(hi, hiOpen) => if hiOpen then KeyLess(k, hi) else KeyLessEq(k, hi)
    case Lower(lo, loOpen) => if loOpen then KeyLess(lo, k) else KeyLessEq(lo, k)
  }

  /** A range whose upper end is not a key admits nothing. */
  lemma NonKeyUpperAdmitsNothing(lo: Value, loOpen: bool, hiOpen: bool, hi: Value, k: Value)
    requires !IsKey(hi)
    ensures !ValidRange(Bound(lo, hi, loOpen, hiOpen))
    ensures !Admits(Bound(lo, hi, loOpen, hiOpen), k)
  {
  }
}
