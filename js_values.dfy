/**
  The JavaScript values that flow through the log layer, and the two JavaScript
  tests the code applies to them: truthiness (`if (x)`, `!x`) and loose equality
  (`==`). Numbers are integers here (no NaN, no fractions, no infinities).
*/
module JsValues {
  import opened Wrappers

  datatype Value =
    | Undefined
    | Null
    | Bool(b: bool)
    | Num(n: int)
    | Str(s: string)
    /** Any object other than a function (arrays included), known only by its identity. */
    | Obj(ref: nat)
    /** The function object `IndexFilter.prototype.getUpperFilterValue` itself, not a call of it. */
    | GetterRef

  /** JavaScript's ToBoolean: `undefined`, `null`, `false`, `0` and `''` are falsy, everything else truthy. */
  predicate Truthy(v: Value) {
    match v
    case Undefined => false
    case Null => false
    case Bool(b) => b
    case Num(n) => n != 0
    case Str(s) => s != ""
    case Obj(_) => true
    case GetterRef => true
  }

  predicate IsDigit(c: char) {
    '0' <= c <= '9'
  }

  predicate IsDigits(s: string) {
    |s| > 0 && forall i :: 0 <= i < |s| ==> IsDigit(s[i])
  }

  /** The value of a run of decimal digits, most significant first. */
  function DecimalValue(s: string): (v: nat)
    requires forall i :: 0 <= i < |s| ==> IsDigit(s[i])
    ensures s == [] ==> v == 0
  {
    if s == [] then 0
    else
      assert IsDigit(s[|s| - 1]);
      10 * DecimalValue(s[..|s| - 1]) + (s[|s| - 1] as int - '0' as int)
  }

  /**
    JavaScript's StringToNumber for the strings this model gives a number to:
    the empty string is 0 and an optionally signed run of decimal digits is its
    value. Every other string yields `None`, which stands for NaN (or for a
    number outside the integers of this model).
  */
  function StringToNumber(s: string): (r: Option<int>)
    ensures IsDigits(s) ==> r == Some(DecimalValue(s))
  {
    if s == "" then Some(0)
    else if IsDigits(s) then Some(DecimalValue(s))
    else if s[0] == '-' && IsDigits(s[1..]) then Some(-(DecimalValue(s[1..]) as int))
    else if s[0] == '+' && IsDigits(s[1..]) then Some(DecimalValue(s[1..]))
    else None
  }

  /** Booleans take one conversion step before they are compared. */
  function BoolRank(v: Value): nat {
    if v.Bool? then 1 else 0
  }

  /**
    JavaScript's abstract (loose) equality `x == y`: values of one type compare
    by value (objects by identity); `null` and `undefined` equal each other and
    nothing else; a number and a string compare after the string is converted
    to a number; a boolean is converted to 0 or 1 first. An object compared with
    a primitive is unequal here (ToPrimitive is not modelled).
  */
  predicate LooseEq(x: Value, y: Value)
    decreases BoolRank(x) + BoolRank(y)
  {
    match (x, y)
    case (Undefined, Undefined) => true
    case (Null, Null) => true
    case (Undefined, Null) => true
    case (Null, Undefined) => true
    case (Bool(a), Bool(b)) => a == b
    case (Num(a), Num(b)) => a == b
    case (Str(a), Str(b)) => a == b
    case (Obj(a), Obj(b)) => a == b
    case (GetterRef, GetterRef) => true
    case (Num(a), Str(b)) => StringToNumber(b) == Some(a)
    case (Str(a), Num(b)) => StringToNumber(a) == Some(b)
    case (Bool(a), _) => LooseEq(Num(if a then 1 else 0), y)
    case (_, Bool(b)) => LooseEq(x, Num(if b then 1 else 0))
    case _ => false
  }

  /** Without NaN every value is loosely equal to itself. */
  lemma LooseEqReflexive(x: Value)
    ensures LooseEq(x, x)
  {
  }

  lemma LooseEqSymmetric(x: Value, y: Value)
    ensures LooseEq(x, y) == LooseEq(y, x)
  {
  }

  /** Loose equality between two values of one kind is plain equality. */
  lemma LooseEqSameKind(x: Value, y: Value)
    requires (x.Num? && y.Num?) || (x.Str? && y.Str?) || (x.Obj? && y.Obj?)
    ensures LooseEq(x, y) <==> x == y
  {
  }

  /** The cross-type case: `5 == '5'` holds, `5 == 'five'` does not. */
  lemma LooseEqNumberString()
    ensures LooseEq(Num(5), Str("5"))
    ensures LooseEq(Str("-12"), Num(-12))
    ensures !LooseEq(Num(5), Str("five"))
    ensures LooseEq(Bool(true), Str("1"))
  {
    assert IsDigits("5");
    assert DecimalValue("5") == 5 by {
      assert "5"[..0] == [];
    }
    assert "-12"[1..] == "12";
    assert IsDigits("12");
    assert DecimalValue("12") == 12 by {
      assert "12"[..1] == "1";
      assert "1"[..0] == [];
    }
    assert !IsDigit("five"[0]);
    assert IsDigits("1");
    assert DecimalValue("1") == 1 by {
      assert "1"[..0] == [];
    }
  }
}
