/** The few pieces of java.lang that the filter specifications and filters rely on:
    nullable references, the exceptions they throw, and the text conversions of
    Integer, Boolean and Float. */
module JavaLang {

  datatype Option<+T> = None | Some(value: T)

  /** A Java String reference: None stands for null. */
  type Value = Option<string>

  /** The Java exception class a failure is thrown as. */
  datatype ExceptionClass =
    | IllegalArgumentException
    | IllegalStateException
    | NumberFormatException
    | NullPointerException
    | IndexOutOfBoundsException

  /** One constructor per place where the modelled code throws. */
  datatype Failure =
    | UnresolvedReferences(specId: Value, unresolvedIds: set<Value>) // FilterSpec.validate
    | NoParams(leafId: Value)                                        // LeafFilterSpec.buildInstance
    | NoClassName(leafId: Value)                                     // LeafFilterSpec.getClazz
    | ClassNotFound(className: Value)                                // Class.forName failed
    | InstantiationFailed(className: Value)                          // Class.newInstance failed
    | NotAnInputFilter(className: Value)                             // instance is not an InputFilter
    | NullSpecInList(listId: Value)                                  // ListFilterSpec.isFullyResolved
    | CannotFlattenUnresolved(effectiveRefId: Value)                 // ReferenceFilterSpec.flatten
    | ReferenceNotResolved(refId: Value)                             // ReferenceFilterSpec.buildInstance
    | BadNumber(text: Value)                                         // Integer.parseInt / Float.parseFloat
    | NullDereference                                                // a method called on null
    | CouldNotCreateClahe(text: Value)                               // CLAHE(Map) wrapping a BadNumber
    | FlatFieldImageRequired                                         // FlatFieldCorrection.init
    | ImageSizesDiffer                                               // FlatFieldCorrection.process
    | IndexOutOfBounds(index: int, size: int)                        // List.get / List.remove(int)

  function ClassOf(f: Failure): ExceptionClass
  {
    match f
    case NullSpecInList(_) => IllegalStateException
    case CannotFlattenUnresolved(_) => IllegalStateException
    case BadNumber(_) => NumberFormatException
    case NullDereference => NullPointerException
    case IndexOutOfBounds(_, _) => IndexOutOfBoundsException
    case _ => IllegalArgumentException
  }

  /** `catch (IllegalArgumentException e)` catches f: NumberFormatException is a subclass. */
  predicate IsIllegalArgument(f: Failure)
  {
    ClassOf(f) == IllegalArgumentException || ClassOf(f) == NumberFormatException
  }

  /** The outcome of a call that either returns a value or throws. */
  datatype Result<+T> = Ok(value: T) | Err(failure: Failure) {
    predicate IsFailure() { Err? }
    function PropagateFailure<U>(): Result<U> requires Err? { Err(failure) }
    function Extract(): T requires Ok? { value }
  }

  /** The state a call leaves behind, with the exception it threw, if any.  Used
      where a Java method changes something before it throws. */
  datatype Partial<+T> = Partial(state: T, thrown: Option<Failure>)

  // ---------------------------------------------------------------- Integer

  type int32 = x: int | -0x8000_0000 <= x < 0x8000_0000

  predicate IsDigit(c: char) { '0' <= c <= '9' }

  predicate AllDigits(s: string) { forall i :: 0 <= i < |s| ==> IsDigit(s[i]) }

  function DigitsValue(s: string): nat
    requires AllDigits(s)
  {
    if |s| == 0 then 0 else DigitsValue(s[..|s| - 1]) * 10 + (s[|s| - 1] as int - '0' as int)
  }

  function DigitChar(d: nat): (c: char)
    requires d < 10
    ensures IsDigit(c) && c as int - '0' as int == d
  {
    ('0' as int + d) as char
  }

  /** The decimal digits of n, without leading zeros. */
  function NatToDigits(n: nat): string
  {
    if n < 10 then [DigitChar(n)] else NatToDigits(n / 10) + [DigitChar(n % 10)]
  }

  /** Integer.toString(int). */
  function IntToString(n: int32): string
  {
    if n < 0 then "-" + NatToDigits(-(n as int)) else NatToDigits(n)
  }

  /** Integer.parseInt(String): an optional sign and at least one decimal digit,
      whose value fits in 32 bits; null or anything else is a NumberFormatException. */
  function ParseInt(s: Value): (r: Result<int32>)
    ensures r.Err? ==> r.failure == BadNumber(s)
    ensures s.None? ==> r.Err?
  {
    match s
    case None => Err(BadNumber(s))
    case Some(t) =>
      if |t| == 0 then Err(BadNumber(s))
      else
        var digits := if t[0] == '-' || t[0] == '+' then t[1..] else t;
        if |digits| == 0 || !AllDigits(digits) then Err(BadNumber(s))
        else
          var v: int := if t[0] == '-' then -(DigitsValue(digits) as int) else DigitsValue(digits);
          if -0x8000_0000 <= v < 0x8000_0000 then Ok(v) else Err(BadNumber(s))
  }

  lemma {:induction false} NatToDigitsValue(n: nat)
    ensures |NatToDigits(n)| > 0 && AllDigits(NatToDigits(n))
    ensures DigitsValue(NatToDigits(n)) == n
  {
    if n >= 10 {
      NatToDigitsValue(n / 10);
      var s := NatToDigits(n);
      assert s[..|s| - 1] == NatToDigits(n / 10);
    }
  }

  /** Integer.parseInt reads back every string Integer.toString writes. */
  lemma ParseIntToString(n: int32)
    ensures ParseInt(Some(IntToString(n))) == Ok(n)
  {
    NatToDigitsValue(if n < 0 then -(n as int) else n);
    var t := IntToString(n);
    if n < 0 {
      assert t[1..] == NatToDigits(-(n as int));
    } else {
      assert t[0] != '-' && t[0] != '+';
    }
  }

  // ---------------------------------------------------------------- Boolean

  function Lower(c: char): char
  {
    if 'A' <= c <= 'Z' then (c as int - 'A' as int + 'a' as int) as char else c
  }

  /** Boolean.parseBoolean(String): true exactly for "true" in any letter case. */
  function ParseBoolean(s: Value): (r: bool)
    ensures r ==> s.Some? && |s.value| == 4
  {
    s.Some? && |s.value| == 4 &&
    Lower(s.value[0]) == 't' && Lower(s.value[1]) == 'r' &&
    Lower(s.value[2]) == 'u' && Lower(s.value[3]) == 'e'
  }

  /** Boolean.toString(boolean). */
  function BoolToString(b: bool): string
  {
    if b then "true" else "false"
  }

  lemma ParseBoolToString(b: bool)
    ensures ParseBoolean(Some(BoolToString(b))) == b
  {
  }

  // ---------------------------------------------------------------- Float

  /** A Java float, by its IEEE 754 binary32 bit pattern. */
  datatype Float32 = Float32(bits: bv32)

  predicate IsNaN(x: Float32)
  {
    x.bits & 0x7F80_0000 == 0x7F80_0000 && x.bits & 0x007F_FFFF != 0
  }

  predicate IsZero(x: Float32)
  {
    x.bits & 0x7FFF_FFFF == 0
  }

  /** Java's `==` on float: NaN equals nothing, and +0.0 equals -0.0. */
  predicate FloatEquals(x: Float32, y: Float32)
  {
    !IsNaN(x) && !IsNaN(y) && (x.bits == y.bits || (IsZero(x) && IsZero(y)))
  }

  /** Float.parseFloat and Float.toString, supplied by the caller: their decimal
      conversions are not part of this model. */
  datatype FloatText = FloatText(parse: string -> Option<Float32>, format: Float32 -> string)

  /** Float.parseFloat(String): null dereferences, text it cannot read is a
      NumberFormatException. */
  function ParseFloat(ft: FloatText, s: Value): (r: Result<Float32>)
    ensures s.None? ==> r == Err(NullDereference)
    ensures s.Some? ==> (r.Ok? <==> ft.parse(s.value).Some?)
  {
    match s
    case None => Err(NullDereference)
    case Some(t) =>
      match ft.parse(t)
      case None => Err(BadNumber(s))
      case Some(x) => Ok(x)
  }
}
