/**
 * The `into` conversion tables of the value classes, the boolean operations of
 * SkBool, and TypeConverter (struct/TypeConverter.java). The two hierarchies
 * disagree on SkBool and SkChar, so each keeps its own table: `BoolInto` and
 * `CharInto` follow types/SkBool.java and types/SkChar.java, `PrimitiveBoolInto`
 * and `PrimitiveCharInto` follow their types/primitive counterparts.
 *
 * An `into` either gives a value, gives null (`Normal(None)`), or throws.
 */
module Conversions {
  import opened Wrappers
  import opened Errors
  import opened Values
  import JavaInt

  /** The class a value is converted into: those the tables name, or any other class by its simple name. */
  datatype Target = StringClass | IntClass | LongClass | DoubleClass | BoolClass | CharClass | OtherClass(simpleName: string)
  {
    function SimpleName(): string
    {
      match this
      case StringClass => "SkString"
      case IntClass => "SkInt"
      case LongClass => "SkLong"
      case DoubleClass => "SkDouble"
      case BoolClass => "SkBool"
      case CharClass => "SkChar"
      case OtherClass(n) => n
    }
  }

  /** The exception an if-chain table throws for a target it does not list. */
  function NotDefined(t: Target): Fault
  {
    Unsupported("Class conversion not defined for type " + t.SimpleName())
  }

  function Bit(b: bool): JavaInt.Int32
  {
    if b then 1 else 0
  }

  /** SkNull.into: every conversion throws. */
  function NullInto(t: Target): (r: Exec<Option<Value>>)
    ensures r.Abrupt?
  {
    Abrupt(Unsupported("Unsupported operation 'cast' for type 'null'"))
  }

  /** SkInt.into: to the text, to an int or long of the same value, to a double, or to `value != 0`. */
  function IntInto(i: JavaInt.Int32, t: Target): (r: Exec<Option<Value>>)
    ensures r.Normal? <==> t in {StringClass, IntClass, LongClass, DoubleClass, BoolClass}
    ensures r.Normal? ==> r.value.Some?
    ensures r.Abrupt? ==> r.fault == NotDefined(t)
    ensures t == BoolClass ==> r == Normal(Some(Bool(i != 0)))
    ensures t == IntClass || t == LongClass ==> r.value.value.Int? || r.value.value.Long?
  {
    match t
    case StringClass => Normal(Some(Str(JavaInt.DecimalText(i))))
    case IntClass => Normal(Some(Int(i)))
    case LongClass => assert JavaInt.IsInt(i) && JavaInt.IsLong(i); Normal(Some(Long(i)))
    case DoubleClass => Normal(Some(Double(OfInt(i))))
    case BoolClass => Normal(Some(Bool(i != 0)))
    case _ => Abrupt(NotDefined(t))
  }

  /** types/SkBool.into: 1 or 0 of each number kind, a copy, or the text; any other target throws. */
  function BoolInto(b: bool, t: Target): (r: Exec<Option<Value>>)
    ensures r.Normal? <==> t in {StringClass, IntClass, LongClass, DoubleClass, BoolClass}
    ensures r.Normal? ==> r.value.Some?
    ensures r.Abrupt? ==> r.fault == NotDefined(t)
  {
    match t
    case StringClass => Normal(Some(Str(if b then "true" else "false")))
    case IntClass => Normal(Some(Int(Bit(b))))
    case LongClass => Normal(Some(Long(Bit(b))))
    case DoubleClass => Normal(Some(Double(OfInt(Bit(b)))))
    case BoolClass => Normal(Some(Bool(b)))
    case _ => Abrupt(NotDefined(t))
  }

  /** types/primitive/SkBool.into: a converter map; the long and double entries also build an int. Unlisted targets give null. */
  function PrimitiveBoolInto(b: bool, t: Target): (r: Exec<Option<Value>>)
    ensures r.Normal?
    ensures r.value.Some? <==> t in {IntClass, LongClass, DoubleClass, BoolClass, CharClass}
  {
    match t
    case IntClass => Normal(Some(Int(Bit(b))))
    case LongClass => Normal(Some(Int(Bit(b))))
    case DoubleClass => Normal(Some(Int(Bit(b))))
    case BoolClass => Normal(Some(Bool(b)))
    case CharClass => Normal(Some(Bool(b)))
    case _ => Normal(None)
  }

  /** types/SkChar.into: the character code as each number kind, `code != 0`, a copy, or the one-character text. */
  function CharInto(c: char, t: Target): (r: Exec<Option<Value>>)
    ensures r.Normal? <==> !t.OtherClass?
    ensures r.Normal? ==> r.value.Some?
    ensures r.Abrupt? ==> r.fault == NotDefined(t)
  {
    var code := c as int;
    match t
    case StringClass => Normal(Some(Str([c])))
    case IntClass => Normal(Some(Int(code)))
    case LongClass => Normal(Some(Long(code)))
    case DoubleClass => Normal(Some(Double(OfInt(code))))
    case BoolClass => Normal(Some(Bool(code != 0)))
    case CharClass => Normal(Some(Char(c)))
    case OtherClass(_) => Abrupt(NotDefined(t))
  }

  /** types/primitive/SkChar.into: a converter map in which the long entry builds a double. Unlisted targets give null. */
  function PrimitiveCharInto(c: char, t: Target): (r: Exec<Option<Value>>)
    ensures r.Normal?
    ensures r.value.Some? <==> t in {IntClass, LongClass, DoubleClass, BoolClass, CharClass}
  {
    var code := c as int;
    match t
    case IntClass => Normal(Some(Int(code)))
    case LongClass => Normal(Some(Double(OfInt(code))))
    case DoubleClass => Normal(Some(Double(OfInt(code))))
    case BoolClass => Normal(Some(Bool(code != 0)))
    case CharClass => Normal(Some(Char(c)))
    case _ => Normal(None)
  }

  /**
   * types/SkDouble.into: a copy into a double; the conversions that read the
   * double's value (its text, the casts to int and long, `value != 0`) are not
   * part of this model; any other target throws.
   */
  function DoubleInto(d: Float, t: Target): (r: Exec<Option<Value>>)
    ensures t == DoubleClass ==> r == Normal(Some(Double(d)))
    ensures t.CharClass? || t.OtherClass? ==> r == Abrupt(NotDefined(t))
    ensures !r.Unmodelled? ==> t in {DoubleClass, CharClass} || t.OtherClass?
  {
    match t
    case DoubleClass => Normal(Some(Double(d)))
    case CharClass => Abrupt(NotDefined(t))
    case OtherClass(_) => Abrupt(NotDefined(t))
    case _ => Unmodelled("SkDouble")
  }

  /** ASCII lower-casing. */
  function Lower(c: char): char
  {
    if 'A' <= c <= 'Z' then (c as int + 32) as char else c
  }

  /** `equalsIgnoreCase`, with case folding on ASCII letters. */
  predicate EqualsIgnoreCase(a: string, b: string)
  {
    |a| == |b| && forall k | 0 <= k < |a| :: Lower(a[k]) == Lower(b[k])
  }

  /** `Boolean.parseBoolean` (SkBool.fromString in both hierarchies): true exactly for "true" in any case; false for null. */
  function ParseBoolean(s: Option<string>): (b: bool)
    ensures b <==> s.Some? && EqualsIgnoreCase(s.value, "true")
  {
    s.Some? && EqualsIgnoreCase(s.value, "true")
  }

  /** TypeConverter.stringToInt: `Integer.parseInt`, which throws on text that is not a decimal int. */
  function StringToInt(s: string): (r: Exec<Value>)
    ensures r.Normal? <==> JavaInt.ParseInt(s).Some?
    ensures r.Normal? ==> r.value == Int(JavaInt.ParseInt(s).value)
    ensures r.Abrupt? ==> r.fault == NumberFormat(s)
  {
    match JavaInt.ParseInt(s)
    case Some(i) => Normal(Int(i))
    case None => Abrupt(NumberFormat(s))
  }

  /**
   * SkString.into: the same string, `stringToInt`, `stringToFloat` (whose
   * `Double.parseDouble` is not part of this model), or `fromString`; any other
   * target throws.
   */
  function StringInto(s: string, t: Target): (r: Exec<Option<Value>>)
    ensures t == StringClass ==> r == Normal(Some(Str(s)))
    ensures t == BoolClass ==> r == Normal(Some(Bool(ParseBoolean(Some(s)))))
    ensures t == IntClass ==> (r.Normal? <==> JavaInt.ParseInt(s).Some?)
    ensures t.LongClass? || t.CharClass? || t.OtherClass? ==> r == Abrupt(NotDefined(t))
  {
    match t
    case StringClass => Normal(Some(Str(s)))
    case IntClass =>
      (match StringToInt(s)
       case Normal(v) => Normal(Some(v))
       case Abrupt(f) => Abrupt(f)
       case Unmodelled(w) => Unmodelled(w))
    case DoubleClass => Unmodelled("Double.parseDouble")
    case BoolClass => Normal(Some(Bool(ParseBoolean(Some(s)))))
    case _ => Abrupt(NotDefined(t))
  }

  /**
   * `into` for every value, with the types/ tables for booleans and
   * characters. SkObject (strings aside) and SkError give null for every
   * target; SkLong is not part of this model.
   */
  function Into(v: Option<Value>, t: Target): (r: Exec<Option<Value>>)
    ensures v.None? ==> r == Abrupt(NullPointer)
    ensures v.Some? && (v.value.Array? || v.value.Function? || v.value.Object? || v.value.Error?) ==> r == Normal(None)
  {
    match v
    case None => Abrupt(NullPointer)
    case Some(x) =>
      match x
      case Null => NullInto(t)
      case Int(i) => IntInto(i, t)
      case Long(_) => Unmodelled("SkLong")
      case Double(d) => DoubleInto(d, t)
      case Bool(b) => BoolInto(b, t)
      case Char(c) => CharInto(c, t)
      case Str(s) => StringInto(s, t)
      case _ => Normal(None)
  }

  /**
   * `other.into(SkBool.class).getValue()`, as SkBool.and(SkValue) and
   * SkBool.or(SkValue) use it: a conversion that gives null is dereferenced and
   * throws.
   */
  function IntoBool(other: Option<Value>): (r: Exec<bool>)
    ensures other.Some? && other.value.Bool? ==> r == Normal(other.value.b)
    ensures other.None? ==> r == Abrupt(NullPointer)
  {
    match Into(other, BoolClass)
    case Normal(Some(Bool(x))) => Normal(x)
    case Normal(_) => Abrupt(NullPointer)
    case Abrupt(f) => Abrupt(f)
    case Unmodelled(w) => Unmodelled(w)
  }

  /** SkBool.and(SkValue). */
  function And(b: bool, other: Option<Value>): (r: Exec<Value>)
    ensures r.Normal? <==> IntoBool(other).Normal?
    ensures r.Normal? ==> r.value == Bool(b && IntoBool(other).value)
  {
    match IntoBool(other)
    case Normal(x) => Normal(Bool(b && x))
    case Abrupt(f) => Abrupt(f)
    case Unmodelled(w) => Unmodelled(w)
  }

  /** SkBool.or(SkValue). */
  function Or(b: bool, other: Option<Value>): (r: Exec<Value>)
    ensures r.Normal? <==> IntoBool(other).Normal?
    ensures r.Normal? ==> r.value == Bool(b || IntoBool(other).value)
  {
    match IntoBool(other)
    case Normal(x) => Normal(Bool(b || x))
    case Abrupt(f) => Abrupt(f)
    case Unmodelled(w) => Unmodelled(w)
  }

  /** SkBool.not. */
  function Not(b: bool): (r: Value)
    ensures r.Bool? && r.b != b
  {
    Bool(!b)
  }

  /**
   * TypeConverter.valueToBool: an int 0, a zero double (`isZero` decides which
   * doubles are zero) and the empty string are false-like; every other value,
   * null, arrays and objects included, is true-like.
   */
  function ValueToBool(v: Option<Value>, isZero: Float -> bool): (b: bool)
    ensures !b ==> v.Some? && (v.value.Int? || v.value.Double? || v.value.Str?)
    ensures v.Some? && v.value.Str? ==> (b <==> |v.value.s| > 0)
    ensures v.Some? && v.value.Int? ==> (b <==> v.value.i != 0)
  {
    match v
    case Some(Int(i)) => i != 0
    case Some(Double(d)) => !isZero(d)
    case Some(Str(s)) => s != ""
    case _ => true
  }

  /** TypeConverter.toString: "null" for null, otherwise `toSkString`, the value's `toString` as a string value. */
  function ToSkString(v: Option<Value>): (r: Exec<Value>)
    ensures v.None? ==> r == Normal(Str("null"))
    ensures v.Some? ==> (r.Normal? <==> Show(v.value).Some?)
    ensures r.Normal? ==> r.value.Str?
  {
    match v
    case None => Normal(Str("null"))
    case Some(x) => if Show(x).Some? then Normal(Str(Show(x).value)) else Unmodelled("toString")
  }

  /** The false-like values are exactly the int 0, the zero doubles and "". */
  lemma FalseLike(v: Option<Value>, isZero: Float -> bool)
    ensures !ValueToBool(v, isZero) <==> v == Some(Int(0)) || v == Some(Str("")) || (v.Some? && v.value.Double? && isZero(v.value.d))
  {
  }

  /** For ints and booleans, `into` a boolean agrees with truthiness. */
  lemma IntoBoolIsTruthiness(v: Value, isZero: Float -> bool)
    requires v.Int? || v.Bool?
    ensures Into(Some(v), BoolClass) == Normal(Some(Bool(if v.Int? then ValueToBool(Some(v), isZero) else v.b)))
  {
  }

  /** For strings it does not: "false" converts to false but is true-like, and only "true" in some case converts to true. */
  lemma StringTruthinessDiffers(isZero: Float -> bool)
    ensures Into(Some(Str("false")), BoolClass) == Normal(Some(Bool(false)))
    ensures ValueToBool(Some(Str("false")), isZero)
    ensures Into(Some(Str("TRUE")), BoolClass) == Normal(Some(Bool(true)))
  {
    assert Lower('T') == 't' && Lower('R') == 'r' && Lower('U') == 'u' && Lower('E') == 'e';
  }

  /** Converting into a string agrees with `toString` for the values whose table lists strings. */
  lemma IntoStringIsShow(v: Value)
    requires v.Int? || v.Bool? || v.Char? || v.Str?
    ensures Into(Some(v), StringClass) == Normal(Some(Str(Show(v).value)))
  {
  }

  /** An int converted into a string converts back into the same int. */
  lemma IntStringRoundTrip(i: JavaInt.Int32)
    ensures Into(Some(Str(JavaInt.DecimalText(i))), IntClass) == Normal(Some(Int(i)))
    ensures Into(Into(Some(Int(i)), StringClass).value, IntClass) == Normal(Some(Int(i)))
  {
    JavaInt.IntRoundTrip(i);
  }

  /** A boolean converted into a string converts back into the same boolean. */
  lemma BoolStringRoundTrip(b: bool)
    ensures Into(Into(Some(Bool(b)), StringClass).value, BoolClass) == Normal(Some(Bool(b)))
  {
    var s := if b then "true" else "false";
    assert Into(Some(Bool(b)), StringClass) == Normal(Some(Str(s)));
    if !b {
      assert Lower(s[0]) != 't';
    }
  }

  /** Where the two boolean tables differ: to long the primitive table builds an int, to string it gives null, to char a boolean. */
  lemma BoolTablesDiffer(b: bool)
    ensures BoolInto(b, LongClass) == Normal(Some(Long(Bit(b))))
    ensures PrimitiveBoolInto(b, LongClass) == Normal(Some(Int(Bit(b))))
    ensures BoolInto(b, StringClass).value.Some? && PrimitiveBoolInto(b, StringClass) == Normal(None)
    ensures BoolInto(b, CharClass).Abrupt? && PrimitiveBoolInto(b, CharClass) == Normal(Some(Bool(b)))
  {
  }

  /** Where the two character tables agree (int, double, bool and char targets) and where they differ (long, string). */
  lemma CharTablesAgreeAndDiffer(c: char, t: Target)
    ensures t in {IntClass, DoubleClass, BoolClass, CharClass} ==> CharInto(c, t) == PrimitiveCharInto(c, t)
    ensures CharInto(c, LongClass) == Normal(Some(Long(c as int)))
    ensures PrimitiveCharInto(c, LongClass) == Normal(Some(Double(OfInt(c as int))))
    ensures PrimitiveCharInto(c, StringClass) == Normal(None)
  {
  }

  /** `and` and `or` convert their operand even when the result is already decided: a null, an SkNull or an SkObject operand throws. */
  lemma AndOrAlwaysConvert(b: bool)
    ensures And(false, None) == Abrupt(NullPointer) && Or(true, None) == Abrupt(NullPointer)
    ensures And(false, Some(Null)).Abrupt? && Or(true, Some(Null)).Abrupt?
    ensures And(b, Some(Object(map[], None))) == Abrupt(NullPointer)
    ensures And(b, Some(Int(2))) == Normal(Bool(b)) && Or(b, Some(Int(0))) == Normal(Bool(b))
  {
  }
}
