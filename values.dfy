/**
 * The runtime values (the classes under types/, types/object/ and types/primitive/):
 * one closed datatype for the value classes of both hierarchies, with the
 * behaviour every value has: its type tag, its `toString`, and `compare` with
 * the comparisons derived from it (types/SkValue.java). A Java null where a
 * value is expected is `None` of an `Option<Value>`.
 */
module Values {
  import opened Wrappers
  import opened Errors
  import Ast
  import JavaInt

  /**
   * A double. Floating-point arithmetic is not part of this model, so a Float
   * only records where it came from: the text of a literal, or an integer
   * converted to double.
   */
  datatype Float = Literal(text: string) | OfInt(n: int)

  /** SkParameter: a parameter's name, its evaluated default (null when it has none) and its spread flag. */
  datatype Parameter = Parameter(name: Option<string>, default: Option<Value>, spread: bool)

  /**
   * The value classes. Int and Long hold Java `int` and `long` values. An
   * Object holds its entry map (null entries allowed) and the name of the class
   * it is an instance of, if any. SkString, SkArray and SkFunction extend
   * SkObject and are built with an empty entry map. A Char holds one character,
   * whose code is its Unicode scalar value.
   */
  datatype Value =
    | Null
    | Int(i: JavaInt.Int32)
    | Long(l: JavaInt.Int64)
    | Double(d: Float)
    | Bool(b: bool)
    | Char(c: char)
    | Str(s: string)
    | Array(elements: seq<Option<Value>>)
    | Object(entries: map<string, Option<Value>>, className: Option<string>)
    | Function(params: seq<Parameter>, statements: seq<Ast.Node>)
    | Error(error: SkError)
  {
    /** An instance of SkNumber. */
    predicate IsNumber()
    {
      Int? || Long? || Double?
    }
  }

  /**
   * The type tag each class passes to the SkValue constructor. SkLong is not
   * part of this model; its tag is taken to be "Long" like the other numbers'.
   */
  function TypeName(v: Value): (r: string)
    ensures v.Object? && v.className.Some? ==> r == v.className.value
    ensures !(v.Object? && v.className.Some?) ==> r in {"null", "Int", "Long", "Double", "Boolean", "Object", "Error"}
    ensures v.Str? || v.Array? || v.Function? ==> r == "Object"
  {
    match v
    case Null => "null"
    case Int(_) => "Int"
    case Long(_) => "Long"
    case Double(_) => "Double"
    case Bool(_) => "Boolean"
    case Char(_) => "Int"
    case Str(_) => "Object"
    case Array(_) => "Object"
    case Function(_, _) => "Object"
    case Object(_, c) => if c.Some? then c.value else "Object"
    case Error(_) => "Error"
  }

  /**
   * `toString`, where it is modelled: None for a double (floating-point
   * rendering), a function (it renders its statement nodes) and a runtime
   * error (its traceback is built from the context, which is not part of this
   * model). An array renders like `Arrays.toString`.
   */
  function Show(v: Value): Option<string>
    decreases v, 1, 0
  {
    match v
    case Null => Some("null")
    case Int(i) => Some(JavaInt.DecimalText(i))
    case Long(l) => Some(JavaInt.DecimalText(l))
    case Double(_) => None
    case Bool(b) => Some(if b then "true" else "false")
    case Char(c) => Some([c])
    case Str(s) => Some(s)
    case Array(elements) =>
      var inner := ShowElements(elements, 0);
      if inner.Some? then Some("[" + inner.value + "]") else None
    case Object(_, _) => Some("")
    case Function(_, _) => None
    case Error(e) => if e.name == RuntimeError then None else Some(Errors.ToString(e))
  }

  /** The elements from index `k` on, each rendered (a null as "null") and separated by ", ". */
  function ShowElements(elements: seq<Option<Value>>, k: nat): Option<string>
    requires k <= |elements|
    decreases Array(elements), 0, |elements| - k
  {
    if k == |elements| then Some("")
    else
      assert elements[k] in elements;
      var first := match elements[k] case None => Some("null") case Some(e) => Show(e);
      var rest := ShowElements(elements, k + 1);
      if first.None? || rest.None? then None
      else Some((if k == 0 then "" else ", ") + first.value + rest.value)
  }

  /** The entry map of a value that is an SkObject; None for the values that are not. */
  function Entries(v: Value): (r: Option<map<string, Option<Value>>>)
    ensures r.Some? <==> v.Str? || v.Array? || v.Function? || v.Object?
    ensures r.Some? && !v.Object? ==> r.value == map[]
  {
    match v
    case Str(_) => Some(map[])
    case Array(_) => Some(map[])
    case Function(_, _) => Some(map[])
    case Object(entries, _) => Some(entries)
    case _ => None
  }

  /**
   * SkObject.compare, for this object's entry map against another value: 1
   * unless the other value is an SkObject with an equal map. The maps are
   * compared with `equals` on their values, which is reference identity, so
   * two maps with the same non-null values give an outcome this model does
   * not decide (None).
   */
  function CompareEntries(mine: map<string, Option<Value>>, other: Option<Value>): (r: Option<int>)
    ensures r == Some(0) ==> other.Some? && Entries(other.value) == Some(mine)
    ensures r.None? ==> other.Some? && Entries(other.value) == Some(mine)
  {
    if other.None? || Entries(other.value).None? || Entries(other.value).value != mine then Some(1)
    else if forall k | k in mine :: mine[k].None? then Some(0)
    else None
  }

  /**
   * `compare`: SkNull gives 0 only against another null value; SkInt, SkBool,
   * SkChar, SkDouble, SkString and SkError give 0 against anything; the
   * SkObject classes compare entry maps. SkLong is not part of this model, so
   * its comparison is None.
   */
  function Compare(v: Value, other: Option<Value>): (r: Option<int>)
    ensures r.Some? ==> r.value == 0 || r.value == 1
    ensures r.None? ==> v.Long? || (Entries(v).Some? && other.Some? && Entries(other.value) == Entries(v))
    ensures v.Int? || v.Double? || v.Bool? || v.Char? || v.Str? || v.Error? ==> r == Some(0)
  {
    match v
    case Null => Some(if other == Some(Null) then 0 else 1)
    case Int(_) => Some(0)
    case Long(_) => None
    case Double(_) => Some(0)
    case Bool(_) => Some(0)
    case Char(_) => Some(0)
    case Str(_) => Some(0)
    case Array(_) => CompareEntries(map[], other)
    case Function(_, _) => CompareEntries(map[], other)
    case Object(entries, _) => CompareEntries(entries, other)
    case Error(_) => Some(0)
  }

  /** `equalTo`: true exactly when `compare` gives 0. */
  function EqualTo(v: Value, other: Option<Value>): (r: Option<Value>)
    ensures r.Some? <==> Compare(v, other).Some?
    ensures r.Some? ==> r.value == Bool(Compare(v, other).value == 0)
  {
    match Compare(v, other)
    case None => None
    case Some(c) => Some(Bool(c == 0))
  }

  /** `lessThan`: true exactly when `compare` is negative. */
  function LessThan(v: Value, other: Option<Value>): (r: Option<Value>)
    ensures r.Some? <==> Compare(v, other).Some?
    ensures r.Some? ==> r.value == Bool(Compare(v, other).value < 0)
  {
    match Compare(v, other)
    case None => None
    case Some(c) => Some(Bool(c < 0))
  }

  /** `greaterThan`: true exactly when `compare` is positive. */
  function GreaterThan(v: Value, other: Option<Value>): (r: Option<Value>)
    ensures r.Some? <==> Compare(v, other).Some?
    ensures r.Some? ==> r.value == Bool(Compare(v, other).value > 0)
  {
    match Compare(v, other)
    case None => None
    case Some(c) => Some(Bool(c > 0))
  }

  /** Every modelled comparison is 0 or 1, so `lessThan` is never true, and `greaterThan` is the negation of `equalTo`. */
  lemma ComparisonsAreZeroOrOne(v: Value, other: Option<Value>)
    requires Compare(v, other).Some?
    ensures Compare(v, other).value == 0 || Compare(v, other).value == 1
    ensures LessThan(v, other) == Some(Bool(false))
    ensures GreaterThan(v, other) == Some(Bool(EqualTo(v, other) == Some(Bool(false))))
  {
  }

  /** Null equals only null. */
  lemma NullEqualsOnlyNull(other: Option<Value>)
    ensures EqualTo(Null, other) == Some(Bool(other == Some(Null)))
  {
  }

  /** Ints, doubles, booleans, characters, strings and errors are equal to every value, null included. */
  lemma ScalarsEqualEverything(v: Value, other: Option<Value>)
    requires v.Int? || v.Double? || v.Bool? || v.Char? || v.Str? || v.Error?
    ensures EqualTo(v, other) == Some(Bool(true))
  {
  }

  /** So equality is not symmetric: an int equals null, but null does not equal an int. */
  lemma EqualityIsNotSymmetric(n: JavaInt.Int32)
    ensures EqualTo(Int(n), Some(Null)) == Some(Bool(true))
    ensures EqualTo(Null, Some(Int(n))) == Some(Bool(false))
  {
  }

  /** Two SkObjects are equal when their maps are equal: any two strings, arrays or functions, or an object with no entries. */
  lemma EmptyObjectsAreEqual(v: Value, w: Value)
    requires Entries(v) == Some(map[]) && Entries(w) == Some(map[])
    ensures EqualTo(v, Some(w)) == Some(Bool(true))
  {
  }

  /** An SkObject is never equal to null or to a value that is not an SkObject. */
  lemma ObjectsEqualOnlyObjects(v: Value, other: Option<Value>)
    requires v.Array? || v.Function? || v.Object?
    requires other.None? || Entries(other.value).None?
    ensures EqualTo(v, other) == Some(Bool(false))
  {
  }

  /** The tags of the cases the classes share: strings, arrays and functions are "Object", characters are "Int". */
  lemma SharedTypeTags(s: string, c: char, es: seq<Option<Value>>)
    ensures TypeName(Str(s)) == TypeName(Array(es)) == TypeName(Object(map[], None)) == "Object"
    ensures TypeName(Char(c)) == TypeName(Int(0)) == "Int"
  {
  }

  /** An array renders as its elements between brackets, separated by ", ", with null elements as "null". */
  lemma {:induction false} ShowArray(elements: seq<Option<Value>>)
    requires forall k | 0 <= k < |elements| :: elements[k].None? || Show(elements[k].value).Some?
    ensures Show(Array(elements)).Some?
    ensures |elements| == 0 ==> Show(Array(elements)) == Some("[]")
    ensures |elements| == 1 && elements[0].None? ==> Show(Array(elements)) == Some("[null]")
  {
    ShowElementsDefined(elements, 0);
    if |elements| == 0 {
      assert ShowElements(elements, 0) == Some("");
      assert "[" + "" + "]" == "[]";
    } else if |elements| == 1 && elements[0].None? {
      assert ShowElements(elements, 1) == Some("");
      assert "" + "null" + "" == "null";
      assert ShowElements(elements, 0) == Some("null");
      assert "[" + "null" + "]" == "[null]";
    }
  }

  lemma {:induction false} ShowElementsDefined(elements: seq<Option<Value>>, k: nat)
    requires k <= |elements|
    requires forall j | k <= j < |elements| :: elements[j].None? || Show(elements[j].value).Some?
    ensures ShowElements(elements, k).Some?
    decreases |elements| - k
  {
    if k < |elements| {
      ShowElementsDefined(elements, k + 1);
    }
  }
}
