/**
 * The arithmetic of the value classes: the operand dispatch of struct/Utils.java,
 * the int overloads of types/SkInt.java, string concatenation and repetition
 * (types/object/SkString.java), and the number constructors of
 * types/SkNumber.java. An operation either gives a value, gives null
 * (`Normal(None)`), or throws.
 */
module Arithmetic {
  import opened Wrappers
  import opened Errors
  import opened Values
  import opened JavaInt
  import Tokens

  /** The six arithmetic operations of SkNumber. */
  datatype Operation = Add | Subtract | Multiply | Divide | Modulo | Power
  {
    /** The operator's symbol in the language. */
    function Symbol(): string
    {
      match this
      case Add => "+"
      case Subtract => "-"
      case Multiply => "*"
      case Divide => "/"
      case Modulo => "%"
      case Power => "**"
    }
  }

  /** The overload `Utils.math` selects for an operand: the int, long or double one. */
  datatype Operand = IntOperand(i: Int32) | LongOperand(l: Int64) | DoubleOperand(d: Float)

  /** `Utils.math`: an int, double or long operand selects the overload of its kind; any other operand, null included, selects none. */
  function MathOperand(other: Option<Value>): (r: Option<Operand>)
    ensures r.Some? <==> other.Some? && other.value.IsNumber()
    ensures r.Some? && r.value.IntOperand? ==> other == Some(Int(r.value.i))
    ensures r.Some? && r.value.LongOperand? ==> other == Some(Long(r.value.l))
    ensures r.Some? && r.value.DoubleOperand? ==> other == Some(Double(r.value.d))
  {
    match other
    case Some(Int(i)) => Some(IntOperand(i))
    case Some(Double(d)) => Some(DoubleOperand(d))
    case Some(Long(l)) => Some(LongOperand(l))
    case _ => None
  }

  /**
   * An int overload with an int operand: 32-bit wrap-around, division that
   * truncates toward zero, and an ArithmeticException for a zero divisor. The
   * power overload goes through `Math.pow`, which is not part of this model.
   */
  function IntWithInt(op: Operation, a: Int32, b: Int32): (r: Exec<Value>)
    ensures r.Normal? ==> r.value.Int?
    ensures r.Abrupt? <==> (op == Divide || op == Modulo) && b == 0
    ensures r.Abrupt? ==> r.fault == Arithmetic
    ensures r.Unmodelled? <==> op == Power
  {
    match op
    case Add => Normal(Int(Wrap32(a + b)))
    case Subtract => Normal(Int(Wrap32(a - b)))
    case Multiply => Normal(Int(Wrap32(a * b)))
    case Divide => if b == 0 then Abrupt(Arithmetic) else Normal(Int(Wrap32(Quot(a, b))))
    case Modulo =>
      if b == 0 then Abrupt(Arithmetic)
      else
        RemainderFits(a, b);
        Normal(Int(Rem(a, b)))
    case Power => Unmodelled("Math.pow")
  }

  /** The remainder of two ints is an int: it is smaller than the divisor in magnitude. */
  lemma RemainderFits(a: Int32, b: Int32)
    requires b != 0
    ensures IsInt(Rem(a, b))
  {
    assert IsInt(a) && IsInt(b);
    QuotRem(a, b);
  }

  /** An int overload with a long operand: the int is widened and the result is a long, with 64-bit wrap-around. */
  function IntWithLong(op: Operation, a: Int32, b: Int64): (r: Exec<Value>)
    ensures r.Normal? ==> r.value.Long?
    ensures r.Abrupt? <==> (op == Divide || op == Modulo) && b == 0
    ensures r.Abrupt? ==> r.fault == Arithmetic
    ensures r.Unmodelled? <==> op == Power
  {
    match op
    case Add => Normal(Long(Wrap64(a + b)))
    case Subtract => Normal(Long(Wrap64(a - b)))
    case Multiply => Normal(Long(Wrap64(a * b)))
    case Divide => if b == 0 then Abrupt(Arithmetic) else Normal(Long(Wrap64(Quot(a, b))))
    case Modulo =>
      if b == 0 then Abrupt(Arithmetic)
      else
        LongRemainderFits(a, b);
        Normal(Long(Rem(a, b)))
    case Power => Unmodelled("Math.pow")
  }

  lemma LongRemainderFits(a: Int32, b: Int64)
    requires b != 0
    ensures IsLong(Rem(a, b))
  {
    assert IsInt(a) && IsLong(b);
    QuotRem(a, b);
  }

  /**
   * SkInt's operations on another value: `add` with a string operand
   * concatenates the int's text and the string; otherwise `Utils.math` picks
   * the overload for the operand's kind (the double overloads are not part of
   * this model), and an operand of no number kind gives null.
   */
  function IntOp(op: Operation, a: Int32, other: Option<Value>): (r: Exec<Option<Value>>)
    ensures op == Add && other.Some? && other.value.Str? ==> r == Normal(Some(Str(DecimalText(a) + other.value.s)))
    ensures !(op == Add && other.Some? && other.value.Str?) ==> (r == Normal(None) <==> MathOperand(other).None?)
    ensures other.Some? && other.value.Int? ==> r == Lift(IntWithInt(op, a, other.value.i))
    ensures other.Some? && other.value.Long? ==> r == Lift(IntWithLong(op, a, other.value.l))
  {
    if op == Add && other.Some? && other.value.Str? then Normal(Some(Str(DecimalText(a) + other.value.s)))
    else
      match MathOperand(other)
      case None => Normal(None)
      case Some(IntOperand(b)) => Lift(IntWithInt(op, a, b))
      case Some(LongOperand(b)) => Lift(IntWithLong(op, a, b))
      case Some(DoubleOperand(_)) => Unmodelled("double arithmetic")
  }

  /** An outcome that has a value, seen as one that may give null. */
  function Lift(e: Exec<Value>): (r: Exec<Option<Value>>)
    ensures r.Normal? <==> e.Normal?
    ensures r.Normal? ==> r.value == Some(e.value)
    ensures r.Abrupt? ==> e.Abrupt? && r.fault == e.fault
  {
    match e
    case Normal(v) => Normal(Some(v))
    case Abrupt(f) => Abrupt(f)
    case Unmodelled(w) => Unmodelled(w)
  }

  /**
   * An SkNumber's operation on another value. The SkLong and SkDouble
   * arithmetic is not part of this model.
   */
  function NumberOp(op: Operation, left: Value, other: Option<Value>): (r: Exec<Option<Value>>)
    requires left.IsNumber()
    ensures left.Int? ==> r == IntOp(op, left.i, other)
    ensures !left.Int? ==> r.Unmodelled?
  {
    match left
    case Int(a) => IntOp(op, a, other)
    case Long(_) => Unmodelled("SkLong arithmetic")
    case Double(_) => Unmodelled("SkDouble arithmetic")
  }

  /** SkString.add: the string followed by the other value's `toString`; a null operand throws. */
  function StringAdd(s: string, other: Option<Value>): (r: Exec<Value>)
    ensures other.None? ==> r == Abrupt(NullPointer)
    ensures other.Some? ==> (r.Normal? <==> Show(other.value).Some?)
    ensures r.Normal? ==> r.value.Str? && |r.value.s| >= |s| && r.value.s[..|s|] == s
    ensures r.Normal? ==> r.value.s[|s|..] == Show(other.value).value
  {
    match other
    case None => Abrupt(NullPointer)
    case Some(v) =>
      match Show(v)
      case Some(t) => Normal(Str(s + t))
      case None => Unmodelled("toString")
  }

  /** `String.repeat`: `n` copies of `s`. */
  function Repeat(s: string, n: nat): string
  {
    if n == 0 then "" else s + Repeat(s, n - 1)
  }

  /** The number of UTF-16 code units of `s`: a character past U+FFFF is a surrogate pair. */
  function Utf16Units(s: string): (u: nat)
    ensures |s| <= u <= 2 * |s|
  {
    if |s| == 0 then 0 else (if s[0] > '\U{FFFF}' then 2 else 1) + Utf16Units(s[1..])
  }

  /**
   * The length of the array behind `s` under the JDK's compact strings: one
   * byte per character when every character is Latin-1, otherwise two bytes
   * per UTF-16 code unit.
   */
  function StoredLength(s: string): nat
  {
    if forall k | 0 <= k < |s| :: s[k] <= '\U{FF}' then |s| else 2 * Utf16Units(s)
  }

  /**
   * The JDK's `String.repeat` throws OutOfMemoryError, before copying anything,
   * for a count of two or more on a string of two or more stored bytes whose
   * copies would exceed Integer.MAX_VALUE bytes.
   */
  predicate RepeatOverflows(s: string, n: nat)
  {
    n >= 2 && StoredLength(s) >= 2 && StoredLength(s) * n > IntMax
  }

  /**
   * SkString.multiply: an int count repeats the string (a negative count makes
   * `String.repeat` throw IllegalArgumentException, an overlong result
   * OutOfMemoryError); a double count is truncated first (not part of this
   * model); any other operand gives null.
   */
  function StringMultiply(s: string, other: Option<Value>): (r: Exec<Option<Value>>)
    ensures other.Some? && other.value.Int? && other.value.i < 0 ==> r == Abrupt(IllegalArgument)
    ensures other.Some? && other.value.Int? && other.value.i >= 0 && RepeatOverflows(s, other.value.i) ==> r == Abrupt(OutOfMemory)
    ensures other.Some? && other.value.Int? && other.value.i >= 0 && !RepeatOverflows(s, other.value.i) ==> r == Normal(Some(Str(Repeat(s, other.value.i))))
    ensures other.None? || !(other.value.Int? || other.value.Double?) ==> r == Normal(None)
  {
    match other
    case Some(Int(n)) =>
      if n < 0 then Abrupt(IllegalArgument)
      else if RepeatOverflows(s, n) then Abrupt(OutOfMemory)
      else Normal(Some(Str(Repeat(s, n))))
    case Some(Double(_)) => Unmodelled("double repeat count")
    case _ => Normal(None)
  }

  /** The index of the first '.' in `s`, if there is one (`contains(".")`). */
  function DotIndex(s: string): (r: Option<nat>)
    ensures r.Some? ==> r.value < |s| && s[r.value] == '.' && forall k | 0 <= k < r.value :: s[k] != '.'
    ensures r.None? ==> forall k | 0 <= k < |s| :: s[k] != '.'
  {
    if |s| == 0 then None
    else if s[0] == '.' then Some(0)
    else match DotIndex(s[1..])
      case None => None
      case Some(d) => Some(d + 1)
  }

  /** The shape of the lexer's decimal literals: digits around one '.', at least one digit. `Double.parseDouble` accepts all of them. */
  predicate DecimalLiteral(s: string)
  {
    DotIndex(s).Some? && |s| > 1 && AllDigits(s[..DotIndex(s).value]) && AllDigits(s[DotIndex(s).value + 1..])
  }

  /** `Double.parseDouble`, where the model computes it: a decimal literal gives the double it denotes. */
  function ParseDouble(s: string): (r: Exec<Value>)
    ensures r.Normal? <==> DecimalLiteral(s)
    ensures r.Normal? ==> r.value == Double(Literal(s))
  {
    if DecimalLiteral(s) then Normal(Double(Literal(s))) else Unmodelled("Double.parseDouble")
  }

  /**
   * SkNumber.fromToken: an INT token gives the int `Integer.parseInt` reads
   * from its text, a LONG token the long `Long.parseLong` reads, a DOUBLE
   * token the double `Double.parseDouble` reads; a text either rejects throws,
   * and so does a null text. Any other kind of token gives null.
   */
  function FromToken(t: Tokens.Token): (r: Exec<Option<Value>>)
    ensures !(t.kind in Tokens.Numbers) ==> r == Normal(None)
    ensures t.kind == Tokens.Int ==> (r.Normal? <==> t.value.Some? && ParseInt(t.value.value).Some?)
    ensures t.kind == Tokens.Int && r.Normal? ==> r.value == Some(Int(ParseInt(t.value.value).value))
    ensures t.kind == Tokens.Long ==> (r.Normal? <==> t.value.Some? && ParseLong(t.value.value).Some?)
    ensures t.kind == Tokens.Long && r.Normal? ==> r.value == Some(Long(ParseLong(t.value.value).value))
    ensures r.Abrupt? && t.value.Some? && t.kind != Tokens.Double ==> r.fault == NumberFormat(t.value.value)
  {
    match t.kind
    case Int =>
      (match t.value
       case None => Abrupt(NumberFormat("null"))
       case Some(text) =>
         match ParseInt(text)
         case Some(i) => Normal(Some(Int(i)))
         case None => Abrupt(NumberFormat(text)))
    case Long =>
      (match t.value
       case None => Abrupt(NumberFormat("null"))
       case Some(text) =>
         match ParseLong(text)
         case Some(l) => Normal(Some(Long(l)))
         case None => Abrupt(NumberFormat(text)))
    case Double =>
      (match t.value
       case None => Abrupt(NullPointer)
       case Some(text) => Lift(ParseDouble(text)))
    case _ => Normal(None)
  }

  /**
   * SkNumber.fromString: a text containing '.' is read as a double; one ending
   * in 'L' is passed, suffix and all, to `Long.parseLong`; any other text to
   * `Integer.parseInt`.
   */
  function FromString(s: string): (r: Exec<Value>)
    ensures DotIndex(s).Some? ==> r == ParseDouble(s)
    ensures DotIndex(s).None? && !(|s| > 0 && s[|s| - 1] == 'L') ==> (r.Normal? <==> ParseInt(s).Some?)
    ensures DotIndex(s).None? && !(|s| > 0 && s[|s| - 1] == 'L') && r.Normal? ==> r.value == Int(ParseInt(s).value)
    ensures r.Abrupt? ==> r.fault == NumberFormat(s)
    ensures r.Normal? ==> r.value.IsNumber()
  {
    if DotIndex(s).Some? then ParseDouble(s)
    else if |s| > 0 && s[|s| - 1] == 'L' then
      match ParseLong(s)
      case Some(l) => Normal(Long(l))
      case None => Abrupt(NumberFormat(s))
    else
      match ParseInt(s)
      case Some(i) => Normal(Int(i))
      case None => Abrupt(NumberFormat(s))
  }

  // Properties

  /** Addition, subtraction and multiplication of ints are the exact results wrapped to 32 bits: exact when they fit, congruent modulo 2^32 always. */
  lemma IntArithmeticWraps(op: Operation, a: Int32, b: Int32, exact: int)
    requires op in {Add, Subtract, Multiply}
    requires exact == (if op == Add then a + b else if op == Subtract then a - b else a * b)
    ensures IntWithInt(op, a, b).Normal?
    ensures (IntWithInt(op, a, b).value.i - exact) % 0x1_0000_0000 == 0
    ensures IsInt(exact) ==> IntWithInt(op, a, b) == Normal(Int(exact))
  {
  }

  /** The one int division that overflows: the least int divided by -1 wraps back to itself, and the remainder is 0. */
  lemma DivisionOverflow()
    ensures IntWithInt(Divide, IntMin, -1) == Normal(Int(IntMin))
    ensures IntWithInt(Modulo, IntMin, -1) == Normal(Int(0))
  {
    assert Quot(IntMin, -1) == 0x8000_0000;
  }

  /** Every other int division is exact truncating division: no wrap-around. */
  lemma DivisionIsTruncating(a: Int32, b: Int32)
    requires b != 0 && !(a == IntMin && b == -1)
    ensures IntWithInt(Divide, a, b).Normal? && IntWithInt(Divide, a, b).value.i == Quot(a, b)
  {
    QuotOverflow(a, b);
  }

  /** Java's division identity `(a / b) * b + a % b == a` holds for ints, in wrap-around arithmetic, for every non-zero divisor. */
  lemma DivisionIdentity(a: Int32, b: Int32)
    requires b != 0
    ensures IntWithInt(Divide, a, b).Normal? && IntWithInt(Modulo, a, b).Normal?
    ensures Wrap32(IntWithInt(Divide, a, b).value.i * b + IntWithInt(Modulo, a, b).value.i) == a
  {
    var q := IntWithInt(Divide, a, b).value.i;
    var r := IntWithInt(Modulo, a, b).value.i;
    if a == IntMin && b == -1 {
      DivisionOverflow();
      OverflowIdentity(q, b, r);
    } else {
      DivisionIsTruncating(a, b);
      ExactIdentity(a, b, q, r);
    }
  }

  lemma OverflowIdentity(q: int, b: int, r: int)
    requires q == IntMin && b == -1 && r == 0
    ensures Wrap32(q * b + r) == IntMin
  {
    assert q * b + r == 0x8000_0000;
  }

  lemma ExactIdentity(a: Int32, b: Int32, q: int, r: int)
    requires b != 0 && q == Quot(a, b) && r == Rem(a, b)
    ensures Wrap32(q * b + r) == a
  {
    assert q * b + r == a;
  }

  /** The remainder has the dividend's sign and is smaller than the divisor in magnitude. */
  lemma RemainderSign(a: Int32, b: Int32)
    requires b != 0
    ensures IntWithInt(Modulo, a, b).Normal?
    ensures var r := IntWithInt(Modulo, a, b).value.i; Abs(r) < Abs(b) && (r == 0 || (r < 0 <==> a < 0))
  {
    QuotRem(a, b);
  }

  /** An int plus a long is the exact sum when it fits in a long, and always a long. */
  lemma IntLongWidens(a: Int32, b: Int64)
    requires IsLong(a + b)
    ensures IntOp(Add, a, Some(Long(b))) == Normal(Some(Long(a + b)))
  {
  }

  /** Adding a string to an int gives the int's text, which reads back as the int, followed by the string. */
  lemma IntConcatenation(a: Int32, s: string)
    ensures IntOp(Add, a, Some(Str(s))).Normal?
    ensures var r := IntOp(Add, a, Some(Str(s))).value.value.s;
      ParseInt(r[..|DecimalText(a)|]) == Some(a) && r[|DecimalText(a)|..] == s
  {
    var t := DecimalText(a);
    assert (t + s)[..|t|] == t;
    assert (t + s)[|t|..] == s;
    IntRoundTrip(a);
  }

  /** An int with an operand of no number kind, a string aside for `+`, gives null. */
  lemma IntWithNonNumber(op: Operation, a: Int32, other: Option<Value>)
    requires other.None? || !(other.value.IsNumber() || other.value.Str?)
    ensures IntOp(op, a, other) == Normal(None)
  {
  }

  /**
   * Repetition has `n` times the length, begins with `s`, and repeats with
   * period `|s|`: together these determine every character.
   */
  lemma {:induction false} RepeatContents(s: string, n: nat)
    ensures |Repeat(s, n)| == n * |s|
    ensures n > 0 ==> Repeat(s, n)[..|s|] == s
    ensures forall k | |s| <= k < |Repeat(s, n)| :: Repeat(s, n)[k] == Repeat(s, n)[k - |s|]
  {
    if n > 0 {
      RepeatContents(s, n - 1);
      var r := Repeat(s, n - 1);
      assert Repeat(s, n) == s + r;
      assert n * |s| == |s| + (n - 1) * |s|;
      if n > 1 {
        assert r[..|s|] == s;
      }
    }
  }

  /** Repeating `m` and then `n` times is repeating `m + n` times. */
  lemma {:induction false} RepeatAdds(s: string, m: nat, n: nat)
    ensures Repeat(s, m) + Repeat(s, n) == Repeat(s, m + n)
  {
    if m > 0 {
      RepeatAdds(s, m - 1, n);
      assert Repeat(s, m) + Repeat(s, n) == s + (Repeat(s, m - 1) + Repeat(s, n));
    }
  }

  /**
   * Multiplying a string by an int `n >= 0` yields `n` copies, unless the copies
   * would not fit in a Java string, when `String.repeat` throws OutOfMemoryError.
   */
  lemma StringMultiplyRepeats(s: string, n: Int32)
    requires n >= 0
    ensures StringMultiply(s, Some(Int(n))) == Abrupt(OutOfMemory) <==> RepeatOverflows(s, n)
    ensures !RepeatOverflows(s, n) ==> StringMultiply(s, Some(Int(n))).Normal?
    ensures !RepeatOverflows(s, n) ==> var r := StringMultiply(s, Some(Int(n))).value.value.s;
      |r| == n * |s| && (n > 0 ==> r[..|s|] == s) && forall k | |s| <= k < |r| :: r[k] == r[k - |s|]
  {
    RepeatContents(s, n);
  }

  /** A string the model lets `String.repeat` build is never longer than a Java string can be. */
  lemma {:induction false} RepeatedFits(s: string, n: Int32)
    requires n >= 0 && |s| <= IntMax
    requires StringMultiply(s, Some(Int(n))).Normal?
    ensures |StringMultiply(s, Some(Int(n))).value.value.s| <= IntMax
  {
    RepeatContents(s, n);
    if n >= 2 && |s| >= 2 {
      assert StoredLength(s) >= |s|;
      assert StoredLength(s) * n <= IntMax;
      assert |s| * n <= StoredLength(s) * n;
    } else if n >= 2 && |s| == 1 {
      assert !RepeatOverflows(s, n);
      assert StringMultiply(s, Some(Int(n))).value.value.s == Repeat(s, n);
      assert IsInt(n);
      assert n * |s| == n && n <= IntMax;
    }
  }

  /** Two or more copies of a string of two or more characters that come to more than Integer.MAX_VALUE characters throw OutOfMemoryError. */
  lemma {:induction false} OverlongRepeatThrows(s: string, n: Int32)
    requires n >= 2 && |s| >= 2 && |s| * n > IntMax
    ensures StringMultiply(s, Some(Int(n))) == Abrupt(OutOfMemory)
  {
    assert StoredLength(s) >= |s|;
    assert StoredLength(s) * n >= |s| * n;
  }

  /** Example of `OverlongRepeatThrows`: `"ab" * 1500000000` would be three billion characters, so it throws OutOfMemoryError. */
  lemma {:induction false} RepeatTooLong()
    ensures StringMultiply("ab", Some(Int(1500000000))) == Abrupt(OutOfMemory)
  {
    OverlongRepeatThrows("ab", 1500000000);
  }

  /**
   * A character past U+FFFF is two UTF-16 code units, four stored bytes: six
   * hundred million copies of it throw OutOfMemoryError although they come to
   * fewer than Integer.MAX_VALUE characters.
   */
  lemma {:induction false} SurrogatePairRepeatThrows()
    ensures StoredLength("\U{1F600}") == 4
    ensures StringMultiply("\U{1F600}", Some(Int(600000000))) == Abrupt(OutOfMemory)
  {
    assert Utf16Units("\U{1F600}") == 2 + Utf16Units("\U{1F600}"[1..]);
    assert "\U{1F600}"[1..] == "";
  }

  /** Concatenating a string value keeps both strings: the prefix and the suffix give them back. */
  lemma StringAddStrings(s: string, t: string)
    ensures StringAdd(s, Some(Str(t))) == Normal(Str(s + t))
  {
  }

  /** Reading back the rendering: the text of an INT token that is a canonical decimal in range renders back to itself. */
  lemma IntTokenRoundTrip(t: Tokens.Token)
    requires t.kind == Tokens.Int && t.value.Some?
    requires Canonical(t.value.value) && ParseInt(t.value.value).Some?
    ensures FromToken(t).Normal? && FromToken(t).value.Some?
    ensures Show(FromToken(t).value.value) == t.value
  {
    RenderingOfParse(t.value.value, IntMin, IntMax);
  }

  /** The same for LONG tokens, whose text the lexer stores without the 'L'. */
  lemma LongTokenRoundTrip(t: Tokens.Token)
    requires t.kind == Tokens.Long && t.value.Some?
    requires Canonical(t.value.value) && ParseLong(t.value.value).Some?
    ensures FromToken(t).Normal? && FromToken(t).value.Some?
    ensures Show(FromToken(t).value.value) == t.value
  {
    RenderingOfParse(t.value.value, LongMin, LongMax);
  }

  /** And an int's text, as an INT token, reads back to the same int. */
  lemma IntRenderingReadsBack(i: Int32, t: Tokens.Token)
    requires t.kind == Tokens.Int && t.value == Some(DecimalText(i))
    ensures FromToken(t) == Normal(Some(Int(i)))
  {
    IntRoundTrip(i);
  }

  /** `fromString` of a text ending in 'L' with no '.' always throws: `Long.parseLong` does not accept the suffix. */
  lemma LongSuffixAlwaysFails(s: string)
    requires DotIndex(s).None? && |s| > 0 && s[|s| - 1] == 'L'
    ensures FromString(s) == Abrupt(NumberFormat(s))
  {
    var body := if s[0] == '-' || s[0] == '+' then s[1..] else s;
    if |body| > 0 {
      assert body[|body| - 1] == 'L';
      assert !AllDigits(body);
    }
  }

  /** `fromString` reads an int's text back as the same int. */
  lemma FromStringReadsInts(i: Int32)
    ensures FromString(DecimalText(i)) == Normal(Int(i))
  {
    var s := DecimalText(i);
    IntRoundTrip(i);
    var body := if s[0] == '-' then s[1..] else s;
    assert AllDigits(body);
    assert forall k | 0 <= k < |s| :: s[k] == '-' || IsDigit(s[k]) by {
      forall k | 0 <= k < |s|
        ensures s[k] == '-' || IsDigit(s[k])
      {
        if s[0] == '-' && k > 0 {
          assert s[k] == body[k - 1];
        }
      }
    }
    assert IsDigit(s[|s| - 1]);
  }
}
