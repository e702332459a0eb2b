/**
  The `PhoneCall` value type of Task16: a call length in whole seconds and a
  per-minute rate, built only through the validating constructor, compared by
  value, and combined by `+` (same rate, lengths added) and `*` (rate scaled,
  length kept). Thrown exceptions are `Failure` values.
*/
module PhoneCalls {
  import opened Results
  import opened Text

  /** The struct's two fields; `rate` stands for the `double Rate` as an exact number. */
  datatype PhoneCall = PhoneCall(time: int32, rate: real)

  /** The exceptions thrown, with their messages (and parameter name where one is given). */
  datatype Error =
    | ArgumentNull(nullParam: string, message: string)
    | Argument(message: string, paramName: Option<string>)
    | InvalidOperation(message: string)

  const TimeMessage := "Время разговора должно целым, положительным числом"
  const RateMessage := "Стоимость тарифа должна быть положительным числом"
  const NullMessage := "Нельзя сравнивать с null."
  const NotPhoneCallMessage := "Объект не является экземпляром PhoneCall."
  const RatesDifferMessage := "Нельзя складывать разговоры с разными тарифами."
  const MultiplierMessage := "Множитель должен быть положительным числом."

  /** What the constructor guarantees of every call it returns. */
  predicate Valid(c: PhoneCall)
  {
    c.time > 0 && c.rate > 0.0
  }

  /** `new PhoneCall(time, rate)`: the time is checked first, then the rate. */
  function Create(time: int32, rate: real): (r: Result<PhoneCall, Error>)
    ensures r.Success? <==> time > 0 && rate > 0.0
    ensures r.Success? ==> Valid(r.value) && r.value.time == time && r.value.rate == rate
    ensures time <= 0 ==> r == Failure(Argument(TimeMessage, None))
    ensures time > 0 && rate <= 0.0 ==> r == Failure(Argument(RateMessage, None))
  {
    if time <= 0 || time % 1 != 0 then Failure(Argument(TimeMessage, None))
    else if rate <= 0.0 then Failure(Argument(RateMessage, None))
    else Success(PhoneCall(time, rate))
  }

  /** The `object` argument of `Equals`: null, a boxed `PhoneCall`, or an object of another type. */
  datatype Object = Null | Boxed(call: PhoneCall) | Other

  /** `Equals(object)`: throws on null and on a non-`PhoneCall`, otherwise compares both fields. */
  function Equals(c: PhoneCall, obj: Object): (r: Result<bool, Error>)
    ensures obj.Null? <==> r == Failure(ArgumentNull("obj", NullMessage))
    ensures obj.Other? <==> r == Failure(Argument(NotPhoneCallMessage, Some("obj")))
    ensures r.Success? <==> obj.Boxed?
    ensures obj.Boxed? ==> (r.Success? && r.value <==> c.time == obj.call.time && c.rate == obj.call.rate)
  {
    match obj
    case Null => Failure(ArgumentNull("obj", NullMessage))
    case Other => Failure(Argument(NotPhoneCallMessage, Some("obj")))
    case Boxed(other) => Success(c.time == other.time && c.rate == other.rate)
  }

  /** On a boxed call, `Equals` is value equality. */
  lemma EqualsIsValueEquality(a: PhoneCall, b: PhoneCall)
    ensures Equals(a, Boxed(b)) == Success(a == b)
  {
  }

  lemma EqualsReflexive(a: PhoneCall)
    ensures Equals(a, Boxed(a)) == Success(true)
  {
  }

  lemma EqualsSymmetric(a: PhoneCall, b: PhoneCall)
    ensures Equals(a, Boxed(b)) == Equals(b, Boxed(a))
  {
  }

  lemma EqualsTransitive(a: PhoneCall, b: PhoneCall, c: PhoneCall)
    requires Equals(a, Boxed(b)) == Success(true) && Equals(b, Boxed(c)) == Success(true)
    ensures Equals(a, Boxed(c)) == Success(true)
  {
  }

  /**
    `GetHashCode`: `Time.GetHashCode() ^ Rate.GetHashCode()`. `int.GetHashCode`
    is the value itself; `double.GetHashCode` is passed in as `doubleHash`.
  */
  function HashCode(c: PhoneCall, doubleHash: real -> int32): (h: int32)
    ensures h == Xor32(doubleHash(c.rate), c.time)
    ensures doubleHash(c.rate) == 0 ==> h == c.time
    ensures doubleHash(c.rate) == c.time ==> h == 0
  {
    Xor32Commutative(c.time, doubleHash(c.rate));
    Xor32Zero(c.time);
    Xor32Self(c.time);
    Xor32(c.time, doubleHash(c.rate))
  }

  /** Calls that `Equals` reports equal have equal hash codes, whatever the double hash. */
  lemma EqualCallsHaveEqualHashes(a: PhoneCall, b: PhoneCall, doubleHash: real -> int32)
    requires Equals(a, Boxed(b)) == Success(true)
    ensures HashCode(a, doubleHash) == HashCode(b, doubleHash)
  {
  }

  /** `a + b`: rejects differing rates, otherwise builds a call of the (wrapped 32-bit) summed time. */
  function Add(a: PhoneCall, b: PhoneCall): (r: Result<PhoneCall, Error>)
    ensures r == Failure(InvalidOperation(RatesDifferMessage)) <==> a.rate != b.rate
    ensures a.rate == b.rate ==> r == Create(Wrap32(a.time as int + b.time as int), a.rate)
  {
    if a.rate != b.rate then Failure(InvalidOperation(RatesDifferMessage))
    else Create(Wrap32(a.time as int + b.time as int), a.rate)
  }

  /**
    Adding two constructed calls of the same rate succeeds exactly when the
    summed time fits in an `int`; the sum has that time and the common rate.
    A sum that overflows wraps to a negative time, which the constructor rejects.
  */
  lemma AddConstructed(a: PhoneCall, b: PhoneCall)
    requires Valid(a) && Valid(b) && a.rate == b.rate
    ensures Add(a, b).Success? <==> a.time as int + b.time as int <= MaxInt32
    ensures Add(a, b).Success? ==>
      Add(a, b).value.time as int == a.time as int + b.time as int && Add(a, b).value.rate == a.rate
    ensures Add(a, b).Failure? ==> Add(a, b) == Failure(Argument(TimeMessage, None))
  {
  }

  /** `+` is commutative, on failures too. */
  lemma AddCommutative(a: PhoneCall, b: PhoneCall)
    ensures Add(a, b) == Add(b, a)
  {
  }

  /** `+` is associative wherever both groupings are defined. */
  lemma AddAssociative(a: PhoneCall, b: PhoneCall, c: PhoneCall)
    requires Valid(a) && Valid(b) && Valid(c)
    requires Add(a, b).Success? && Add(b, c).Success?
    ensures Add(Add(a, b).value, c) == Add(a, Add(b, c).value)
  {
    AddConstructed(a, b);
    AddConstructed(b, c);
  }

  /** `call * multiplier`: rejects a non-positive multiplier, otherwise scales the rate and keeps the time. */
  function Multiply(c: PhoneCall, multiplier: real): (r: Result<PhoneCall, Error>)
    ensures multiplier <= 0.0 ==> r == Failure(Argument(MultiplierMessage, None))
    ensures multiplier > 0.0 ==> r == Create(c.time, c.rate * multiplier)
  {
    if multiplier <= 0.0 then Failure(Argument(MultiplierMessage, None))
    else Create(c.time, c.rate * multiplier)
  }

  /** Scaling a constructed call by a positive multiplier always succeeds. */
  lemma MultiplyConstructed(c: PhoneCall, multiplier: real)
    requires Valid(c) && multiplier > 0.0
    ensures Multiply(c, multiplier) == Success(PhoneCall(c.time, c.rate * multiplier))
  {
  }

  /** Scaling twice is scaling once by the product. */
  lemma MultiplyCompose(c: PhoneCall, m: real, n: real)
    requires Valid(c) && m > 0.0 && n > 0.0
    ensures Multiply(Multiply(c, m).value, n) == Multiply(c, m * n)
  {
    PositiveProduct(c.rate, m);
    PositiveProduct(m, n);
    var scaled := PhoneCall(c.time, c.rate * m);
    MultiplyConstructed(c, m);
    MultiplyConstructed(scaled, n);
    var mn := m * n;
    MultiplyConstructed(c, mn);
    var r1, r2 := scaled.rate * n, c.rate * mn;
    assert r1 == r2;
  }

  lemma PositiveProduct(x: real, y: real)
    requires x > 0.0 && y > 0.0
    ensures x * y > 0.0
  {
  }

  /** Scaling distributes over adding: both sides have the summed time and the scaled rate. */
  lemma MultiplyDistributesOverAdd(a: PhoneCall, b: PhoneCall, m: real)
    requires Valid(a) && Valid(b) && a.rate == b.rate && m > 0.0
    requires Add(a, b).Success?
    ensures Multiply(Add(a, b).value, m) == Add(Multiply(a, m).value, Multiply(b, m).value)
  {
    var sum := Add(a, b).value;
    var ra, rb := a.rate * m, b.rate * m;
    assert ra == rb;
    PositiveProduct(a.rate, m);
    AddConstructed(a, b);
    MultiplyConstructed(a, m);
    MultiplyConstructed(b, m);
    MultiplyConstructed(sum, m);
    assert sum.rate * m == ra;
    AddConstructed(PhoneCall(a.time, ra), PhoneCall(b.time, rb));
  }

  /** The cases the unit tests check. */
  lemma TestedCases()
    ensures Create(42, 2.5) == Success(PhoneCall(42, 2.5))
    ensures Create(-42, 2.5).Failure? && Create(42, -2.5).Failure?
    ensures Add(PhoneCall(120, 2.5), PhoneCall(180, 2.5)) == Success(PhoneCall(300, 2.5))
    ensures Add(PhoneCall(120, 2.5), PhoneCall(180, 3.0)) == Failure(InvalidOperation(RatesDifferMessage))
    ensures Multiply(PhoneCall(120, 2.5), 2.0) == Success(PhoneCall(120, 5.0))
    ensures Multiply(PhoneCall(60, 1.8), 0.5) == Success(PhoneCall(60, 0.9))
    ensures Multiply(PhoneCall(120, 2.5), -1.0).Failure? && Multiply(PhoneCall(120, 2.5), 0.0).Failure?
    ensures Equals(PhoneCall(120, 3.5), Boxed(PhoneCall(120, 3.5))) == Success(true)
    ensures Equals(PhoneCall(120, 3.5), Boxed(PhoneCall(100, 3.5))) == Success(false)
    ensures Equals(PhoneCall(120, 3.5), Boxed(PhoneCall(120, 2.5))) == Success(false)
  {
  }
}
