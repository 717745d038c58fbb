/** haiker/error.py: the library's umbrella exception `HaikerError` and the
    decorator `HaikerError.replace`, which makes every exception escaping a
    call a HaikerError. A call is modelled by its outcome: the value it
    returned or the exception it raised. */
module HaikerErrors {
  import opened Wrappers
  import opened Text
  import opened Exceptions
  import opened Types

  /** What one call of a function does: return a value or raise. */
  datatype Outcome<+T> = Returned(value: T) | Raised(error: Exception)

  /** `e.causal_error`: the exception a HaikerError was built from. */
  function CausalError(e: Exception): (cause: Exception)
    requires e.HaikerError?
    ensures HaikerError(cause) == e
  {
    e.error
  }

  /** `str(e)`: a built-in exception's message; a HaikerError's text is the
      text of its cause. */
  function Str(e: Exception): string {
    match e
    case Builtin(_, message) => message
    case HaikerError(cause) => Str(cause)
  }

  /** The built-in exception at the bottom of a chain of HaikerErrors. */
  function Root(e: Exception): (root: Exception)
    ensures root.Builtin?
  {
    match e
    case Builtin(_, _) => e
    case HaikerError(cause) => Root(cause)
  }

  /** However deeply a built-in exception is wrapped, `str()` of the wrapper
      is the message of that exception. */
  lemma {:induction false} StrRoot(e: Exception)
    ensures Str(e) == Root(e).message
  {
    if e.HaikerError? {
      StrRoot(e.error);
    }
  }

  /** The outcome of a call made through `HaikerError.replace(func)`: a
      returned value passes unchanged, a HaikerError is re-raised as it is,
      and any other exception is raised again wrapped in a HaikerError whose
      cause it is. */
  function Replace<T>(o: Outcome<T>): (r: Outcome<T>)
    ensures r.Returned? <==> o.Returned?
    ensures o.Returned? ==> r.value == o.value
    ensures r.Raised? ==> r.error.HaikerError?
    ensures o.Raised? && o.error.HaikerError? ==> r == o
    ensures o.Raised? && !o.error.HaikerError? ==> CausalError(r.error) == o.error
    ensures r.Raised? ==> Str(r.error) == Str(o.error)
  {
    match o
    case Returned(_) => o
    case Raised(e) => if e.HaikerError? then o else Raised(HaikerError(e))
  }

  /** Wrapping twice is wrapping once: the cause kept is the innermost one. */
  lemma {:induction false} ReplaceIdempotent<T>(o: Outcome<T>)
    ensures Replace(Replace(o)) == Replace(o)
  {
  }

  /** `HaikerError.replace(func)` as a function of its argument. */
  function Wrap<A(!new), T>(f: A -> Outcome<T>): (g: A -> Outcome<T>)
    ensures forall a :: g(a) == Replace(f(a))
  {
    a => Replace(f(a))
  }

  /** A function decorated twice behaves as one decorated once. */
  lemma {:induction false} WrapIdempotent<A(!new), T>(f: A -> Outcome<T>, a: A)
    ensures Wrap(Wrap(f))(a) == Wrap(f)(a)
  {
    ReplaceIdempotent(f(a));
  }

  // ---------------------------------------------------------------------
  // The decorated functions of tests/test_error.py

  /** Whether `x` is a Python number among the JSON values: an int, or a
      bool, which Python adds as 0 or 1. */
  predicate IsNumber(x: Json) {
    x.JInt? || x.JBool?
  }

  /** The number a JSON int or bool stands for. */
  function NumberOf(x: Json): int
    requires IsNumber(x)
  {
    if x.JInt? then x.i else if x.b then 1 else 0
  }

  /** Python's `x + y` on JSON values: str and list concatenation, numeric
      addition of ints and bools, TypeError for anything else (None, dicts
      and mixed kinds included). */
  function Plus(x: Json, y: Json): (r: Result<Json, Exception>)
    ensures r.Success? <==> (x.JStr? && y.JStr?) || (x.JList? && y.JList?) || (IsNumber(x) && IsNumber(y))
    ensures r.Failure? ==> r.error.Builtin? && r.error.kind == TypeError
    ensures r.Success? && x.JStr? ==>
      (r.value.JStr? && |r.value.s| == |x.s| + |y.s| && r.value.s[..|x.s|] == x.s && r.value.s[|x.s|..] == y.s)
    ensures r.Success? && x.JList? ==>
      (r.value.JList? && |r.value.items| == |x.items| + |y.items|
       && r.value.items[..|x.items|] == x.items && r.value.items[|x.items|..] == y.items)
    ensures r.Success? && IsNumber(x) ==> r.value.JInt? && r.value.i == NumberOf(x) + NumberOf(y)
  {
    if x.JStr? && y.JStr? then Success(JStr(x.s + y.s))
    else if x.JList? && y.JList? then Success(JList(x.items + y.items))
    else if IsNumber(x) && IsNumber(y) then Success(JInt(NumberOf(x) + NumberOf(y)))
    else Failure(Builtin(TypeError, "unsupported operand type(s) for +"))
  }

  function OutcomeOf<T>(r: Result<T, Exception>): Outcome<T> {
    match r
    case Success(v) => Returned(v)
    case Failure(e) => Raised(e)
  }

  /** `int(x) + int(y) + int(z)`, undecorated. */
  function SumOfInts(x: Json, y: Json, z: Json): Result<int, Exception> {
    AddResults(IntOf(x), IntOf(y), IntOf(z))
  }

  /** Three conversion results added, the first failure passed on. */
  function AddResults(ra: Result<int, Exception>, rb: Result<int, Exception>, rc: Result<int, Exception>): Result<int, Exception> {
    var a :- ra;
    var b :- rb;
    var c :- rc;
    Success(a + b + c)
  }

  /** `f = replace(lambda x, y, z='0': int(x) + int(y) + int(z))`. */
  function DecoratedSum(x: Json, y: Json, z: Json): (r: Outcome<int>)
    ensures r.Returned? <==> IntOf(x).Success? && IntOf(y).Success? && IntOf(z).Success?
    ensures r.Raised? ==> r.error.HaikerError? && r.error.error.Builtin?
  {
    Replace(OutcomeOf(SumOfInts(x, y, z)))
  }

  /** `g = replace(lambda x, y, z: f(x + y, z))`. */
  function DecoratedConcatSum(x: Json, y: Json, z: Json): (r: Outcome<int>)
    ensures r.Raised? ==> r.error.HaikerError? && r.error.error.Builtin?
  {
    Replace(match Plus(x, y)
            case Success(xy) => DecoratedSum(xy, z, JStr("0"))
            case Failure(e) => Raised(e))
  }

  lemma {:induction false} ParsesAs(s: string, i: int)
    requires s == IntToDecimal(i)
    ensures IntOf(JStr(s)) == Success(i)
  {
    IntDecimalRoundTrip(i);
  }

  lemma {:induction false} DecimalTexts()
    ensures IntToDecimal(12) == "12" && IntToDecimal(34) == "34" && IntToDecimal(56) == "56"
    ensures IntToDecimal(1234) == "1234" && IntToDecimal(0) == "0" && IntToDecimal(1) == "1"
  {
    assert NatDigits(12) == "12";
    assert NatDigits(34) == "34";
    assert NatDigits(56) == "56";
    assert NatDigits(1234) == "1234";
    assert NatDigits(1) == "1";
  }

  /** The texts the tests pass and the ints `int()` reads from them. */
  lemma {:induction false} TextInts()
    ensures IntOf(JStr("12")) == Success(12) && IntOf(JStr("34")) == Success(34)
    ensures IntOf(JStr("56")) == Success(56) && IntOf(JStr("1234")) == Success(1234)
    ensures IntOf(JStr("0")) == Success(0) && IntOf(JStr("1")) == Success(1)
  {
    DecimalTexts();
    ParsesAs("12", 12);
    ParsesAs("34", 34);
    ParsesAs("56", 56);
    ParsesAs("1234", 1234);
    ParsesAs("0", 0);
    ParsesAs("1", 1);
  }

  lemma {:induction false} ConcatTexts()
    ensures "12" + "34" == "1234" && "1" + "2" == "12"
  {
  }

  /** The returned values of the tests: `f('12', '34', '56') == 102` and
      `g('12', '34', '56') == 1290`. */
  lemma {:induction false} DecoratedReturns()
    ensures DecoratedSum(JStr("12"), JStr("34"), JStr("56")) == Returned(102)
    ensures DecoratedConcatSum(JStr("12"), JStr("34"), JStr("56")) == Returned(1290)
  {
    SumExample();
    ConcatSumExample();
  }

  lemma {:induction false} SumExample()
    ensures DecoratedSum(JStr("12"), JStr("34"), JStr("56")) == Returned(102)
  {
    TextInts();
    SumReturns(JStr("12"), JStr("34"), JStr("56"), 12, 34, 56);
  }

  lemma {:induction false} ConcatSumExample()
    ensures DecoratedConcatSum(JStr("12"), JStr("34"), JStr("56")) == Returned(1290)
  {
    InnerSumExample("1234");
    ConcatTexts();
    assert Plus(JStr("12"), JStr("34")) == Success(JStr("1234"));
    ConcatSumIsSum(JStr("12"), JStr("34"), JStr("56"), JStr("1234"));
  }

  lemma {:induction false} InnerSumExample(digits: string)
    requires digits == "1234"
    ensures DecoratedSum(JStr(digits), JStr("56"), JStr("0")) == Returned(1290)
  {
    DecimalTexts();
    ParsesAs(digits, 1234);
    ParsesAs("56", 56);
    ParsesAs("0", 0);
    SumReturns(JStr(digits), JStr("56"), JStr("0"), 1234, 56, 0);
  }

  /** `g(x, y, z)` calls `f(x + y, z)` when `x + y` succeeds. */
  lemma {:induction false} ConcatSumIsSum(x: Json, y: Json, z: Json, xy: Json)
    requires Plus(x, y) == Success(xy)
    ensures DecoratedConcatSum(x, y, z) == Replace(DecoratedSum(xy, z, JStr("0")))
  {
  }

  /** `f(x, y, z)` returns the sum of the ints the three texts denote. */
  lemma {:induction false} SumReturns(x: Json, y: Json, z: Json, a: int, b: int, c: int)
    requires IntOf(x) == Success(a) && IntOf(y) == Success(b) && IntOf(z) == Success(c)
    ensures DecoratedSum(x, y, z) == Returned(a + b + c)
  {
    SumOfIntsValue(x, y, z, a, b, c);
  }

  lemma {:induction false} SumOfIntsValue(x: Json, y: Json, z: Json, a: int, b: int, c: int)
    requires IntOf(x) == Success(a) && IntOf(y) == Success(b) && IntOf(z) == Success(c)
    ensures SumOfInts(x, y, z) == Success(a + b + c)
  {
    assert SumOfInts(x, y, z) == AddResults(Success(a), Success(b), Success(c));
    AddSuccesses(a, b, c);
  }

  lemma AddSuccesses(a: int, b: int, c: int)
    ensures AddResults(Success(a), Success(b), Success(c)) == Success(a + b + c)
  {
    var ra: Result<int, Exception> := Success(a);
    assert !ra.IsFailure() && ra.Extract() == a;
  }

  lemma {:induction false} NotAnInt(s: string)
    requires s == "a"
    ensures IntOf(JStr(s)).Failure? && IntOf(JStr(s)).error.kind == ValueError
  {
    assert |s| == 1 && s[0] == 'a';
    ParseIntRejects(s);
  }

  /** `f(x, y, z)` raises a HaikerError caused by a ValueError when one of
      the three texts is not an int. */
  lemma {:induction false} SumRaisesValueError(x: Json, y: Json, z: Json)
    requires x.JStr? && y.JStr? && z.JStr?
    requires IntOf(x).Failure? || IntOf(y).Failure? || IntOf(z).Failure?
    ensures var r := DecoratedSum(x, y, z);
      r.Raised? && r.error.HaikerError? && CausalError(r.error).kind == ValueError
  {
  }

  /** The raising calls of the tests: a ValueError inside comes out as a
      HaikerError caused by it, also through two decorators. */
  lemma {:induction false} DecoratedRaisesValueError()
    ensures var r := DecoratedSum(JStr("1"), JStr("a"), JStr("0"));
      r.Raised? && r.error.HaikerError? && CausalError(r.error).kind == ValueError
    ensures var r := DecoratedSum(JStr("a"), JStr("b"), JStr("3"));
      r.Raised? && r.error.HaikerError? && CausalError(r.error).kind == ValueError
  {
    NotAnInt("a");
    TextInts();
    SumRaisesValueError(JStr("1"), JStr("a"), JStr("0"));
    SumRaisesValueError(JStr("a"), JStr("b"), JStr("3"));
  }

  lemma {:induction false} DecoratedTwiceRaisesValueError()
    ensures var r := DecoratedConcatSum(JStr("1"), JStr("2"), JStr("a"));
      r.Raised? && r.error.HaikerError? && CausalError(r.error).kind == ValueError
  {
    assert Plus(JStr("1"), JStr("2")) == Success(JStr("12")) by {
      assert "1" + "2" == "12";
    }
    NotAnInt("a");
    TextInts();
    SumRaisesValueError(JStr("12"), JStr("a"), JStr("0"));
  }

  /** `g(None, None, None)`: the TypeError of `None + None`, wrapped. */
  lemma {:induction false} DecoratedRaisesTypeError()
    ensures var r := DecoratedConcatSum(JNull, JNull, JNull);
      r.Raised? && r.error.HaikerError? && CausalError(r.error).kind == TypeError
  {
  }
}
