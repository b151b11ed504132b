/**
 The sample-weighted average of the most recent days of one metric
 (`compute_weighted_average` and `_safe_float` in backend/app.py).

 The days are walked in the order the upstream gives them. A day is accepted when
 its `sample_size` is truthy and its `average` converts to a number; at most
 seven accepted days are used, and the result is
 sum(average * sample_size) / sum(sample_size), or `None` when nothing counts.
 */
module WeightedAverage {
  import opened Wrappers
  import opened PyValue

  /**
   Python's string conversions `float(s)` and `int(s)`, left abstract:
   `None` stands for the `ValueError` Python raises on a malformed string.
   */
  datatype Conversions = Conversions(parseFloat: string -> Option<real>, parseInt: string -> Option<int>)

  /** How many accepted days the average looks at. */
  const Budget: nat := 7

  /**
   `_safe_float`: a number for anything `float()` accepts, `None` for what it rejects
   with `ValueError` or `TypeError`.
   */
  function SafeFloat(v: Value, conv: Conversions): (r: Option<real>)
    ensures v.Null? || v.List? || v.Dict? ==> r.None?
    ensures v.Num? ==> r == Some(v.n)
    ensures v.Bool? ==> r.Some? && (r.value == 1.0 <==> v.b) && (r.value == 0.0 <==> !v.b)
  {
    match v
    case Null => None
    case Bool(b) => Some(if b then 1.0 else 0.0)
    case Num(n) => Some(n)
    case Str(s) => conv.parseFloat(s)
    case List(_) => None
    case Dict(_) => None
  }

  /** Python's `int(x)` on a float: truncation toward zero. */
  function Trunc(x: real): (r: int)
    ensures 0.0 <= x ==> 0 <= r && r as real <= x < r as real + 1.0
    ensures x < 0.0 ==> r <= 0 && r as real - 1.0 < x <= r as real
  {
    if 0.0 <= x then x.Floor else -((-x).Floor)
  }

  /** Python's `int(x)`, with the exception it raises on a value it cannot convert. */
  function IntOf(v: Value, conv: Conversions): Result<int, Crash> {
    match v
    case Null => Failure(TypeError)
    case Bool(b) => Success(if b then 1 else 0)
    case Num(n) => Success(Trunc(n))
    case Str(s) => if conv.parseInt(s).Some? then Success(conv.parseInt(s).value) else Failure(ValueError)
    case List(_) => Failure(TypeError)
    case Dict(_) => Failure(TypeError)
  }

  /** What the loop body does with one day. */
  datatype Verdict = Skip | Take(avg: real, weight: int) | Raise(crash: Crash)

  /** `sample_size` as the loop reads it: `day.get("sample_size", 0) or 0`. */
  function SampleSize(day: map<Value, Value>): Value {
    Or(GetOr(day, "sample_size", Num(0.0)), Num(0.0))
  }

  /** One iteration of the loop in `compute_weighted_average`, before the counter moves. */
  function Classify(day: Value, conv: Conversions): (r: Verdict)
    ensures r == Raise(AttributeError) <==> !day.Dict?
    ensures r.Take? ==> day.Dict? && Truthy(SampleSize(day.fields))
                        && SafeFloat(Get(day.fields, "average"), conv) == Some(r.avg)
                        && IntOf(SampleSize(day.fields), conv) == Success(r.weight)
    ensures r.Raise? && day.Dict? ==> Truthy(SampleSize(day.fields)) && IntOf(SampleSize(day.fields), conv) == Failure(r.crash)
  {
    if !day.Dict? then Raise(AttributeError)
    else
      var size := SampleSize(day.fields);
      var avg := SafeFloat(Get(day.fields, "average"), conv);
      if !Truthy(size) || avg.None? then Skip
      else match IntOf(size, conv)
        case Failure(e) => Raise(e)
        case Success(n) => Take(avg.value, n)
  }

  /** An accepted day: its average and its (integer) sample size. */
  type Sample = (real, int)

  /** Prepends the days already taken to a later window (a raise stays a raise). */
  function Prefixed(taken: seq<Sample>, r: Result<seq<Sample>, Crash>): Result<seq<Sample>, Crash> {
    match r
    case Success(w) => Success(taken + w)
    case Failure(e) => Failure(e)
  }

  /**
   The days that contribute: the first `budget` accepted days in list order, or the
   exception raised by a day reached before the budget ran out.
   */
  function Window(days: seq<Value>, budget: nat, conv: Conversions): (r: Result<seq<Sample>, Crash>)
    ensures r.Success? ==> |r.value| <= budget
    decreases |days|
  {
    if budget == 0 || days == [] then Success([])
    else match Classify(days[0], conv)
      case Skip => Window(days[1..], budget, conv)
      case Raise(e) => Failure(e)
      case Take(a, n) => Prefixed([(a, n)], Window(days[1..], budget - 1, conv))
  }

  /** Every accepted day of the list, regardless of the budget (days that raise are left out). */
  function Taken(days: seq<Value>, conv: Conversions): seq<Sample>
    decreases |days|
  {
    if days == [] then []
    else match Classify(days[0], conv)
      case Take(a, n) => [(a, n)] + Taken(days[1..], conv)
      case _ => Taken(days[1..], conv)
  }

  /** sum(average * sample_size) over some accepted days. */
  function WeightedSum(w: seq<Sample>): real {
    if w == [] then 0.0 else WeightedSum(w[..|w| - 1]) + w[|w| - 1].0 * w[|w| - 1].1 as real
  }

  /** sum(sample_size) over some accepted days. */
  function SampleTotal(w: seq<Sample>): int {
    if w == [] then 0 else SampleTotal(w[..|w| - 1]) + w[|w| - 1].1
  }

  /** The weighted mean of a window, `None` when its samples add up to zero. */
  function Mean(w: seq<Sample>): Option<real> {
    if SampleTotal(w) == 0 then None else Some(WeightedSum(w) / SampleTotal(w) as real)
  }

  /** `compute_weighted_average`, without the final rounding: the value, or the exception it raises. */
  function Average(days: seq<Value>, conv: Conversions): (r: Result<Option<real>, Crash>)
    ensures days == [] ==> r == Success(None)
    ensures r.Success? <==> Window(days, Budget, conv).Success?
    ensures r.Success? && r.value.Some? ==>
      SampleTotal(Window(days, Budget, conv).value) != 0
      && r.value.value * SampleTotal(Window(days, Budget, conv).value) as real == WeightedSum(Window(days, Budget, conv).value)
    ensures r.Success? && days != [] ==> (r.value.Some? <==> SampleTotal(Window(days, Budget, conv).value) != 0)
  {
    if days == [] then Success(None)
    else match Window(days, Budget, conv)
      case Failure(e) => Failure(e)
      case Success(w) => Success(Mean(w))
  }

  lemma PrefixedTwice(taken: seq<Sample>, x: Sample, r: Result<seq<Sample>, Crash>)
    ensures Prefixed(taken, Prefixed([x], r)) == Prefixed(taken + [x], r)
  {
    if r.Success? {
      assert taken + ([x] + r.value) == (taken + [x]) + r.value;
    }
  }

  /** One step of `Window` from position `i` of the list. */
  lemma WindowAt(days: seq<Value>, i: nat, budget: nat, conv: Conversions)
    requires i < |days| && 0 < budget
    ensures Window(days[i..], budget, conv) ==
      match Classify(days[i], conv)
      case Skip => Window(days[i + 1..], budget, conv)
      case Raise(e) => Failure(e)
      case Take(a, n) => Prefixed([(a, n)], Window(days[i + 1..], budget - 1, conv))
  {
    assert days[i..][1..] == days[i + 1..];
  }

  /**
   The loop of `compute_weighted_average` as written: it agrees with `Average`, never
   looks at more than seven accepted days, and answers `None` for an empty list.
   */
  method ComputeWeightedAverage(days: seq<Value>, conv: Conversions) returns (r: Result<Option<real>, Crash>)
    ensures r == Average(days, conv)
    ensures days == [] ==> r == Success(None)
  {
    if days == [] {
      return Success(None);
    }
    var weightedSum := 0.0;
    var totalSamples := 0;
    var considered := 0;
    ghost var taken: seq<Sample> := [];
    var i := 0;
    assert days[i..] == days;
    assert Prefixed([], Window(days, Budget, conv)) == Window(days, Budget, conv) by {
      if Window(days, Budget, conv).Success? {
        assert [] + Window(days, Budget, conv).value == Window(days, Budget, conv).value;
      }
    }
    while i < |days|
      invariant 0 <= i <= |days|
      invariant considered == |taken| <= Budget
      invariant weightedSum == WeightedSum(taken)
      invariant totalSamples == SampleTotal(taken)
      invariant Window(days, Budget, conv) == Prefixed(taken, Window(days[i..], Budget - considered, conv))
    {
      if considered >= Budget {
        break;
      }
      var day := days[i];
      WindowAt(days, i, Budget - considered, conv);
      if !day.Dict? {
        return Failure(AttributeError);
      }
      var sampleSize := SampleSize(day.fields);
      var avg := SafeFloat(Get(day.fields, "average"), conv);
      if !Truthy(sampleSize) || avg.None? {
        i := i + 1;
        continue;
      }
      var n := IntOf(sampleSize, conv);
      if n.Failure? {
        return Failure(n.error);
      }
      weightedSum := weightedSum + avg.value * n.value as real;
      totalSamples := totalSamples + n.value;
      considered := considered + 1;
      assert (taken + [(avg.value, n.value)])[..|taken|] == taken;
      PrefixedTwice(taken, (avg.value, n.value), Window(days[i + 1..], Budget - considered, conv));
      taken := taken + [(avg.value, n.value)];
      i := i + 1;
    }
    assert Window(days[i..], Budget - considered, conv) == Success([]);
    assert taken + [] == taken;
    if totalSamples == 0 {
      return Success(None);
    }
    r := Success(Some(weightedSum / totalSamples as real));
  }
}
