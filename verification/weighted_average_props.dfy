/**
 Properties of the weighted average: which days count, what a skipped day
 changes (nothing), where the seven-day budget ends, when the computation raises,
 and that the result is a true weighted mean of the days that count.
 */
module WeightedAverageProps {
  import opened Wrappers
  import opened PyValue
  import opened WeightedAverage

  function Min(a: nat, b: nat): nat {
    if a <= b then a else b
  }

  /**
   A day (a dictionary) is skipped exactly when its `sample_size` is missing or
   falsy (null, 0, empty) or its `average` does not convert; otherwise it is taken
   with its converted average and `int(sample_size)`, unless that conversion raises.
   */
  lemma DayVerdict(d: map<Value, Value>, conv: Conversions)
    ensures Classify(Dict(d), conv).Skip? <==>
      !(Has(d, "sample_size") && Truthy(d[Str("sample_size")])) || SafeFloat(Get(d, "average"), conv).None?
    ensures Classify(Dict(d), conv).Take? ==>
      && Has(d, "sample_size")
      && Classify(Dict(d), conv).avg == SafeFloat(Get(d, "average"), conv).value
      && IntOf(d[Str("sample_size")], conv) == Success(Classify(Dict(d), conv).weight)
    ensures Get(d, "average").Null? ==> Classify(Dict(d), conv).Skip?
  {
  }

  /** A day that the loop skips leaves the window unchanged, wherever it sits. */
  lemma {:induction false} WindowIgnoresSkipped(pre: seq<Value>, day: Value, post: seq<Value>, budget: nat, conv: Conversions)
    requires Classify(day, conv).Skip?
    ensures Window(pre + [day] + post, budget, conv) == Window(pre + post, budget, conv)
    decreases |pre|
  {
    if budget == 0 {
    } else if pre == [] {
      assert pre + [day] + post == [day] + post;
      assert ([day] + post)[1..] == post;
      assert pre + post == post;
    } else {
      var rest := pre[1..];
      assert (pre + [day] + post)[0] == pre[0] && (pre + post)[0] == pre[0];
      assert (pre + [day] + post)[1..] == rest + [day] + post;
      assert (pre + post)[1..] == rest + post;
      WindowIgnoresSkipped(rest, day, post, budget, conv);
      WindowIgnoresSkipped(rest, day, post, budget - 1, conv);
    }
  }

  /**
   A day whose `sample_size` is falsy or whose `average` does not convert is
   skipped: it changes neither the sums nor the seven-day counter, so removing it
   does not change the result.
   */
  lemma SkippedDayChangesNothing(pre: seq<Value>, day: Value, post: seq<Value>, conv: Conversions)
    requires Classify(day, conv).Skip?
    ensures Average(pre + [day] + post, conv) == Average(pre + post, conv)
  {
    WindowIgnoresSkipped(pre, day, post, Budget, conv);
    if pre + post == [] {
      assert pre + [day] + post == [day];
      assert Window([day], Budget, conv) == Window([day][1..], Budget, conv);
    }
  }

  /** Once the window is full, whatever follows the list is never looked at. */
  lemma {:induction false} FullWindowIgnoresRest(days: seq<Value>, rest: seq<Value>, budget: nat, conv: Conversions)
    requires Window(days, budget, conv).Success? && |Window(days, budget, conv).value| == budget
    ensures Window(days + rest, budget, conv) == Window(days, budget, conv)
    decreases |days|
  {
    if budget == 0 {
    } else {
      assert days != [];
      assert (days + rest)[0] == days[0];
      assert (days + rest)[1..] == days[1..] + rest;
      match Classify(days[0], conv)
      case Skip =>
        FullWindowIgnoresRest(days[1..], rest, budget, conv);
      case Take(a, n) =>
        FullWindowIgnoresRest(days[1..], rest, budget - 1, conv);
      case Raise(e) =>
    }
  }

  /**
   At most seven accepted days contribute: after the seventh accepted day nothing
   else in the list is read, not even a day that would raise.
   */
  lemma DaysAfterSeventhAcceptedIgnored(days: seq<Value>, rest: seq<Value>, conv: Conversions)
    requires Window(days, Budget, conv).Success? && |Window(days, Budget, conv).value| == Budget
    ensures Average(days + rest, conv) == Average(days, conv)
  {
    FullWindowIgnoresRest(days, rest, Budget, conv);
  }

  /**
   When no day raises, the days that contribute are exactly the first `budget`
   accepted days in list order (all of them when there are fewer).
   */
  lemma {:induction false} WindowIsFirstAccepted(days: seq<Value>, budget: nat, conv: Conversions)
    requires forall i :: 0 <= i < |days| ==> !Classify(days[i], conv).Raise?
    ensures Window(days, budget, conv) == Success(Taken(days, conv)[..Min(budget, |Taken(days, conv)|)])
    decreases |days|
  {
    if days == [] || budget == 0 {
    } else {
      assert !Classify(days[0], conv).Raise?;
      assert forall i :: 0 <= i < |days[1..]| ==> days[1..][i] == days[i + 1];
      match Classify(days[0], conv)
      case Skip =>
        WindowIsFirstAccepted(days[1..], budget, conv);
      case Take(a, n) =>
        WindowIsFirstAccepted(days[1..], budget - 1, conv);
        var t := Taken(days[1..], conv);
        assert Taken(days, conv) == [(a, n)] + t;
        assert ([(a, n)] + t)[..Min(budget, |t| + 1)] == [(a, n)] + t[..Min(budget - 1, |t|)];
    }
  }

  /** How many accepted days come before position `i`. */
  function AcceptedBefore(days: seq<Value>, i: nat, conv: Conversions): nat
    requires i <= |days|
  {
    |Taken(days[..i], conv)|
  }

  lemma TakenAfterHead(days: seq<Value>, i: nat, conv: Conversions)
    requires 0 < i <= |days|
    ensures Taken(days[..i], conv) ==
      match Classify(days[0], conv)
      case Take(a, n) => [(a, n)] + Taken(days[1..][..i - 1], conv)
      case _ => Taken(days[1..][..i - 1], conv)
  {
    assert days[..i][1..] == days[1..][..i - 1];
  }

  /**
   The computation raises exactly when some day that raises is reached before the
   seven accepted days are complete.
   */
  lemma {:induction false} RaisesIffReachedWithinBudget(days: seq<Value>, budget: nat, conv: Conversions)
    ensures Window(days, budget, conv).Failure? <==>
      exists i :: 0 <= i < |days| && Classify(days[i], conv).Raise? && AcceptedBefore(days, i, conv) < budget
    decreases |days|
  {
    if days == [] || budget == 0 {
    } else {
      var tail := days[1..];
      var k := if Classify(days[0], conv).Take? then budget - 1 else budget;
      if !Classify(days[0], conv).Raise? {
        RaisesIffReachedWithinBudget(tail, k, conv);
      }
      if Window(days, budget, conv).Failure? {
        if Classify(days[0], conv).Raise? {
          assert days[..0] == [];
          assert Classify(days[0], conv).Raise? && AcceptedBefore(days, 0, conv) < budget;
        } else {
          var j :| 0 <= j < |tail| && Classify(tail[j], conv).Raise? && AcceptedBefore(tail, j, conv) < k;
          TakenAfterHead(days, j + 1, conv);
          assert tail[..j] == days[1..][..j];
          assert Classify(days[j + 1], conv).Raise? && AcceptedBefore(days, j + 1, conv) < budget;
        }
      } else {
        if exists i :: 0 <= i < |days| && Classify(days[i], conv).Raise? && AcceptedBefore(days, i, conv) < budget {
          var i :| 0 <= i < |days| && Classify(days[i], conv).Raise? && AcceptedBefore(days, i, conv) < budget;
          assert !Classify(days[0], conv).Raise?;
          assert i > 0;
          TakenAfterHead(days, i, conv);
          assert false;
        }
      }
    }
  }

  /** With no day accepted, the result is `None`, not zero. */
  lemma {:induction false} NothingAcceptedGivesNone(days: seq<Value>, conv: Conversions)
    requires forall i :: 0 <= i < |days| ==> Classify(days[i], conv).Skip?
    ensures Average(days, conv) == Success(None)
  {
    WindowIsFirstAccepted(days, Budget, conv);
    NoTakes(days, conv);
  }

  lemma {:induction false} NoTakes(days: seq<Value>, conv: Conversions)
    requires forall i :: 0 <= i < |days| ==> Classify(days[i], conv).Skip?
    ensures Taken(days, conv) == []
    decreases |days|
  {
    if days != [] {
      assert Classify(days[0], conv).Skip?;
      assert forall i :: 0 <= i < |days[1..]| ==> days[1..][i] == days[i + 1];
      NoTakes(days[1..], conv);
    }
  }

  lemma MulMono(a: real, b: real, n: real)
    requires a <= b && 0.0 <= n
    ensures a * n <= b * n
  {
  }

  lemma SplitLast(w: seq<Sample>)
    requires w != []
    ensures WeightedSum(w) == WeightedSum(w[..|w| - 1]) + w[|w| - 1].0 * w[|w| - 1].1 as real
    ensures SampleTotal(w) as real == SampleTotal(w[..|w| - 1]) as real + w[|w| - 1].1 as real
  {
  }

  lemma Distribute(c: real, x: real, n: real)
    ensures c * (x + n) == c * x + c * n
  {
  }

  /** With positive sample sizes not below `lo`-averages, the weighted sum is at least lo times the total. */
  lemma {:induction false} SumAtLeast(w: seq<Sample>, lo: real)
    requires forall j :: 0 <= j < |w| ==> 0 < w[j].1 && lo <= w[j].0
    ensures lo * SampleTotal(w) as real <= WeightedSum(w)
  {
    if w != [] {
      var init := w[..|w| - 1];
      var a := w[|w| - 1].0;
      var n := w[|w| - 1].1 as real;
      assert forall j :: 0 <= j < |init| ==> init[j] == w[j];
      SumAtLeast(init, lo);
      SplitLast(w);
      Distribute(lo, SampleTotal(init) as real, n);
      MulMono(lo, a, n);
    }
  }

  /** Symmetrically, the weighted sum is at most hi times the total. */
  lemma {:induction false} SumAtMost(w: seq<Sample>, hi: real)
    requires forall j :: 0 <= j < |w| ==> 0 < w[j].1 && w[j].0 <= hi
    ensures WeightedSum(w) <= hi * SampleTotal(w) as real
  {
    if w != [] {
      var init := w[..|w| - 1];
      var a := w[|w| - 1].0;
      var n := w[|w| - 1].1 as real;
      assert forall j :: 0 <= j < |init| ==> init[j] == w[j];
      SumAtMost(init, hi);
      SplitLast(w);
      Distribute(hi, SampleTotal(init) as real, n);
      MulMono(a, hi, n);
    }
  }

  /** A non-empty window of positive sample sizes has a positive total. */
  lemma {:induction false} PositiveTotal(w: seq<Sample>)
    requires w != [] && forall j :: 0 <= j < |w| ==> 0 < w[j].1
    ensures 0 < SampleTotal(w)
  {
    var init := w[..|w| - 1];
    assert forall j :: 0 <= j < |init| ==> init[j] == w[j];
    if init != [] {
      PositiveTotal(init);
    }
  }

  lemma QuotientBetween(s: real, t: real, lo: real, hi: real)
    requires 0.0 < t && lo * t <= s <= hi * t
    ensures lo <= s / t <= hi
  {
    var x := s / t;
    assert x * t == s;
    if x < lo {
      MulMono(x, lo, t);
    }
    if hi < x {
      MulMono(hi, x, t);
    }
  }

  /**
   When every contributing day has a positive sample size, the result lies between
   the smallest and the largest contributing daily average.
   */
  lemma AverageWithinDailyRange(days: seq<Value>, conv: Conversions, lo: real, hi: real)
    requires Window(days, Budget, conv).Success?
    requires var w := Window(days, Budget, conv).value;
      w != [] && forall j :: 0 <= j < |w| ==> 0 < w[j].1 && lo <= w[j].0 <= hi
    ensures Average(days, conv).Success? && Average(days, conv).value.Some?
    ensures lo <= Average(days, conv).value.value <= hi
  {
    var w := Window(days, Budget, conv).value;
    SumAtLeast(w, lo);
    SumAtMost(w, hi);
    PositiveTotal(w);
    QuotientBetween(WeightedSum(w), SampleTotal(w) as real, lo, hi);
  }

  /** Two days, averages 10 and 20 over 2 and 8 samples: (10*2 + 20*8) / 10 = 18. */
  lemma TwoDayExample(conv: Conversions)
    ensures Average([Dict(map[Str("average") := Num(10.0), Str("sample_size") := Num(2.0)]),
                     Dict(map[Str("average") := Num(20.0), Str("sample_size") := Num(8.0)])], conv)
         == Success(Some(18.0))
  {
    var d1 := Dict(map[Str("average") := Num(10.0), Str("sample_size") := Num(2.0)]);
    var d2 := Dict(map[Str("average") := Num(20.0), Str("sample_size") := Num(8.0)]);
    assert Classify(d1, conv) == Take(10.0, 2);
    assert Classify(d2, conv) == Take(20.0, 8);
    assert [d1, d2][1..] == [d2];
    assert [d2][1..] == [];
    assert Window([d2][1..], 5, conv) == Success([]);
    assert [(20.0, 8)] + [] == [(20.0, 8)];
    assert [(10.0, 2)] + [(20.0, 8)] == [(10.0, 2), (20.0, 8)];
    assert Window([d2], 6, conv) == Success([(20.0, 8)]);
    assert Window([d1, d2], Budget, conv) == Success([(10.0, 2), (20.0, 8)]);
    assert [(10.0, 2), (20.0, 8)][..1] == [(10.0, 2)];
    assert [(10.0, 2)][..0] == [];
    assert WeightedSum([(10.0, 2)]) == 20.0 && SampleTotal([(10.0, 2)]) == 2;
    assert WeightedSum([(10.0, 2), (20.0, 8)]) == 180.0;
    assert SampleTotal([(10.0, 2), (20.0, 8)]) == 10;
  }
}
