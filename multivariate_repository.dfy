/**
 * The multivariate test repository (MultivariateTestRepository): picking the winning result of a test
 * by conversion rate, counting a view or a conversion against one result, and turning a stored test
 * into the view model the administration pages show.
 *
 * The multivariate test manager's implementation is not part of this model: it is given the smallest
 * behaviour the repository relies on (Get answers the first stored test with the id, Save replaces it
 * and is recorded).
 */
module Multivariate {
  import opened Wrappers
  import Entities

  type Guid = Entities.Guid

  /** A variant of a multivariate test: the content item shown in place of the original. */
  datatype Variant = Variant(id: Guid, variantId: Guid)

  /** MultivariateTestResult: the counters of one content item of a test. */
  datatype TestResult = TestResult(id: Guid, itemId: Guid, views: int, conversions: int)

  datatype MultivariateTest = MultivariateTest(
    id: Guid,
    title: string,
    owner: string,
    state: Entities.TestState,
    startDate: int,
    endDate: int,
    originalItemId: Guid,
    variants: seq<Variant>,
    results: seq<TestResult>)

  /** MultivariateTestViewModel. `originalItem` and `variantItem` are the page-picker ids of the form. */
  datatype TestViewModel = TestViewModel(
    id: Guid,
    title: string,
    startDate: int,
    endDate: int,
    owner: string,
    testState: Entities.TestState,
    originalItem: int,
    originalItemId: Guid,
    variantItem: int,
    variantItemId: Guid,
    testResults: seq<TestResult>)

  /**
   * ConvertToViewModel: copies the test's fields and names its first variant's content as the variant
   * item; a test without variants makes the list indexer throw.
   */
  function ConvertToViewModel(test: MultivariateTest): (r: Result<TestViewModel>)
    ensures r.Ok? <==> |test.variants| > 0
    ensures r.Err? ==> r.error == ArgumentOutOfRange
    ensures r.Ok? ==>
      && r.value.id == test.id && r.value.title == test.title && r.value.owner == test.owner
      && r.value.testState == test.state && r.value.startDate == test.startDate && r.value.endDate == test.endDate
      && r.value.originalItemId == test.originalItemId && r.value.variantItemId == test.variants[0].variantId
      && r.value.testResults == test.results
  {
    if |test.variants| == 0 then Err(ArgumentOutOfRange)
    else Ok(TestViewModel(test.id, test.title, test.startDate, test.endDate, test.owner, test.state,
                          0, test.originalItemId, 0, test.variants[0].variantId, test.results))
  }

  /*
   * The winning result (GetWinningTestResult)
   */

  /** The `(int)` cast of a quotient: division truncated toward zero. */
  function TruncDiv(a: int, b: int): (q: int)
    requires b != 0
    ensures a >= 0 && b > 0 ==> q * b <= a < (q + 1) * b
    ensures a < 0 && b > 0 ==> (q - 1) * b < a <= q * b
  {
    if (a >= 0) == (b > 0) then
      (if a >= 0 then a else -a) / (if b > 0 then b else -b)
    else
      -((if a >= 0 then a else -a) / (if b > 0 then b else -b))
  }

  /** A result takes part in the comparison only when it has been viewed. */
  predicate Counted(r: TestResult)
  {
    r.views != 0
  }

  /** The conversion rate in whole percent, truncated. */
  function Rate(r: TestResult): int
    requires Counted(r)
  {
    TruncDiv(r.conversions * 100, r.views)
  }

  /** The running winner of the loop: the position of the result it holds (-1 for none) and its rate. */
  datatype Leader = Leader(index: int, rate: int)

  /**
   * The winner after a left-to-right pass that replaces it by each viewed result whose rate is strictly
   * greater: the first result of the strictly greatest positive rate, or none when no rate is positive.
   */
  function LeaderOf(results: seq<TestResult>): (l: Leader)
    ensures -1 <= l.index < |results| && l.rate >= 0
    ensures l.index == -1 ==> l.rate == 0
    ensures l.index >= 0 ==> Counted(results[l.index]) && Rate(results[l.index]) == l.rate && l.rate > 0
    ensures forall j | 0 <= j < |results| && Counted(results[j]) :: Rate(results[j]) <= l.rate
    ensures l.index >= 0 ==> forall j | 0 <= j < l.index && Counted(results[j]) :: Rate(results[j]) < l.rate
  {
    if results == [] then Leader(-1, 0)
    else
      var n := |results| - 1;
      var prev := LeaderOf(results[..n]);
      assert forall j | 0 <= j < n :: results[..n][j] == results[j];
      var last := results[n];
      if Counted(last) && Rate(last) > prev.rate then Leader(n, Rate(last)) else prev
  }

  /** The result GetWinningTestResult starts from: the original item, with nothing counted. */
  function DefaultWinner(test: TestViewModel): TestResult
  {
    TestResult(Entities.EmptyGuid, test.originalItemId, 0, 0)
  }

  /**
   * GetWinningTestResult: never null; the first viewed result of the strictly greatest positive rate,
   * and the original item when no result has a positive rate.
   */
  method GetWinningTestResult(test: TestViewModel) returns (winningTest: TestResult)
    ensures var l := LeaderOf(test.testResults);
      winningTest == if l.index == -1 then DefaultWinner(test) else test.testResults[l.index]
  {
    var results := test.testResults;
    winningTest := DefaultWinner(test);
    var currentConversionRate := 0;
    ghost var index := -1;
    for i := 0 to |results|
      invariant LeaderOf(results[..i]) == Leader(index, currentConversionRate)
      invariant winningTest == if index == -1 then DefaultWinner(test) else results[index]
    {
      assert results[..i + 1][..i] == results[..i];
      var result := results[i];
      if result.views != 0 {
        var rate := TruncDiv(result.conversions * 100, result.views);
        if rate > currentConversionRate {
          currentConversionRate := rate;
          winningTest := result;
          index := i;
        }
      }
    }
    assert results[..|results|] == results;
  }

  /** When no viewed result has a positive rate, the original item is the winner. */
  lemma OriginalWinsWithoutConversions(test: TestViewModel)
    requires forall j | 0 <= j < |test.testResults| && Counted(test.testResults[j]) :: Rate(test.testResults[j]) <= 0
    ensures LeaderOf(test.testResults).index == -1
  {
  }

  lemma MulMonotone(d: int, y: int, x: int)
    requires d > 0 && y <= x
    ensures d * y <= d * x
  {
    assert d * x - d * y == d * (x - y);
  }

  lemma MulStrict(d: int, x: int, y: int)
    requires d > 0 && d * x < d * y
    ensures x < y
  {
    if x >= y {
      MulMonotone(d, y, x);
    }
  }

  /** More conversions never lower a rate. */
  lemma DivMonotone(a: int, b: int, d: int)
    requires 0 <= a <= b && d > 0
    ensures a / d <= b / d
  {
    assert d * (a / d) <= a;
    assert b < d * (b / d + 1);
    MulStrict(d, a / d, b / d + 1);
  }

  /** A conversion counted against the current winner keeps it the winner. */
  lemma ConversionKeepsWinner(results: seq<TestResult>, k: nat)
    requires k < |results| && LeaderOf(results).index == k
    requires results[k].views > 0 && results[k].conversions >= 0
    ensures var bumped := results[k := results[k].(conversions := results[k].conversions + 1)];
      LeaderOf(bumped).index == k
  {
    var r := results[k];
    var bumped := results[k := r.(conversions := r.conversions + 1)];
    var m := LeaderOf(results).rate;
    DivMonotone(r.conversions * 100, (r.conversions + 1) * 100, r.views);
    var mk := Rate(bumped[k]);
    assert mk >= m;
    var l := LeaderOf(bumped);
    assert Rate(bumped[k]) <= l.rate;
  }

  /*
   * Counting views and conversions (UpdateView, UpdateConversion)
   */

  function ResultItemIds(results: seq<TestResult>): (r: seq<Guid>)
    ensures |r| == |results| && forall i | 0 <= i < |results| :: r[i] == results[i].itemId
  {
    seq(|results|, i requires 0 <= i < |results| => results[i].itemId)
  }

  /** The position of the first result for the content item, or -1 (the loop's `break` on a match). */
  function ResultIndexOf(results: seq<TestResult>, itemId: Guid): (k: int)
    ensures -1 <= k < |results|
    ensures k >= 0 ==> results[k].itemId == itemId && forall j | 0 <= j < k :: results[j].itemId != itemId
    ensures k == -1 ==> forall j | 0 <= j < |results| :: results[j].itemId != itemId
  {
    Entities.FirstIndex(ResultItemIds(results), itemId)
  }

  /** The first stored test with the id. */
  function TestWithId(tests: seq<MultivariateTest>, id: Guid): (r: Option<MultivariateTest>)
    ensures r.Some? ==> r.value in tests && r.value.id == id
    ensures r.None? ==> forall t | t in tests :: t.id != id
  {
    var ids := seq(|tests|, i requires 0 <= i < |tests| => tests[i].id);
    assert forall j | 0 <= j < |tests| :: ids[j] == tests[j].id;
    var k := Entities.FirstIndex(ids, id);
    if k == -1 then None else Some(tests[k])
  }

  /** The stored tests after Save: every test with the saved test's id replaced by it. */
  function Stored(tests: seq<MultivariateTest>, saved: MultivariateTest): (r: seq<MultivariateTest>)
    ensures |r| == |tests|
    ensures forall i | 0 <= i < |tests| :: r[i] == if tests[i].id == saved.id then saved else tests[i]
  {
    seq(|tests|, i requires 0 <= i < |tests| => if tests[i].id == saved.id then saved else tests[i])
  }

  /** The multivariate test manager: the stored tests and every test it was asked to save. */
  class MultivariateTestManager {
    var tests: seq<MultivariateTest>
    var saved: seq<MultivariateTest>

    constructor (tests: seq<MultivariateTest>)
      ensures this.tests == tests && saved == []
    {
      this.tests := tests;
      saved := [];
    }

    function Get(id: Guid): Option<MultivariateTest>
      reads this
    {
      TestWithId(tests, id)
    }

    method Save(test: MultivariateTest)
      modifies this
      ensures tests == Stored(old(tests), test)
      ensures saved == old(saved) + [test]
    {
      tests := Stored(tests, test);
      saved := saved + [test];
    }
  }

  /** The test with one more conversion on result k. */
  function WithConversion(test: MultivariateTest, k: nat): MultivariateTest
    requires k < |test.results|
  {
    test.(results := test.results[k := test.results[k].(conversions := test.results[k].conversions + 1)])
  }

  /** The test with one more view on result k. */
  function WithView(test: MultivariateTest, k: nat): MultivariateTest
    requires k < |test.results|
  {
    test.(results := test.results[k := test.results[k].(views := test.results[k].views + 1)])
  }

  class MultivariateTestRepository {
    const manager: MultivariateTestManager

    constructor (manager: MultivariateTestManager)
      ensures this.manager == manager
    {
      this.manager := manager;
    }

    /**
     * UpdateConversion: one more conversion on the first result for the variant's content, saved once;
     * nothing is saved when no result matches, and a missing test throws.
     */
    method UpdateConversion(testId: Guid, variantId: Guid) returns (o: Outcome)
      modifies manager
      ensures old(manager.Get(testId)).None? ==> o == Fail(NullReference) && unchanged(manager)
      ensures old(manager.Get(testId)).Some? ==>
        var test := old(manager.Get(testId)).value;
        var k := ResultIndexOf(test.results, variantId);
        && o == Pass
        && (k == -1 ==> unchanged(manager))
        && (k >= 0 ==>
              && manager.saved == old(manager.saved) + [WithConversion(test, k)]
              && manager.tests == Stored(old(manager.tests), WithConversion(test, k)))
    {
      var test := manager.Get(testId);
      if test.None? {
        return Fail(NullReference);
      }
      var results := test.value.results;
      for i := 0 to |results|
        invariant forall j | 0 <= j < i :: results[j].itemId != variantId
        invariant unchanged(manager)
      {
        if results[i].itemId == variantId {
          assert ResultIndexOf(results, variantId) == i;
          manager.Save(WithConversion(test.value, i));
          return Pass;
        }
      }
      return Pass;
    }

    /**
     * UpdateView: one more view on the first result for the variant's content, saved once; nothing is
     * saved when no result matches, and a missing test throws.
     */
    method UpdateView(testId: Guid, variantId: Guid) returns (o: Outcome)
      modifies manager
      ensures old(manager.Get(testId)).None? ==> o == Fail(NullReference) && unchanged(manager)
      ensures old(manager.Get(testId)).Some? ==>
        var test := old(manager.Get(testId)).value;
        var k := ResultIndexOf(test.results, variantId);
        && o == Pass
        && (k == -1 ==> unchanged(manager))
        && (k >= 0 ==>
              && manager.saved == old(manager.saved) + [WithView(test, k)]
              && manager.tests == Stored(old(manager.tests), WithView(test, k)))
    {
      var test := manager.Get(testId);
      if test.None? {
        return Fail(NullReference);
      }
      var results := test.value.results;
      for i := 0 to |results|
        invariant forall j | 0 <= j < i :: results[j].itemId != variantId
        invariant unchanged(manager)
      {
        if results[i].itemId == variantId {
          assert ResultIndexOf(results, variantId) == i;
          manager.Save(WithView(test.value, i));
          return Pass;
        }
      }
      return Pass;
    }
  }

  /**
   * A counted conversion changes exactly one result of the test: the first one for the variant's
   * content gains one conversion, keeps its views, and every other result and field is unchanged.
   */
  lemma ConversionChangesOneResult(test: MultivariateTest, variantId: Guid)
    requires ResultIndexOf(test.results, variantId) >= 0
    ensures var k := ResultIndexOf(test.results, variantId);
      var after := WithConversion(test, k);
      && after.id == test.id && after.variants == test.variants && |after.results| == |test.results|
      && after.results[k].itemId == variantId
      && after.results[k].conversions == test.results[k].conversions + 1
      && after.results[k].views == test.results[k].views
      && forall j | 0 <= j < |test.results| && j != k :: after.results[j] == test.results[j]
  {
  }

  /** The sum of the conversions over a list of results. */
  function TotalConversions(results: seq<TestResult>): int
  {
    if results == [] then 0 else TotalConversions(results[..|results| - 1]) + results[|results| - 1].conversions
  }

  /** The sum of the views over a list of results. */
  function TotalViews(results: seq<TestResult>): int
  {
    if results == [] then 0 else TotalViews(results[..|results| - 1]) + results[|results| - 1].views
  }

  /** UpdateConversion adds exactly one conversion to the test's total and leaves its total views alone. */
  lemma {:induction false} ConversionAddsOne(results: seq<TestResult>, k: nat)
    requires k < |results|
    ensures var after := results[k := results[k].(conversions := results[k].conversions + 1)];
      TotalConversions(after) == TotalConversions(results) + 1 && TotalViews(after) == TotalViews(results)
  {
    var after := results[k := results[k].(conversions := results[k].conversions + 1)];
    var n := |results| - 1;
    if k < n {
      assert after[..n] == results[..n][k := results[k].(conversions := results[k].conversions + 1)];
      ConversionAddsOne(results[..n], k);
    } else {
      assert after[..n] == results[..n];
    }
  }

  /** UpdateView adds exactly one view to the test's total and leaves its total conversions alone. */
  lemma {:induction false} ViewAddsOne(results: seq<TestResult>, k: nat)
    requires k < |results|
    ensures var after := results[k := results[k].(views := results[k].views + 1)];
      TotalViews(after) == TotalViews(results) + 1 && TotalConversions(after) == TotalConversions(results)
  {
    var after := results[k := results[k].(views := results[k].views + 1)];
    var n := |results| - 1;
    if k < n {
      assert after[..n] == results[..n][k := results[k].(views := results[k].views + 1)];
      ViewAddsOne(results[..n], k);
    } else {
      assert after[..n] == results[..n];
    }
  }
}
