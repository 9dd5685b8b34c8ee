/**
 * The test manager the web layer talks to (ITestManager). Its implementation is not part of this model:
 * this module gives it the smallest behaviour the callers rely on. It holds the stored tests, whose
 * Active ones form the active-test cache, and it records every call it receives in `log`, so that the
 * callers' contracts can say exactly which calls they make.
 */
module Manager {
  import opened Wrappers
  import opened Entities

  datatype CountType = View | Conversion

  datatype KeyResultType = Financial | Value

  /** KeyFinancialResult / KeyValueResult as the test handler builds them (amounts are whole numbers here). */
  datatype KeyResult =
    | KeyFinancialResult(
        kpiId: Guid,
        total: int,
        totalMarketCulture: string,
        convertedTotal: int,
        convertedTotalCulture: string,
        variantId: Guid)
    | KeyValueResult(kpiId: Guid, value: int, variantId: Guid)

  /** One call received by the test manager. `itemId` is None for the three-argument IncrementCount. */
  datatype ManagerCall =
    | StopCall(testId: Guid)
    | DeleteCall(testId: Guid)
    | ArchiveCall(testId: Guid, winningVariantId: Guid)
    | IncrementCall(testId: Guid, itemId: Option<Guid>, itemVersion: int, kind: CountType)
    | SaveKpiResultCall(testId: Guid, itemVersion: int, result: KeyResult, resultType: KeyResultType)
    | AddKpiResultCall(testId: Guid, variantItemId: Guid, itemVersion: int, result: KeyResult, resultType: KeyResultType)

  /** Whether an increment addressed to (itemId, itemVersion) counts on variant v. */
  predicate Addressed(v: Variant, itemId: Option<Guid>, itemVersion: int)
  {
    v.itemVersion == itemVersion && (itemId.None? || v.itemId == itemId.value)
  }

  function BumpVariant(v: Variant, itemId: Option<Guid>, itemVersion: int, kind: CountType): Variant
  {
    if !Addressed(v, itemId, itemVersion) then v
    else if kind == View then v.(views := v.views + 1)
    else v.(conversions := v.conversions + 1)
  }

  /** The stored tests after one IncrementCount: every addressed variant of the test(s) with that id gains one. */
  function Bump(tests: seq<Test>, testId: Guid, itemId: Option<Guid>, itemVersion: int, kind: CountType): (r: seq<Test>)
    ensures |r| == |tests|
    ensures forall i | 0 <= i < |tests| :: r[i].id == tests[i].id && r[i].state == tests[i].state
  {
    seq(|tests|, i requires 0 <= i < |tests| =>
      if tests[i].id != testId then tests[i]
      else tests[i].(variants := seq(|tests[i].variants|, j requires 0 <= j < |tests[i].variants| =>
        BumpVariant(tests[i].variants[j], itemId, itemVersion, kind))))
  }

  /** The stored tests with the state of every test with that id replaced. */
  function WithState(tests: seq<Test>, id: Guid, state: TestState): (r: seq<Test>)
    ensures |r| == |tests|
    ensures forall i | 0 <= i < |tests| :: r[i].id == tests[i].id
    ensures forall i | 0 <= i < |tests| :: tests[i].id != id ==> r[i] == tests[i]
  {
    seq(|tests|, i requires 0 <= i < |tests| => if tests[i].id == id then tests[i].(state := state) else tests[i])
  }

  /** The stored tests without those with that id. */
  function WithoutTest(tests: seq<Test>, id: Guid): (r: seq<Test>)
    ensures forall t :: t in r <==> t in tests && t.id != id
  {
    if tests == [] then []
    else if tests[0].id == id then WithoutTest(tests[1..], id)
    else [tests[0]] + WithoutTest(tests[1..], id)
  }

  /** The active-test cache: the stored tests whose state is Active, in store order. */
  function ActiveTests(tests: seq<Test>): (r: seq<Test>)
    ensures forall t :: t in r <==> t in tests && t.state == Active
  {
    if tests == [] then []
    else if tests[0].state == Active then [tests[0]] + ActiveTests(tests[1..])
    else ActiveTests(tests[1..])
  }

  /** GetTestByItemId: every stored test of one content item, in store order. */
  function TestsForItem(tests: seq<Test>, contentId: Guid): (r: seq<Test>)
    ensures forall t :: t in r <==> t in tests && t.originalItemId == contentId
  {
    if tests == [] then []
    else if tests[0].originalItemId == contentId then [tests[0]] + TestsForItem(tests[1..], contentId)
    else TestsForItem(tests[1..], contentId)
  }

  class TestManager {
    var tests: seq<Test>
    var log: seq<ManagerCall>

    constructor (tests: seq<Test>)
      ensures this.tests == tests && log == []
    {
      this.tests := tests;
      log := [];
    }

    /** ITestManager.Get: the stored test with that id, or null. */
    function Get(id: Guid): Option<Test>
      reads this
    {
      TestById(tests, id)
    }

    /** GetActiveTestsByOriginalItemId, answered from the active-test cache. */
    function ActiveTestsForContent(contentId: Guid): seq<Test>
      reads this
    {
      ActiveTestsFor(tests, contentId)
    }

    method Stop(id: Guid)
      modifies this
      ensures tests == WithState(old(tests), id, Inactive)
      ensures log == old(log) + [StopCall(id)]
    {
      tests := WithState(tests, id, Inactive);
      log := log + [StopCall(id)];
    }

    method Delete(id: Guid)
      modifies this
      ensures tests == WithoutTest(old(tests), id)
      ensures log == old(log) + [DeleteCall(id)]
    {
      tests := WithoutTest(tests, id);
      log := log + [DeleteCall(id)];
    }

    method Archive(id: Guid, winningVariantId: Guid)
      modifies this
      ensures tests == WithState(old(tests), id, Archived)
      ensures log == old(log) + [ArchiveCall(id, winningVariantId)]
    {
      tests := WithState(tests, id, Archived);
      log := log + [ArchiveCall(id, winningVariantId)];
    }

    /** IncrementCount(testId, itemVersion, kind), as the test handler calls it. */
    method IncrementCount(testId: Guid, itemVersion: int, kind: CountType)
      modifies this
      ensures tests == Bump(old(tests), testId, None, itemVersion, kind)
      ensures log == old(log) + [IncrementCall(testId, None, itemVersion, kind)]
    {
      tests := Bump(tests, testId, None, itemVersion, kind);
      log := log + [IncrementCall(testId, None, itemVersion, kind)];
    }

    /** IncrementCount(testId, itemId, itemVersion, kind), as the message handler calls it. */
    method IncrementItemCount(testId: Guid, itemId: Guid, itemVersion: int, kind: CountType)
      modifies this
      ensures tests == Bump(old(tests), testId, Some(itemId), itemVersion, kind)
      ensures log == old(log) + [IncrementCall(testId, Some(itemId), itemVersion, kind)]
    {
      tests := Bump(tests, testId, Some(itemId), itemVersion, kind);
      log := log + [IncrementCall(testId, Some(itemId), itemVersion, kind)];
    }

    method SaveKpiResultData(testId: Guid, itemVersion: int, result: KeyResult, resultType: KeyResultType)
      modifies this
      ensures tests == old(tests)
      ensures log == old(log) + [SaveKpiResultCall(testId, itemVersion, result, resultType)]
    {
      log := log + [SaveKpiResultCall(testId, itemVersion, result, resultType)];
    }

    method AddKpiResultData(testId: Guid, itemId: Guid, itemVersion: int, result: KeyResult, resultType: KeyResultType)
      modifies this
      ensures tests == old(tests)
      ensures log == old(log) + [AddKpiResultCall(testId, itemId, itemVersion, result, resultType)]
    {
      log := log + [AddKpiResultCall(testId, itemId, itemVersion, result, resultType)];
    }
  }
}
