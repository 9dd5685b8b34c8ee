/**
 * The testing message handler (TestingMessageHandler): the receiving end of the messages a web node
 * sends so that counters and KPI results are written by one node. Each message becomes exactly one
 * call to the test manager.
 */
module Messaging {
  import opened Wrappers
  import opened Entities
  import opened Manager

  datatype UpdateViewsMessage = UpdateViewsMessage(testId: Guid, variantId: Guid, itemVersion: int)

  datatype UpdateConversionsMessage = UpdateConversionsMessage(testId: Guid, variantId: Guid, itemVersion: int)

  datatype AddKeyResultMessage = AddKeyResultMessage(
    testId: Guid,
    variantId: Guid,
    itemVersion: int,
    result: KeyResult,
    resultType: KeyResultType)

  class TestingMessageHandler {
    const manager: TestManager

    constructor (manager: TestManager)
      ensures this.manager == manager
    {
      this.manager := manager;
    }

    /** Handle(UpdateViewsMessage): one view counted against the message's variant. */
    method HandleUpdateViews(message: UpdateViewsMessage)
      modifies manager
      ensures manager.log == old(manager.log) + [IncrementCall(message.testId, Some(message.variantId), message.itemVersion, View)]
      ensures manager.tests == Bump(old(manager.tests), message.testId, Some(message.variantId), message.itemVersion, View)
    {
      manager.IncrementItemCount(message.testId, message.variantId, message.itemVersion, View);
    }

    /** Handle(UpdateConversionsMessage): one conversion counted against the message's variant. */
    method HandleUpdateConversions(message: UpdateConversionsMessage)
      modifies manager
      ensures manager.log == old(manager.log) + [IncrementCall(message.testId, Some(message.variantId), message.itemVersion, Conversion)]
      ensures manager.tests == Bump(old(manager.tests), message.testId, Some(message.variantId), message.itemVersion, Conversion)
    {
      manager.IncrementItemCount(message.testId, message.variantId, message.itemVersion, Conversion);
    }

    /** Handle(AddKeyResultMessage): the result is passed on unchanged, and no counter moves. */
    method HandleAddKeyResult(message: AddKeyResultMessage)
      modifies manager
      ensures manager.log == old(manager.log)
        + [AddKpiResultCall(message.testId, message.variantId, message.itemVersion, message.result, message.resultType)]
      ensures manager.tests == old(manager.tests)
    {
      manager.AddKpiResultData(message.testId, message.variantId, message.itemVersion, message.result, message.resultType);
    }
  }

  /**
   * A view message moves only view counters and a conversion message only conversion counters: every
   * variant keeps the other counter, its identity and its place, and tests with another id are untouched.
   */
  lemma CountsMoveSeparately(tests: seq<Test>, testId: Guid, itemId: Guid, itemVersion: int, kind: CountType)
    ensures var after := Bump(tests, testId, Some(itemId), itemVersion, kind);
      forall i | 0 <= i < |tests| ::
        && (tests[i].id != testId ==> after[i] == tests[i])
        && |after[i].variants| == |tests[i].variants|
        && forall j | 0 <= j < |tests[i].variants| ::
             var v, w := tests[i].variants[j], after[i].variants[j];
             && w.id == v.id && w.itemId == v.itemId && w.itemVersion == v.itemVersion
             && (kind == View ==>
                   w.conversions == v.conversions
                   && w.views == if tests[i].id == testId && v.itemId == itemId && v.itemVersion == itemVersion then v.views + 1 else v.views)
             && (kind == Conversion ==>
                   w.views == v.views
                   && w.conversions == if tests[i].id == testId && v.itemId == itemId && v.itemVersion == itemVersion then v.conversions + 1 else v.conversions)
  {
  }

  /**
   * Messages from different nodes may arrive in any order: two increments, of views or of conversions,
   * give the same counters whichever is handled first.
   */
  lemma IncrementsCommute(tests: seq<Test>, id1: Guid, item1: Guid, version1: int, kind1: CountType,
                          id2: Guid, item2: Guid, version2: int, kind2: CountType)
    ensures var a := Bump(tests, id1, Some(item1), version1, kind1);
      var b := Bump(tests, id2, Some(item2), version2, kind2);
      Bump(a, id2, Some(item2), version2, kind2) == Bump(b, id1, Some(item1), version1, kind1)
  {
    var a := Bump(tests, id1, Some(item1), version1, kind1);
    var b := Bump(tests, id2, Some(item2), version2, kind2);
    var x := Bump(a, id2, Some(item2), version2, kind2);
    var y := Bump(b, id1, Some(item1), version1, kind1);
    forall i | 0 <= i < |tests| ensures x[i] == y[i] {
      assert x[i].variants == y[i].variants;
    }
  }
}
