/**
 * The web layer's repository over the test manager (MarketingTestingWebRepository): which test a
 * content item is running, deleting the running tests of a content item, building a new A/B test from
 * the "create test" form, and publishing the winner of a finished test.
 *
 * The clock, the signed-in user, Guid.NewGuid and the content repository's lookup of the conversion
 * page are parameters. ITestResultHelper is represented by the list of content links it was asked to
 * publish.
 */
module WebRepository {
  import opened Wrappers
  import opened Text
  import opened Entities
  import opened Manager

  /** A test that is neither Done nor Archived. */
  predicate Open(t: Test)
  {
    t.state != Done && t.state != Archived
  }

  /** The position of the first open test, or -1 (List.Find without the element). */
  function FirstOpenIndex(tests: seq<Test>): (k: int)
    ensures -1 <= k < |tests|
    ensures k >= 0 ==> Open(tests[k]) && forall j | 0 <= j < k :: !Open(tests[j])
    ensures k == -1 ==> forall j | 0 <= j < |tests| :: !Open(tests[j])
  {
    if tests == [] then -1
    else if Open(tests[0]) then 0
    else
      var k := FirstOpenIndex(tests[1..]);
      if k == -1 then -1 else k + 1
  }

  /**
   * GetActiveTestForContent over the stored tests: the first test of the content that is neither Done
   * nor Archived, and a fresh `new ABTest()` when there is none; never null.
   */
  function ActiveTestIn(tests: seq<Test>, contentGuid: Guid): (r: Test)
    ensures var mine := TestsForItem(tests, contentGuid);
      (forall t | t in mine :: !Open(t)) ==> r == EmptyTest()
    ensures var mine := TestsForItem(tests, contentGuid);
      (exists t | t in mine :: Open(t)) ==>
        && r in tests && r.originalItemId == contentGuid && Open(r)
        && exists k | 0 <= k < |mine| :: mine[k] == r && forall j | 0 <= j < k :: !Open(mine[j])
  {
    var mine := TestsForItem(tests, contentGuid);
    var k := FirstOpenIndex(mine);
    if k == -1 then EmptyTest() else mine[k]
  }

  /** `List.FindAll(t => t.State != Done && t.State != Archived)`: the open tests, in list order. */
  function OpenTests(tests: seq<Test>): (r: seq<Test>)
    ensures |r| <= |tests|
    ensures forall t :: t in r <==> t in tests && Open(t)
  {
    if tests == [] then []
    else if Open(tests[0]) then [tests[0]] + OpenTests(tests[1..])
    else OpenTests(tests[1..])
  }

  /** The stored tests after ITestManager.Delete of each test of `doomed`, in order. */
  function DeleteAll(tests: seq<Test>, doomed: seq<Test>): seq<Test>
  {
    if doomed == [] then tests
    else WithoutTest(DeleteAll(tests, doomed[..|doomed| - 1]), doomed[|doomed| - 1].id)
  }

  /** The Delete calls made for `doomed`, in order. */
  function DeleteCalls(doomed: seq<Test>): (r: seq<ManagerCall>)
    ensures |r| == |doomed|
    ensures forall i | 0 <= i < |doomed| :: r[i] == DeleteCall(doomed[i].id)
  {
    seq(|doomed|, i requires 0 <= i < |doomed| => DeleteCall(doomed[i].id))
  }

  /** Deleting a list of tests by id leaves exactly the stored tests whose id none of them has. */
  lemma {:induction false} DeleteAllMembers(tests: seq<Test>, doomed: seq<Test>)
    ensures forall t :: t in DeleteAll(tests, doomed) <==> t in tests && forall x | x in doomed :: x.id != t.id
  {
    if doomed != [] {
      var prefix := doomed[..|doomed| - 1];
      DeleteAllMembers(tests, prefix);
      assert doomed == prefix + [doomed[|doomed| - 1]];
    }
  }

  lemma DeleteStep(tests: seq<Test>, doomed: seq<Test>, i: nat)
    requires i < |doomed|
    ensures DeleteAll(tests, doomed[..i + 1]) == WithoutTest(DeleteAll(tests, doomed[..i]), doomed[i].id)
    ensures DeleteCalls(doomed[..i + 1]) == DeleteCalls(doomed[..i]) + [DeleteCall(doomed[i].id)]
  {
    assert doomed[..i + 1][..i] == doomed[..i];
  }

  /** No two stored tests share an id. */
  predicate UniqueIds(tests: seq<Test>)
  {
    forall i, j | 0 <= i < j < |tests| :: tests[i].id != tests[j].id
  }

  /**
   * After DeleteTestForContent the content has no open test left, so GetActiveTestForContent answers
   * with an empty test.
   */
  lemma DeleteForContentLeavesNoOpenTest(tests: seq<Test>, contentGuid: Guid)
    ensures ActiveTestIn(DeleteAll(tests, OpenTests(TestsForItem(tests, contentGuid))), contentGuid) == EmptyTest()
  {
    var doomed := OpenTests(TestsForItem(tests, contentGuid));
    DeleteAllMembers(tests, doomed);
    forall t | t in TestsForItem(DeleteAll(tests, doomed), contentGuid) ensures !Open(t) {
    }
  }

  /**
   * When ids are unique DeleteTestForContent deletes no Done or Archived test, nor any test of another
   * content item.
   */
  lemma DeleteForContentKeepsOthers(tests: seq<Test>, contentGuid: Guid, t: Test)
    requires UniqueIds(tests)
    requires t in tests && (!Open(t) || t.originalItemId != contentGuid)
    ensures t in DeleteAll(tests, OpenTests(TestsForItem(tests, contentGuid)))
  {
    var doomed := OpenTests(TestsForItem(tests, contentGuid));
    DeleteAllMembers(tests, doomed);
    forall x | x in doomed ensures x.id != t.id {
      var i :| 0 <= i < |tests| && tests[i] == t;
      var j :| 0 <= j < |tests| && tests[j] == x;
      assert i != j;
    }
  }

  /** An archived test is never the one GetActiveTestForContent answers with. */
  lemma ArchivedTestIsNotActive(tests: seq<Test>, id: Guid, contentGuid: Guid)
    ensures var r := ActiveTestIn(WithState(tests, id, Archived), contentGuid);
      r == EmptyTest() || r.id != id
  {
  }

  /** A content item with no open test answers with a test stored for it after that test is added. */
  lemma {:induction false} SavedTestBecomesActive(tests: seq<Test>, t: Test)
    requires forall u | u in TestsForItem(tests, t.originalItemId) :: !Open(u)
    requires Open(t)
    ensures ActiveTestIn(tests + [t], t.originalItemId) == t
  {
    var c := t.originalItemId;
    TestsForItemSnoc(tests, t);
    var mine := TestsForItem(tests + [t], c);
    assert mine[|mine| - 1] == t;
  }

  lemma {:induction false} TestsForItemSnoc(tests: seq<Test>, t: Test)
    ensures TestsForItem(tests + [t], t.originalItemId) == TestsForItem(tests, t.originalItemId) + [t]
  {
    if tests != [] {
      assert (tests + [t])[1..] == tests[1..] + [t];
      TestsForItemSnoc(tests[1..], t);
    }
  }

  /*
   * Building a test from the "create test" form (ConvertToMarketingTest)
   */

  /** TestingStoreModel: the fields of the "create test" form. A missing start date is None. */
  datatype TestingStoreModel = TestingStoreModel(
    testContentId: Guid,
    testTitle: string,
    testDescription: string,
    startDate: Option<string>,
    testDuration: int,
    participationPercent: int,
    start: bool,
    isSignificant: bool,
    confidenceLevel: int,
    conversionPage: int,
    publishedVersion: int,
    variantVersion: int)

  /** The ids ConvertToMarketingTest draws from Guid.NewGuid, in the order it draws them. */
  datatype FreshIds = FreshIds(kpiId: Guid, testId: Guid, publishedVariantId: Guid, draftVariantId: Guid)

  /** The KPI type of ContentComparatorKPI (a conversion when the visitor reaches a given page). */
  const ContentComparator: KpiType := KpiType(1, false)

  /** The start date text after the form's missing date is replaced by the current time. */
  function StartText(data: TestingStoreModel, now: int): string
  {
    if data.startDate.None? then IntText(now) else data.startDate.value
  }

  /** CalculateEndDateFromDuration: the parsed start date plus the duration in days. */
  function CalculateEndDateFromDuration(startDate: string, testDuration: int): (r: Result<int>)
    ensures r.Ok? <==> ParseInteger(startDate).Some?
    ensures r.Err? ==> r.error == Format
    ensures r.Ok? ==> r.value - ParseInteger(startDate).value == testDuration * SecondsPerDay
  {
    match ParseInteger(startDate)
    case None => Err(Format)
    case Some(start) => Ok(start + testDuration * SecondsPerDay)
  }

  /** A start date written as text reads back, so the end date lies exactly the duration after it. */
  lemma EndDateOfWrittenStart(start: int, testDuration: int)
    ensures CalculateEndDateFromDuration(IntText(start), testDuration) == Ok(start + testDuration * SecondsPerDay)
  {
    ParseIntegerText(start);
  }

  /**
   * ConvertToMarketingTest. `conversionContent` is the Guid of the conversion page as the content
   * repository returns it (None for a missing page); `now` is DateTime.Now and `user` the signed-in user.
   */
  function ConvertToMarketingTest(data: TestingStoreModel, now: int, user: string, conversionContent: Option<Guid>,
                                  ids: FreshIds): (r: Result<Test>)
    ensures r.Ok? <==> conversionContent.Some? && ParseInteger(StartText(data, now)).Some?
    ensures conversionContent.None? ==> r == Err(NullReference)
    ensures conversionContent.Some? && r.Err? ==> r.error == Format
    ensures r.Ok? ==>
      var t := r.value;
      && t.id == ids.testId && t.originalItemId == data.testContentId && t.owner == user
      && t.title == data.testTitle && t.description == data.testDescription
      && t.participationPercentage == data.participationPercent && t.isSignificant == data.isSignificant
      && t.confidenceLevel == data.confidenceLevel
      && t.startDate == ParseInteger(StartText(data, now)).value
      && |t.variants| == 2
      && t.variants[0] == Variant(ids.publishedVariantId, data.testContentId, data.publishedVersion, false, 0, 0)
      && t.variants[1] == Variant(ids.draftVariantId, data.testContentId, data.variantVersion, false, 0, 0)
      && t.kpis == [Kpi(ids.kpiId, ContentComparator)]
  {
    match conversionContent
    case None => Err(NullReference)
    case Some(_) =>
      var text := StartText(data, now);
      match ParseInteger(text)
      case None => Err(Format)
      case Some(start) =>
        match CalculateEndDateFromDuration(text, data.testDuration)
        case Err(e) => Err(e)
        case Ok(end) =>
          var test := Test(
            ids.testId, data.testContentId, data.testTitle, user, data.testDescription, start, end,
            if data.start then Active else Inactive,
            data.participationPercent, data.isSignificant, data.confidenceLevel, "",
            [Variant(ids.publishedVariantId, data.testContentId, data.publishedVersion, false, 0, 0),
             Variant(ids.draftVariantId, data.testContentId, data.variantVersion, false, 0, 0)],
            [Kpi(ids.kpiId, ContentComparator)]);
          Ok(if now >= start then test.(state := Active) else test)
  }

  /**
   * A built test runs from its start date for the requested number of days; it is Active when the form
   * asked to start it or its start date has come, and Inactive otherwise, so it is always open.
   */
  lemma BuiltTestSchedule(data: TestingStoreModel, now: int, user: string, conversionContent: Option<Guid>, ids: FreshIds)
    requires ConvertToMarketingTest(data, now, user, conversionContent, ids).Ok?
    ensures var t := ConvertToMarketingTest(data, now, user, conversionContent, ids).value;
      && t.endDate == t.startDate + data.testDuration * SecondsPerDay
      && (t.state == Active <==> data.start || now >= t.startDate)
      && (t.state == Inactive <==> !data.start && now < t.startDate)
      && Open(t)
  {
  }

  /** Without a start date the test starts now, and is therefore Active whatever the form asked. */
  lemma MissingStartDateStartsNow(data: TestingStoreModel, now: int, user: string, contentGuid: Guid, ids: FreshIds)
    requires data.startDate.None?
    ensures var r := ConvertToMarketingTest(data, now, user, Some(contentGuid), ids);
      && r.Ok? && r.value.startDate == now && r.value.state == Active
      && r.value.endDate == now + data.testDuration * SecondsPerDay
  {
    ParseIntegerText(now);
  }

  /** A start date written by DateTime.ToString is the start date of the built test. */
  lemma WrittenStartDateIsKept(data: TestingStoreModel, now: int, user: string, contentGuid: Guid, ids: FreshIds, start: int)
    requires data.startDate == Some(IntText(start))
    ensures var r := ConvertToMarketingTest(data, now, user, Some(contentGuid), ids);
      && r.Ok? && r.value.startDate == start
      && (r.value.state == Active <==> data.start || now >= start)
  {
    ParseIntegerText(start);
  }

  /*
   * Publishing the winner (PublishWinningVariant)
   */

  /** TestResultStoreModel: the winner picked in the UI and the links of the test's two versions. */
  datatype TestResultStoreModel = TestResultStoreModel(
    winningContentLink: string,
    testId: string,
    draftContentLink: string,
    publishedContentLink: string)

  /** The value `int.TryParse(s, out v)` leaves in v: the number, or 0 when s is not an Int32. */
  function Int32OrZero(s: string): int
  {
    match ParseInt32(s)
    case Some(v) => v
    case None => 0
  }

  /** String.Split('_')[1]: the text between the first and the second '_' (or the end). */
  function SecondSegment(s: string): string
    requires '_' in s
  {
    FirstSegment(AfterFirst(s, '_'), '_')
  }

  /** `Variants.FirstOrDefault(x => x.ItemVersion == version)`. */
  function VariantWithVersion(variants: seq<Variant>, version: int): (r: Option<Variant>)
    ensures r.None? <==> forall v | v in variants :: v.itemVersion != version
    ensures r.Some? ==>
      exists k | 0 <= k < |variants| ::
        variants[k] == r.value && r.value.itemVersion == version && (forall j | 0 <= j < k :: variants[j].itemVersion != version)
  {
    if variants == [] then None
    else if variants[0].itemVersion == version then Some(variants[0])
    else
      var r := VariantWithVersion(variants[1..], version);
      assert r.Some? ==> exists k | 1 <= k < |variants| ::
        variants[k] == r.value && r.value.itemVersion == version && (forall j | 0 <= j < k :: variants[j].itemVersion != version) by {
        if r.Some? {
          var k :| 0 <= k < |variants[1..]| && variants[1..][k] == r.value && r.value.itemVersion == version
            && forall j | 0 <= j < k :: variants[1..][j].itemVersion != version;
          assert variants[k + 1] == r.value;
          assert forall j | 1 <= j < k + 1 :: variants[j].itemVersion != version by {
            forall j | 1 <= j < k + 1 ensures variants[j].itemVersion != version {
              assert variants[1..][j - 1] == variants[j];
            }
          }
        }
      }
      r
  }

  /** The version the winner is looked up by: the published reference when the published version won. */
  function WinningVersion(testResult: TestResultStoreModel): int
    requires '_' in testResult.winningContentLink
  {
    if testResult.winningContentLink == testResult.publishedContentLink
    then Int32OrZero(FirstSegment(testResult.winningContentLink, '_'))
    else Int32OrZero(SecondSegment(testResult.winningContentLink))
  }

  lemma {:induction false} AfterFirstBefore(a: string, c: char, b: string)
    requires c !in a
    ensures c in a + [c] + b && AfterFirst(a + [c] + b, c) == b
  {
    if a != [] {
      assert (a + [c] + b)[1..] == a[1..] + [c] + b;
      AfterFirstBefore(a[1..], c, b);
    }
  }

  /**
   * A winning link written as "<published version>_<draft version>" reads back as those two versions,
   * which are the references the published and the draft variant are looked up by.
   */
  lemma WinningLinkRoundTrip(publishedVersion: int, draftVersion: int)
    requires IsInt32(publishedVersion) && IsInt32(draftVersion)
    ensures var link := IntText(publishedVersion) + "_" + IntText(draftVersion);
      && '_' in link
      && Int32OrZero(FirstSegment(link, '_')) == publishedVersion
      && Int32OrZero(SecondSegment(link)) == draftVersion
  {
    var p, d := IntText(publishedVersion), IntText(draftVersion);
    NoUnderscoreInIntText(publishedVersion);
    NoUnderscoreInIntText(draftVersion);
    FirstSegmentBefore(p, '_', d);
    AfterFirstBefore(p, '_', d);
    FirstSegmentWhole(d, '_');
    ParseInt32Text(publishedVersion);
    ParseInt32Text(draftVersion);
  }

  lemma NoUnderscoreInIntText(i: int)
    ensures '_' !in IntText(i)
  {
    NatTextDigits(if i < 0 then -i else i);
  }

  lemma {:induction false} FirstSegmentWhole(s: string, c: char)
    requires c !in s
    ensures FirstSegment(s, c) == s
  {
    if s != [] {
      FirstSegmentWhole(s[1..], c);
    }
  }

  class MarketingTestingWebRepository {
    const manager: TestManager
    /** Every content link ITestResultHelper.PublishContent was asked to publish, in order. */
    var publishedLinks: seq<string>

    constructor (manager: TestManager)
      ensures this.manager == manager && publishedLinks == []
    {
      this.manager := manager;
      publishedLinks := [];
    }

    /** GetActiveTestForContent, answered from the test manager's stored tests. */
    function GetActiveTestForContent(contentGuid: Guid): (r: Test)
      reads manager
      ensures r == EmptyTest() || (r in manager.tests && r.originalItemId == contentGuid && Open(r))
    {
      ActiveTestIn(manager.tests, contentGuid)
    }

    /** DeleteTestForContent: deletes, in store order, every test of the content that is neither Done nor Archived. */
    method DeleteTestForContent(contentGuid: Guid)
      modifies manager
      ensures var doomed := OpenTests(TestsForItem(old(manager.tests), contentGuid));
        && manager.tests == DeleteAll(old(manager.tests), doomed)
        && manager.log == old(manager.log) + DeleteCalls(doomed)
    {
      var testList := OpenTests(TestsForItem(manager.tests, contentGuid));
      for i := 0 to |testList|
        invariant manager.tests == DeleteAll(old(manager.tests), testList[..i])
        invariant manager.log == old(manager.log) + DeleteCalls(testList[..i])
      {
        DeleteStep(old(manager.tests), testList, i);
        manager.Delete(testList[i].id);
      }
      assert testList[..|testList|] == testList;
    }

    /**
     * PublishWinningVariant. An empty winning link publishes nothing and answers -1. Otherwise the link
     * is split at '_' into the published reference and the variant version (each 0 when it is not a
     * number); the draft is published, and then the published version too when it won; the test is
     * archived with the winning variant, and the published reference is returned. A missing test or
     * winning variant is caught after the publishing, and answers -1 without archiving.
     */
    method PublishWinningVariant(testResult: TestResultStoreModel) returns (r: Result<int>)
      modifies this, manager
      ensures testResult.winningContentLink == "" ==>
        r == Ok(-1) && publishedLinks == old(publishedLinks) && unchanged(manager)
      ensures testResult.winningContentLink != "" && '_' !in testResult.winningContentLink ==>
        r == Err(IndexOutOfRange) && publishedLinks == old(publishedLinks) && unchanged(manager)
      ensures '_' in testResult.winningContentLink && ParseNat(testResult.testId).None? ==>
        r == Err(Format) && publishedLinks == old(publishedLinks) && unchanged(manager)
      ensures '_' in testResult.winningContentLink && ParseNat(testResult.testId).Some? ==>
        var wonByPublished := testResult.winningContentLink == testResult.publishedContentLink;
        var test := TestById(old(manager.tests), ParseNat(testResult.testId).value);
        var winner := if test.None? then None else VariantWithVersion(test.value.variants, WinningVersion(testResult));
        && publishedLinks == old(publishedLinks) + [testResult.draftContentLink]
             + (if wonByPublished then [testResult.publishedContentLink] else [])
        && (winner.None? ==> r == Ok(-1) && unchanged(manager))
        && (winner.Some? ==>
              && r == Ok(Int32OrZero(FirstSegment(testResult.winningContentLink, '_')))
              && manager.tests == WithState(old(manager.tests), test.value.id, Archived)
              && manager.log == old(manager.log) + [ArchiveCall(test.value.id, winner.value.id)])
    {
      var publishedVersionReference := -1;
      var link := testResult.winningContentLink;
      if link == "" {
        return Ok(publishedVersionReference);
      }
      var publishedReference := Int32OrZero(FirstSegment(link, '_'));
      if '_' !in link {
        return Err(IndexOutOfRange);
      }
      var variantVersion := Int32OrZero(SecondSegment(link));
      var testId := ParseNat(testResult.testId);
      if testId.None? {
        return Err(Format);
      }
      var currentTest := manager.Get(testId.value);
      publishedLinks := publishedLinks + [testResult.draftContentLink];
      var winner: Option<Variant>;
      if link == testResult.publishedContentLink {
        publishedLinks := publishedLinks + [testResult.publishedContentLink];
        if currentTest.None? {
          return Ok(publishedVersionReference);
        }
        winner := VariantWithVersion(currentTest.value.variants, publishedReference);
      } else {
        if currentTest.None? {
          return Ok(publishedVersionReference);
        }
        winner := VariantWithVersion(currentTest.value.variants, variantVersion);
      }
      if winner.None? {
        return Ok(publishedVersionReference);
      }
      manager.Archive(currentTest.value.id, winner.value.id);
      publishedVersionReference := publishedReference;
      return Ok(publishedVersionReference);
    }
  }
}
