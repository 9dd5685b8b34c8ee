/**
 * The entities of the A/B-testing engine: tests (IMarketingTest / ABTest) with their variants and KPI
 * instances, and the per-visitor test record (TestDataCookie).
 *
 * A Guid is an abstract number; 0 stands for Guid.Empty. Dates are whole seconds.
 */
module Entities {
  import opened Wrappers
  import opened Text

  type Guid = nat

  const EmptyGuid: Guid := 0

  /** Guid.ToString, rendered in decimal in this model. */
  function GuidText(g: Guid): string { NatText(g) }

  /** `Guid.TryParse(s, out g) ? g : Guid.Empty`. */
  function ParseGuidOrEmpty(s: string): Guid
  {
    match ParseNat(s)
    case Some(g) => g
    case None => EmptyGuid
  }

  /** DateTime.MinValue, the value of an unset date. */
  const MinDate: int := 0

  const SecondsPerDay: int := 86400

  datatype TestState = Inactive | Active | Done | Archived

  /** The run-time type of a KPI instance; `alwaysEvaluate` is whether it carries AlwaysEvaluateAttribute. */
  datatype KpiType = KpiType(typeId: nat, alwaysEvaluate: bool)

  datatype Kpi = Kpi(id: Guid, kpiType: KpiType)

  datatype Variant = Variant(
    id: Guid,
    itemId: Guid,
    itemVersion: int,
    isPublished: bool,
    views: int,
    conversions: int)

  datatype Test = Test(
    id: Guid,
    originalItemId: Guid,
    title: string,
    owner: string,
    description: string,
    startDate: int,
    endDate: int,
    state: TestState,
    participationPercentage: int,
    isSignificant: bool,
    confidenceLevel: int,
    contentLanguage: string,
    variants: seq<Variant>,
    kpis: seq<Kpi>)

  /** `new ABTest()`: every field at its default. */
  function EmptyTest(): Test
  {
    Test(EmptyGuid, EmptyGuid, "", "", "", MinDate, MinDate, Inactive, 0, false, 0, "", [], [])
  }

  /** One entry of the record's KpiConversionDictionary; the sequence order is the dictionary's enumeration order. */
  datatype KpiFlag = KpiFlag(kpiId: Guid, converted: bool)

  /** TestDataCookie: what one visitor's cookie says about one test. */
  datatype TestDataCookie = TestDataCookie(
    testId: Guid,
    testContentId: Guid,
    testVariantId: Guid,
    testStart: int,
    viewed: bool,
    converted: bool,
    showVariant: bool,
    alwaysEval: bool,
    kpiConversions: seq<KpiFlag>)

  /** `new TestDataCookie()`. */
  function EmptyRecord(): TestDataCookie
  {
    TestDataCookie(EmptyGuid, EmptyGuid, EmptyGuid, MinDate, false, false, false, false, [])
  }

  predicate HasTestData(d: TestDataCookie) { d.testId != EmptyGuid }

  predicate IsTestParticipant(d: TestDataCookie) { d.testVariantId != EmptyGuid }

  lemma EmptyRecordIsBlank()
    ensures !HasTestData(EmptyRecord()) && !IsTestParticipant(EmptyRecord())
  {}

  function FlagIds(flags: seq<KpiFlag>): (r: seq<Guid>)
    ensures |r| == |flags| && forall i | 0 <= i < |flags| :: r[i] == flags[i].kpiId
  {
    seq(|flags|, i requires 0 <= i < |flags| => flags[i].kpiId)
  }

  function KpiIds(kpis: seq<Kpi>): (r: seq<Guid>)
    ensures |r| == |kpis| && forall i | 0 <= i < |kpis| :: r[i] == kpis[i].id
  {
    seq(|kpis|, i requires 0 <= i < |kpis| => kpis[i].id)
  }

  predicate Distinct(ids: seq<Guid>)
  {
    forall i, j | 0 <= i < j < |ids| :: ids[i] != ids[j]
  }

  /** One more id keeps the ids distinct exactly when it is new. */
  lemma DistinctSnoc(ids: seq<Guid>, id: Guid)
    ensures Distinct(ids + [id]) <==> Distinct(ids) && id !in ids
  {
    var r := ids + [id];
    if Distinct(r) {
      forall i, j | 0 <= i < j < |ids| ensures ids[i] != ids[j] {
        assert r[i] == ids[i] && r[j] == ids[j];
      }
    }
    if id in ids {
      var i :| 0 <= i < |ids| && ids[i] == id;
      assert r[i] == r[|ids|];
    }
  }

  predicate IsActiveFor(t: Test, contentId: Guid)
  {
    t.state == Active && t.originalItemId == contentId
  }

  /** ITestManager.GetActiveTestsByOriginalItemId over the active-test cache: the active tests of one content item, in cache order. */
  function ActiveTestsFor(tests: seq<Test>, contentId: Guid): (r: seq<Test>)
    ensures |r| <= |tests|
    ensures forall t :: t in r <==> t in tests && IsActiveFor(t, contentId)
  {
    if tests == [] then []
    else if IsActiveFor(tests[0], contentId) then [tests[0]] + ActiveTestsFor(tests[1..], contentId)
    else ActiveTestsFor(tests[1..], contentId)
  }

  /** `GetActiveTestsByOriginalItemId(contentId).FirstOrDefault()`. */
  function FirstActiveFor(tests: seq<Test>, contentId: Guid): Option<Test>
  {
    var active := ActiveTestsFor(tests, contentId);
    if active == [] then None else Some(active[0])
  }

  /** ITestManager.Get / GetTestById: the first stored test with that id, or null. */
  function TestById(tests: seq<Test>, id: Guid): (r: Option<Test>)
    ensures r.Some? ==> r.value in tests && r.value.id == id
    ensures r.None? ==> forall t | t in tests :: t.id != id
  {
    if tests == [] then None
    else if tests[0].id == id then Some(tests[0])
    else TestById(tests[1..], id)
  }

  /** The position of the first occurrence of an id, or -1: the search FindIndex and FirstOrDefault make over a key. */
  function FirstIndex(ids: seq<Guid>, id: Guid): (k: int)
    ensures -1 <= k < |ids|
    ensures k >= 0 ==> ids[k] == id && forall j | 0 <= j < k :: ids[j] != id
    ensures k == -1 <==> id !in ids
    ensures k == -1 ==> forall j | 0 <= j < |ids| :: ids[j] != id
  {
    if ids == [] then -1
    else if ids[0] == id then 0
    else
      var k := FirstIndex(ids[1..], id);
      if k == -1 then -1 else k + 1
  }

  /** List.FindIndex(v => v.Id == id): the first position of a variant with that id, or -1. */
  function VariantIndexOf(variants: seq<Variant>, id: Guid): (k: int)
    ensures -1 <= k < |variants|
    ensures k >= 0 ==> variants[k].id == id && forall j | 0 <= j < k :: variants[j].id != id
    ensures k == -1 ==> forall j | 0 <= j < |variants| :: variants[j].id != id
  {
    var ids := seq(|variants|, i requires 0 <= i < |variants| => variants[i].id);
    assert forall j | 0 <= j < |variants| :: ids[j] == variants[j].id;
    FirstIndex(ids, id)
  }

  /** `Variants.FirstOrDefault(x => x.Id == id)`. */
  function VariantWithId(variants: seq<Variant>, id: Guid): (r: Option<Variant>)
    ensures r.Some? <==> exists j | 0 <= j < |variants| :: variants[j].id == id
    ensures r.Some? ==> r.value in variants && r.value.id == id
  {
    var k := VariantIndexOf(variants, id);
    if k == -1 then None else Some(variants[k])
  }

  /** The position of the first flag with that KPI id, or -1. */
  function FlagIndex(flags: seq<KpiFlag>, id: Guid): (k: int)
    ensures -1 <= k < |flags|
    ensures k >= 0 ==> flags[k].kpiId == id && forall j | 0 <= j < k :: flags[j].kpiId != id
    ensures k == -1 <==> id !in FlagIds(flags)
  {
    FirstIndex(FlagIds(flags), id)
  }

  /** `KpiConversionDictionary.First(x => x.Key == id).Value`, or None where First throws. */
  function FlagOf(flags: seq<KpiFlag>, id: Guid): Option<bool>
  {
    var k := FlagIndex(flags, id);
    if k == -1 then None else Some(flags[k].converted)
  }

  /** Adding an absent key keeps every other key's lookup, and the new key reads back its value. */
  lemma AppendedFlagLookup(flags: seq<KpiFlag>, id: Guid, converted: bool)
    requires id !in FlagIds(flags)
    ensures var r := flags + [KpiFlag(id, converted)];
      && FlagIds(r) == FlagIds(flags) + [id]
      && (Distinct(FlagIds(flags)) ==> Distinct(FlagIds(r)))
      && FlagOf(r, id) == Some(converted)
      && forall k | k != id :: FlagOf(r, k) == FlagOf(flags, k)
  {
    var r := flags + [KpiFlag(id, converted)];
    assert FlagIds(r) == FlagIds(flags) + [id];
    assert r[|flags|].kpiId == id;
    forall k | k != id
      ensures FlagOf(r, k) == FlagOf(flags, k)
    {
      var m := FlagIndex(flags, k);
      if m == -1 {
        assert k !in FlagIds(r);
      } else {
        assert r[m].kpiId == k;
        assert k in FlagIds(r);
      }
    }
  }

  /**
   * Dictionary.Add: a new key is added after the existing entries, so every other key keeps its value and
   * the new key reads back the value added; a key already present throws. AppendedFlagLookup adds that the
   * keys grow by exactly the new key and stay distinct.
   */
  function AddFlag(flags: seq<KpiFlag>, id: Guid, converted: bool): (r: Result<seq<KpiFlag>>)
    ensures r.Err? <==> id in FlagIds(flags)
    ensures r.Err? ==> r.error == DuplicateKey
    ensures r.Ok? ==> r.value == flags + [KpiFlag(id, converted)]
    ensures r.Ok? ==> FlagOf(r.value, id) == Some(converted)
    ensures r.Ok? ==> forall k | k != id :: FlagOf(r.value, k) == FlagOf(flags, k)
  {
    if id in FlagIds(flags) then Err(DuplicateKey)
    else
      AppendedFlagLookup(flags, id, converted);
      Ok(flags + [KpiFlag(id, converted)])
  }

  /**
   * The AlwaysEval value a loop over kpis leaves behind when each iteration overwrites it with the KPI's
   * AlwaysEvaluate attribute: the last KPI's attribute, or the value before the loop when there is no KPI.
   */
  function LastAlwaysEval(kpis: seq<Kpi>, before: bool): bool
  {
    if kpis == [] then before else kpis[|kpis| - 1].kpiType.alwaysEvaluate
  }
}
