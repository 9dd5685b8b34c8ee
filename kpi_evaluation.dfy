/**
 * The rules the test handler applies to one visitor record when KPIs are evaluated: which records are
 * skipped, which KPIs are evaluated, how conversion results set the record's flags, and when a record
 * counts as converted. The handler's methods are proved against these functions.
 */
module KpiEvaluation {
  import opened Wrappers
  import opened Entities
  import opened KpiOrder

  /**
   * What evaluating one KPI reports. The three kinds are the result classes the handler separates with
   * OfType: KpiConversionResult, KpiFinancialResult and KpiValueResult (amounts are whole numbers here).
   */
  datatype KpiResult =
    | ConversionResult(kpiId: Guid, hasConverted: bool)
    | FinancialResult(
        kpiId: Guid,
        hasConverted: bool,
        total: int,
        totalMarketCulture: string,
        convertedTotal: int,
        convertedTotalCulture: string)
    | ValueResult(kpiId: Guid, hasConverted: bool, value: int)

  /** `OfType<KpiConversionResult>()`. */
  function ConversionResults(rs: seq<KpiResult>): (r: seq<KpiResult>)
    ensures forall x :: x in r <==> x in rs && x.ConversionResult?
  {
    if rs == [] then []
    else if rs[0].ConversionResult? then [rs[0]] + ConversionResults(rs[1..])
    else ConversionResults(rs[1..])
  }

  /** `OfType<KpiFinancialResult>()`. */
  function FinancialResults(rs: seq<KpiResult>): (r: seq<KpiResult>)
    ensures forall x :: x in r <==> x in rs && x.FinancialResult?
  {
    if rs == [] then []
    else if rs[0].FinancialResult? then [rs[0]] + FinancialResults(rs[1..])
    else FinancialResults(rs[1..])
  }

  /** `OfType<KpiValueResult>()`. */
  function ValueResults(rs: seq<KpiResult>): (r: seq<KpiResult>)
    ensures forall x :: x in r <==> x in rs && x.ValueResult?
  {
    if rs == [] then []
    else if rs[0].ValueResult? then [rs[0]] + ValueResults(rs[1..])
    else ValueResults(rs[1..])
  }

  /** The results that report a conversion, in order, as the `if (HasConverted)` inside a foreach keeps them. */
  function ConvertedResults(rs: seq<KpiResult>): (r: seq<KpiResult>)
    ensures forall x :: x in r <==> x in rs && x.hasConverted
  {
    if rs == [] then []
    else if rs[0].hasConverted then [rs[0]] + ConvertedResults(rs[1..])
    else ConvertedResults(rs[1..])
  }

  /** Filtering the financial results distributes over concatenation. */
  lemma {:induction false} FinancialResultsAppend(a: seq<KpiResult>, b: seq<KpiResult>)
    ensures FinancialResults(a + b) == FinancialResults(a) + FinancialResults(b)
  {
    if a == [] {
      assert a + b == b;
    } else {
      assert (a + b)[1..] == a[1..] + b;
      FinancialResultsAppend(a[1..], b);
    }
  }

  /** Filtering the value results distributes over concatenation. */
  lemma {:induction false} ValueResultsAppend(a: seq<KpiResult>, b: seq<KpiResult>)
    ensures ValueResults(a + b) == ValueResults(a) + ValueResults(b)
  {
    if a == [] {
      assert a + b == b;
    } else {
      assert (a + b)[1..] == a[1..] + b;
      ValueResultsAppend(a[1..], b);
    }
  }

  /** Filtering the converted results distributes over concatenation. */
  lemma {:induction false} ConvertedResultsAppend(a: seq<KpiResult>, b: seq<KpiResult>)
    ensures ConvertedResults(a + b) == ConvertedResults(a) + ConvertedResults(b)
  {
    if a == [] {
      assert a + b == b;
    } else {
      assert (a + b)[1..] == a[1..] + b;
      ConvertedResultsAppend(a[1..], b);
    }
  }

  /** The KPI ids of the results that report a conversion. */
  function ConvertedIds(rs: seq<KpiResult>): set<Guid>
  {
    set x | x in rs && x.hasConverted :: x.kpiId
  }

  /** A record the handler passes over: converted without AlwaysEval, or never viewed. */
  predicate SkipsRecord(d: TestDataCookie)
  {
    (d.converted && !d.alwaysEval) || !d.viewed
  }

  /** Whether the selection loop keeps a KPI whose flag is present: its flag is false, or the record has AlwaysEval. */
  predicate Selects(d: TestDataCookie, k: Kpi)
  {
    d.alwaysEval || FlagOf(d.kpiConversions, k.id) == Some(false)
  }

  /**
   * The KPIs EvaluateKpis hands to the evaluator, in the test's order; `First` throws InvalidOperation
   * for a KPI that has no flag in the record.
   */
  function KpisToEvaluate(kpis: seq<Kpi>, d: TestDataCookie): (r: Result<seq<Kpi>>)
    ensures r.Ok? <==> forall k | k in kpis :: k.id in FlagIds(d.kpiConversions)
    ensures r.Err? ==> r.error == InvalidOperation
    ensures r.Ok? ==> forall k :: k in r.value <==> k in kpis && Selects(d, k)
    ensures r.Ok? && d.alwaysEval ==> r.value == kpis
  {
    if kpis == [] then Ok([])
    else
      var last := kpis[|kpis| - 1];
      assert kpis == kpis[..|kpis| - 1] + [last];
      match KpisToEvaluate(kpis[..|kpis| - 1], d)
      case Err(e) => Err(e)
      case Ok(selected) =>
        match FlagOf(d.kpiConversions, last.id)
        case None => Err(InvalidOperation)
        case Some(converted) => Ok(if !converted || d.alwaysEval then selected + [last] else selected)
  }

  /** `Remove(id); Add(id, true)`: an existing flag becomes true in its place; a missing one is added, true, at the end. */
  function MarkConverted(flags: seq<KpiFlag>, id: Guid): (r: seq<KpiFlag>)
    ensures |r| == if id in FlagIds(flags) then |flags| else |flags| + 1
    ensures forall i | 0 <= i < |flags| :: r[i].kpiId == flags[i].kpiId && r[i].converted == (flags[i].converted || flags[i].kpiId == id)
    ensures id !in FlagIds(flags) ==> r[|flags|] == KpiFlag(id, true)
  {
    if id in FlagIds(flags) then
      seq(|flags|, i requires 0 <= i < |flags| => if flags[i].kpiId == id then KpiFlag(id, true) else flags[i])
    else flags + [KpiFlag(id, true)]
  }

  /** The flags after CheckForConversion's loop over the results. */
  function ApplyConversions(flags: seq<KpiFlag>, rs: seq<KpiResult>): seq<KpiFlag>
    decreases |rs|
  {
    if rs == [] then flags
    else ApplyConversions(ConversionStep(flags, rs[0]), rs[1..])
  }

  /** One iteration of that loop. */
  function ConversionStep(flags: seq<KpiFlag>, x: KpiResult): seq<KpiFlag>
  {
    if x.hasConverted then MarkConverted(flags, x.kpiId) else flags
  }

  lemma {:induction false} ApplyConversionsSnoc(flags: seq<KpiFlag>, rs: seq<KpiResult>, x: KpiResult)
    ensures ApplyConversions(flags, rs + [x]) == ConversionStep(ApplyConversions(flags, rs), x)
    decreases |rs|
  {
    if rs == [] {
      assert [x][1..] == [];
    } else {
      assert (rs + [x])[1..] == rs[1..] + [x];
      ApplyConversionsSnoc(ConversionStep(flags, rs[0]), rs[1..], x);
    }
  }

  /** `KpiConversionDictionary.All(x => x.Value)`. */
  predicate AllConverted(flags: seq<KpiFlag>)
  {
    forall i | 0 <= i < |flags| :: flags[i].converted
  }

  /** A longer flag sequence that starts with the same ids finds an existing id at the same position. */
  lemma FlagIndexOfExtension(flags: seq<KpiFlag>, r: seq<KpiFlag>, id: Guid)
    requires |flags| <= |r|
    requires forall i | 0 <= i < |flags| :: r[i].kpiId == flags[i].kpiId
    requires id in FlagIds(flags)
    ensures FlagIndex(r, id) == FlagIndex(flags, id)
  {
    var k := FlagIndex(flags, id);
    var m := FlagIndex(r, id);
    assert r[k].kpiId == id;
    assert id in FlagIds(r);
  }

  /**
   * CheckForConversion's loop never clears a flag: each flag ends true exactly when it was true or a
   * result converted its KPI, a converted KPI without a flag gains one, true, after the existing ones,
   * and afterwards every converted KPI reads as converted.
   */
  lemma {:induction false} ApplyConversionsFlags(flags: seq<KpiFlag>, rs: seq<KpiResult>)
    ensures var r := ApplyConversions(flags, rs);
      && |flags| <= |r|
      && (forall i | 0 <= i < |flags| ::
            r[i].kpiId == flags[i].kpiId && r[i].converted == (flags[i].converted || flags[i].kpiId in ConvertedIds(rs)))
      && (forall i | |flags| <= i < |r| :: r[i].converted && r[i].kpiId in ConvertedIds(rs))
      && (forall id | id in ConvertedIds(rs) :: FlagOf(r, id) == Some(true))
    decreases |rs|
  {
    if rs != [] {
      var next := ConversionStep(flags, rs[0]);
      ApplyConversionsFlags(next, rs[1..]);
      var r := ApplyConversions(flags, rs);
      assert r == ApplyConversions(next, rs[1..]);
      assert ConvertedIds(rs) == (if rs[0].hasConverted then {rs[0].kpiId} else {}) + ConvertedIds(rs[1..]) by {
        assert rs == [rs[0]] + rs[1..];
      }
      forall id | id in ConvertedIds(rs) ensures FlagOf(r, id) == Some(true) {
        if id !in ConvertedIds(rs[1..]) {
          assert rs[0].hasConverted && id == rs[0].kpiId;
          assert id in FlagIds(next) by {
            if id in FlagIds(flags) {
              var k := FlagIndex(flags, id);
              assert next[k].kpiId == id;
            } else {
              assert next[|flags|].kpiId == id;
            }
          }
          FlagIndexOfExtension(next, r, id);
        }
      }
    } else {
      assert ConvertedIds(rs) == {};
    }
  }

  /** Once every flag is true, further results keep it so. */
  lemma AllConvertedStays(flags: seq<KpiFlag>, rs: seq<KpiResult>)
    requires AllConverted(flags)
    ensures AllConverted(ApplyConversions(flags, rs))
  {
    ApplyConversionsFlags(flags, rs);
  }

  /** The record after CheckForConversion: flags updated, Converted recomputed from them. */
  function AfterCheck(d: TestDataCookie, rs: seq<KpiResult>): (r: TestDataCookie)
    ensures r.converted <==> AllConverted(r.kpiConversions)
  {
    var flags := ApplyConversions(d.kpiConversions, rs);
    d.(kpiConversions := flags, converted := AllConverted(flags))
  }

  /**
   * Each Process*Results re-checks the whole record, so a pass whose conversion results complete it
   * finds it complete three times and raises AllKpisConverted three times.
   */
  lemma CompletedStaysCompleted(d: TestDataCookie, conversions: seq<KpiResult>, financial: seq<KpiResult>, values: seq<KpiResult>)
    requires AfterCheck(d, conversions).converted
    ensures AfterCheck(AfterCheck(d, conversions), financial).converted
    ensures AfterCheck(AfterCheck(AfterCheck(d, conversions), financial), values).converted
  {
    AllConvertedStays(AfterCheck(d, conversions).kpiConversions, financial);
    AllConvertedStays(AfterCheck(AfterCheck(d, conversions), financial).kpiConversions, values);
  }

  /**
   * A viewed AlwaysEval record whose flags are all true is evaluated again, with every KPI, and the
   * conversion stage finds it converted whatever the results: each such pass counts another conversion.
   */
  lemma AlwaysEvalConvertsAgain(d: TestDataCookie, kpis: seq<Kpi>, rs: seq<KpiResult>)
    requires d.alwaysEval && d.viewed && AllConverted(d.kpiConversions)
    requires forall k | k in kpis :: k.id in FlagIds(d.kpiConversions)
    ensures !SkipsRecord(d)
    ensures KpisToEvaluate(kpis, d) == Ok(kpis)
    ensures AfterCheck(d, rs).converted
  {
    AllConvertedStays(d.kpiConversions, rs);
  }

  /**
   * A pass that the conversion stage leaves incomplete but a later stage completes: the record is marked
   * converted without the conversion counter being incremented in that pass, and the next pass skips the
   * record unless it has AlwaysEval.
   */
  lemma LateCompletionSkipsNextPass(d: TestDataCookie, conversions: seq<KpiResult>, later: seq<KpiResult>)
    requires !AfterCheck(d, conversions).converted
    requires AfterCheck(AfterCheck(d, conversions), later).converted
    ensures !d.alwaysEval ==> SkipsRecord(AfterCheck(AfterCheck(d, conversions), later))
  {
  }

  /** Flags decoded from a cookie carry every KPI of the test, so selecting KPIs cannot throw for them. */
  lemma DecodedFlagsCoverKpis(d: TestDataCookie, kpis: seq<Kpi>)
    requires FlagIds(d.kpiConversions) == KpiIds(SortById(kpis))
    ensures KpisToEvaluate(kpis, d).Ok?
  {
    SortByIdKeepsIds(kpis);
    forall k | k in kpis ensures k.id in FlagIds(d.kpiConversions) {
      var i :| 0 <= i < |kpis| && kpis[i] == k;
      assert KpiIds(kpis)[i] == k.id;
      assert k.id in multiset(KpiIds(kpis));
      assert k.id in multiset(KpiIds(SortById(kpis)));
    }
  }

  /** EvaluateCookies' test for a record to expire: no active test while it holds data, or a different active test. */
  predicate Stale(d: TestDataCookie, tests: seq<Test>)
  {
    match FirstActiveFor(tests, d.testContentId)
    case None => HasTestData(d)
    case Some(t) => t.id != d.testId
  }
}
