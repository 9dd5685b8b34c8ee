/**
 * What the test handler's operations add up to: which tests a content deletion ends, that stale
 * records read as empty once EvaluateCookies has run, that a visitor enrolled by SetTestData reads
 * back the record that was written, and that a rewritten child listing keeps the original order.
 */
module HandlerLaws {
  import opened Wrappers
  import opened Text
  import opened Entities
  import opened Cookies
  import opened Manager
  import opened KpiOrder
  import opened TestDataCookies
  import opened TestDataCookieLaws
  import opened KpiEvaluation
  import opened Handler

  /*
   * Deleting content (CheckForActiveTests)
   */

  /**
   * Deleting a content version leaves exactly the stored tests that share an id with no active test of
   * that content that the deletion dooms (every one for the published page, those with a variant of
   * that version for a draft).
   */
  lemma DeletionEndsExactlyTheDoomed(tests: seq<Test>, contentGuid: Guid, contentVersion: int)
    ensures var after := StopDeleteAll(tests, Doomed(ActiveTestsFor(tests, contentGuid), contentVersion));
      forall t :: t in after <==>
        t in tests && forall x | x in tests && IsActiveFor(x, contentGuid) && Dooms(x, contentVersion) :: x.id != t.id
  {
    var doomed := Doomed(ActiveTestsFor(tests, contentGuid), contentVersion);
    DoomedMembers(ActiveTestsFor(tests, contentGuid), contentVersion);
    StopDeleteAllMembers(tests, doomed);
  }

  /** After the published page is deleted, the content has no active test left. */
  lemma DeletingPublishedPageEndsItsTests(tests: seq<Test>, contentGuid: Guid)
    ensures ActiveTestsFor(StopDeleteAll(tests, Doomed(ActiveTestsFor(tests, contentGuid), 0)), contentGuid) == []
  {
    var after := StopDeleteAll(tests, Doomed(ActiveTestsFor(tests, contentGuid), 0));
    DeletionEndsExactlyTheDoomed(tests, contentGuid, 0);
    var left := ActiveTestsFor(after, contentGuid);
    if left != [] {
      assert left[0] in after && IsActiveFor(left[0], contentGuid);
      assert Dooms(left[0], 0);
      assert false;
    }
  }

  /** For the published page every active test of the content is doomed, so the count is their number. */
  lemma {:induction false} PublishedPageDoomsAll(tests: seq<Test>)
    ensures Doomed(tests, 0) == tests
  {
    if tests != [] {
      PublishedPageDoomsAll(tests[..|tests| - 1]);
      assert tests == tests[..|tests| - 1] + [tests[|tests| - 1]];
    }
  }

  /** Deleting a draft ends every active test of the content that has a variant of that version. */
  lemma DeletingDraftEndsItsTests(tests: seq<Test>, contentGuid: Guid, contentVersion: int, t: Test)
    requires t in tests && IsActiveFor(t, contentGuid)
    requires exists v | v in t.variants :: v.itemVersion == contentVersion
    ensures forall u | u in StopDeleteAll(tests, Doomed(ActiveTestsFor(tests, contentGuid), contentVersion)) :: u.id != t.id
  {
    DeletionEndsExactlyTheDoomed(tests, contentGuid, contentVersion);
  }

  /*
   * Stale records (EvaluateCookies)
   */

  /** The cookie EvaluateCookies leaves under the name of every stale record: empty, and expired yesterday. */
  lemma {:induction false} StaleCookieIsExpired(response: seq<Cookie>, records: seq<TestDataCookie>, tests: seq<Test>,
                                                settings: CookieSettings, i: nat)
    requires i < |records| && Stale(records[i], tests)
    ensures var name := CurrentCookieName(records[i].testContentId, settings);
      Find(ExpireStale(response, records, tests, settings), name) == Some(Cookie(name, map[], ExpiredYesterday))
  {
    var name := CurrentCookieName(records[i].testContentId, settings);
    var last := |records| - 1;
    var prefix := records[..last];
    var before := ExpireStale(response, prefix, tests, settings);
    if i == last {
      FindReplaced(before, Cookie(name, map[], ExpiredYesterday));
    } else {
      assert prefix[i] == records[i];
      StaleCookieIsExpired(response, prefix, tests, settings, i);
      if Stale(records[last], tests) {
        var other := CurrentCookieName(records[last].testContentId, settings);
        if other == name {
          FindReplaced(before, Cookie(name, map[], ExpiredYesterday));
        } else {
          FindOtherReplaced(before, Cookie(other, map[], ExpiredYesterday), name);
        }
      }
    }
  }

  /** Once EvaluateCookies has run, the record of every stale cookie it read decodes as empty. */
  lemma StaleRecordsReadEmpty(request: seq<Cookie>, response: seq<Cookie>, records: seq<TestDataCookie>, tests: seq<Test>,
                              settings: CookieSettings, i: nat)
    requires i < |records| && Stale(records[i], tests)
    ensures DecodeAt(GuidText(records[i].testContentId), request, ExpireStale(response, records, tests, settings), tests, settings)
      == Ok(Decoded(EmptyRecord(), None))
  {
    StaleCookieIsExpired(response, records, tests, settings, i);
  }

  /** A decoded record is either the empty record or the record of its content's first active test, so it is never stale. */
  lemma DecodedRecordNotStale(contentIdText: string, cookie: Option<Cookie>, tests: seq<Test>, settings: CookieSettings)
    requires DecodeCookie(contentIdText, cookie, tests, settings).Ok?
    ensures var d := DecodeCookie(contentIdText, cookie, tests, settings).value.record;
      d == EmptyRecord() || !Stale(d, tests)
  {
  }

  /**
   * The only record of a scan EvaluateCookies can expire is an empty one, and only when some test of
   * content id EmptyGuid is active: every record read with test data belongs to its content's first active test.
   */
  lemma {:induction false} ScannedRecordsNotStale(names: seq<string>, request: seq<Cookie>, response: seq<Cookie>,
                                                  tests: seq<Test>, settings: CookieSettings)
    requires DecodeAll(names, request, response, tests, settings).Ok?
    ensures var records := DecodeAll(names, request, response, tests, settings).value.records;
      forall i | 0 <= i < |records| && Stale(records[i], tests) ::
        && records[i] == EmptyRecord()
        && FirstActiveFor(tests, EmptyGuid).Some?
        && FirstActiveFor(tests, EmptyGuid).value.id != EmptyGuid
    decreases |names|
  {
    if names != [] {
      var idText := ContentIdText(names[0], settings.delimiter[0]).value;
      var cookie := CookieFor(request, response, CookieName(idText, settings.delimiter, settings.culture));
      var d := DecodeAt(idText, request, response, tests, settings).value;
      DecodedRecordNotStale(idText, cookie, tests, settings);
      ScannedRecordsNotStale(names[1..], request, AfterDecode(response, d, settings), tests, settings);
    }
  }

  /*
   * Enrolment (SetTestData)
   */

  lemma UnconvertedIds(flags: seq<KpiFlag>, kpis: seq<Kpi>)
    ensures FlagIds(flags + Unconverted(kpis)) == FlagIds(flags) + KpiIds(kpis)
  {
  }

  /** Adding an unconverted flag per KPI succeeds exactly when no KPI id repeats, among the KPIs or the flags already present. */
  lemma {:induction false} AddUnconvertedSucceeds(flags: seq<KpiFlag>, kpis: seq<Kpi>)
    requires Distinct(FlagIds(flags))
    ensures AddUnconverted(flags, kpis).Ok? <==> Distinct(FlagIds(flags) + KpiIds(kpis))
  {
    if kpis != [] {
      var prefix := kpis[..|kpis| - 1];
      var last := kpis[|kpis| - 1];
      AddUnconvertedSucceeds(flags, prefix);
      assert KpiIds(kpis) == KpiIds(prefix) + [last.id];
      assert FlagIds(flags) + KpiIds(kpis) == (FlagIds(flags) + KpiIds(prefix)) + [last.id];
      DistinctSnoc(FlagIds(flags) + KpiIds(prefix), last.id);
      if AddUnconverted(flags, prefix).Ok? {
        UnconvertedIds(flags, prefix);
      }
    }
  }

  /** KPIs already in strictly ascending id order are their own sorted order. */
  lemma {:induction false} AscendingKpisSorted(kpis: seq<Kpi>)
    requires StrictlyAscending(KpiIds(kpis))
    ensures SortById(kpis) == kpis
  {
    if kpis != [] {
      assert StrictlyAscending(KpiIds(kpis[1..])) by {
        forall i, j | 0 <= i < j < |kpis| - 1 ensures kpis[1..][i].id < kpis[1..][j].id {
          assert KpiIds(kpis)[i + 1] < KpiIds(kpis)[j + 1];
        }
      }
      AscendingKpisSorted(kpis[1..]);
      if |kpis| > 1 {
        assert KpiIds(kpis)[0] < KpiIds(kpis)[1];
      }
      assert [kpis[0]] + kpis[1..] == kpis;
    }
  }

  /**
   * A visitor without a record whom SetTestData enrols in a test whose KPI ids ascend strictly reads
   * back, from the response it wrote, exactly the record it built; the start date read back is the test's,
   * which the encoder writes in place of the record's unset one.
   */
  lemma FreshRecordReadsBack(test: Test, landing: Variant, tests: seq<Test>, request: seq<Cookie>, response: seq<Cookie>,
                             settings: CookieSettings)
    requires TestById(tests, test.id) == Some(test)
    requires FirstActiveFor(tests, test.originalItemId) == Some(test)
    requires settings.culture == test.contentLanguage && !IsDigit(settings.delimiter[0])
    requires |test.variants| < 0x8000_0000
    requires StrictlyAscending(KpiIds(test.kpis))
    requires landing.id != EmptyGuid ==> VariantWithId(test.variants, landing.id) == Some(landing)
    ensures WithTestData(EmptyRecord(), test, landing).Ok?
    ensures var d := WithTestData(EmptyRecord(), test, landing).value;
      DecodeAt(GuidText(test.originalItemId), request, UpdatedResponse(response, d, tests, settings), tests, settings)
        == Ok(Decoded(d.(testStart := test.startDate), None))
  {
    assert FlagIds([]) + KpiIds(test.kpis) == KpiIds(test.kpis);
    AddUnconvertedSucceeds([], test.kpis);
    var d := WithTestData(EmptyRecord(), test, landing).value;
    var read := d.(testStart := test.startDate);
    UnconvertedIds([], test.kpis);
    AscendingKpisSorted(test.kpis);
    assert EncodeCookie(d, test, settings) == EncodeCookie(read, test, settings);
    assert UpdatedResponse(response, d, tests, settings) == UpdatedResponse(response, read, tests, settings);
    UpdateThenRead(read, tests, test, request, response, settings);
  }

  /*
   * Child listings (LoadedChildren)
   */

  /** When no child was dropped, the rewritten listing names the children in their original order. */
  lemma {:induction false} SurvivingKeepsOrder(outcomes: seq<ChildOutcome>, children: seq<Guid>, tests: seq<Test>)
    requires |outcomes| == |children|
    requires forall i | 0 <= i < |children| :: outcomes[i].Shown? && ListsChild(outcomes[i], children[i], tests)
    ensures |Surviving(outcomes)| == |children|
    ensures forall i | 0 <= i < |children| :: Surviving(outcomes)[i].contentId == children[i]
  {
    if outcomes != [] {
      var n := |outcomes| - 1;
      SurvivingKeepsOrder(outcomes[..n], children[..n], tests);
    }
  }

  /** The rewritten listing never grows: a dropped child is left out, every other child keeps one entry. */
  lemma {:induction false} SurvivingDropsOnlyDropped(outcomes: seq<ChildOutcome>)
    ensures |Surviving(outcomes)| <= |outcomes|
    ensures (exists i | 0 <= i < |outcomes| :: outcomes[i].Dropped?) ==> |Surviving(outcomes)| < |outcomes|
  {
    if outcomes != [] {
      var n := |outcomes| - 1;
      SurvivingDropsOnlyDropped(outcomes[..n]);
      if exists i | 0 <= i < |outcomes| :: outcomes[i].Dropped? {
        var i :| 0 <= i < |outcomes| && outcomes[i].Dropped?;
        if i < n {
          assert outcomes[..n][i].Dropped?;
        }
      }
    }
  }
}
