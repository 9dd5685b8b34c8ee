/**
 * TestDataCookieHelper: how a visitor's test record is written to and read back from the cookie
 * "EPI-MAR-<content id><delimiter><culture>", whose values are `start`, `vId` (the variant's position in
 * the test, or -1), `viewed`, `converted` and one `k<x>` per KPI flag.
 *
 * The pure functions below say what each operation computes; the methods of `TestDataCookieHelper` do it
 * step by step on the cookie collections and are proved to agree with them.
 */
module TestDataCookies {
  import opened Wrappers
  import opened Text
  import opened Entities
  import opened KpiOrder
  import opened Cookies
  import opened Manager

  const CookiePrefix: string := "EPI-MAR-"

  /** The cookie delimiter from the admin settings, assumed non-empty: the code reads its first character, which throws on an empty setting. */
  type Delimiter = s: string | |s| > 0 witness "_"

  /** The configured delimiter and the name of the current content culture. */
  datatype CookieSettings = CookieSettings(delimiter: Delimiter, culture: string)

  function CookieName(contentIdText: string, delimiter: string, culture: string): string
  {
    CookiePrefix + contentIdText + delimiter + culture
  }

  /** The name update, expire and reset use: the record's content id in the current culture. */
  function CurrentCookieName(contentId: Guid, settings: CookieSettings): string
  {
    CookieName(GuidText(contentId), settings.delimiter, settings.culture)
  }

  /*
   * Encoding (SaveTestDataToCookie)
   */

  function FlagKey(x: nat): string
  {
    "k" + NatText(x)
  }

  /** The values k0 .. k(n-1), holding the first n flags of the record in dictionary (insertion) order. */
  function FlagValues(flags: seq<KpiFlag>, n: nat): map<string, string>
    requires n <= |flags|
  {
    if n == 0 then map[] else FlagValues(flags, n - 1)[FlagKey(n - 1) := BoolText(flags[n - 1].converted)]
  }

  /** k<x> holds the x-th flag of the record, and every key the flags add starts with 'k'. */
  lemma {:induction false} FlagValuesRead(flags: seq<KpiFlag>, n: nat)
    requires n <= |flags|
    ensures forall x | 0 <= x < n :: FlagKey(x) in FlagValues(flags, n) && FlagValues(flags, n)[FlagKey(x)] == BoolText(flags[x].converted)
    ensures forall key | key in FlagValues(flags, n) :: |key| > 0 && key[0] == 'k'
    decreases n
  {
    if n > 0 {
      FlagValuesRead(flags, n - 1);
      forall x | 0 <= x < n - 1 ensures FlagKey(x) != FlagKey(n - 1) {
        if FlagKey(x) == FlagKey(n - 1) {
          assert NatText(x) == FlagKey(x)[1..] == FlagKey(n - 1)[1..] == NatText(n - 1);
          NatTextInjective(x, n - 1);
        }
      }
    }
  }

  /** vId: -1 for a visitor who is not a participant, else the position of the record's variant in the test. */
  function EncodedVariantIndex(d: TestDataCookie, test: Test): (k: int)
    ensures -1 <= k < |test.variants|
    ensures k >= 0 ==> IsTestParticipant(d) && test.variants[k].id == d.testVariantId
    ensures k == -1 <==> !IsTestParticipant(d) || forall j | 0 <= j < |test.variants| :: test.variants[j].id != d.testVariantId
  {
    if d.testVariantId == EmptyGuid then -1 else VariantIndexOf(test.variants, d.testVariantId)
  }

  function HeaderValues(start: int, vId: int, viewed: bool, converted: bool): map<string, string>
  {
    map["start" := IntText(start), "vId" := IntText(vId), "viewed" := BoolText(viewed), "converted" := BoolText(converted)]
  }

  function EncodedValues(d: TestDataCookie, test: Test): map<string, string>
  {
    HeaderValues(test.startDate, EncodedVariantIndex(d, test), d.viewed, d.converted)
      + FlagValues(d.kpiConversions, |d.kpiConversions|)
  }

  /** The cookie SaveTestDataToCookie adds for a record whose test is `test`. */
  function EncodeCookie(d: TestDataCookie, test: Test, settings: CookieSettings): Cookie
  {
    Cookie(CookieName(GuidText(d.testContentId), settings.delimiter, test.contentLanguage), EncodedValues(d, test), ExpiresAt(test.endDate))
  }

  /** A key that is not among the flag keys reads the header value. */
  lemma HeaderKeyRead(header: map<string, string>, flags: map<string, string>, key: string)
    requires forall k | k in flags :: |k| > 0 && k[0] == 'k'
    requires key in header && |key| > 0 && key[0] != 'k'
    ensures Lookup(header + flags, key) == Some(header[key])
  {
    assert key !in flags;
  }

  /** What each value of an encoded cookie holds. */
  lemma EncodedValuesRead(d: TestDataCookie, test: Test)
    ensures var values := EncodedValues(d, test);
      && Lookup(values, "start") == Some(IntText(test.startDate))
      && Lookup(values, "vId") == Some(IntText(EncodedVariantIndex(d, test)))
      && Lookup(values, "viewed") == Some(BoolText(d.viewed))
      && Lookup(values, "converted") == Some(BoolText(d.converted))
      && forall x | 0 <= x < |d.kpiConversions| :: Lookup(values, FlagKey(x)) == Some(BoolText(d.kpiConversions[x].converted))
  {
    var header := HeaderValues(test.startDate, EncodedVariantIndex(d, test), d.viewed, d.converted);
    var flags := FlagValues(d.kpiConversions, |d.kpiConversions|);
    FlagValuesRead(d.kpiConversions, |d.kpiConversions|);
    assert header["start"] == IntText(test.startDate);
    assert header["vId"] == IntText(EncodedVariantIndex(d, test));
    assert header["viewed"] == BoolText(d.viewed);
    assert header["converted"] == BoolText(d.converted);
    HeaderKeyRead(header, flags, "start");
    HeaderKeyRead(header, flags, "vId");
    HeaderKeyRead(header, flags, "viewed");
    HeaderKeyRead(header, flags, "converted");
  }

  lemma MergeThenStore(header: map<string, string>, flags: map<string, string>, key: string, value: string)
    ensures (header + flags)[key := value] == header + flags[key := value]
  {
  }

  /** The response cookies after UpdateTestDataCookie: the current culture's cookie replaced by the encoded record. */
  function UpdatedResponse(response: seq<Cookie>, d: TestDataCookie, tests: seq<Test>, settings: CookieSettings): seq<Cookie>
  {
    var removed := Without(response, CurrentCookieName(d.testContentId, settings));
    match TestById(tests, d.testId)
    case None => removed
    case Some(test) => removed + [EncodeCookie(d, test, settings)]
  }

  /** The response cookies after ExpireTestDataCookie: an empty cookie that expired yesterday under that name. */
  function ExpiredResponse(response: seq<Cookie>, name: string): seq<Cookie>
  {
    Without(response, name) + [Cookie(name, map[], ExpiredYesterday)]
  }

  /** The response cookies after ResetTestDataCookie: an empty session cookie under that name. */
  function ResetResponse(response: seq<Cookie>, name: string): seq<Cookie>
  {
    Without(response, name) + [Cookie(name, map[], SessionOnly)]
  }

  /*
   * Decoding (GetTestDataFromCookie)
   */

  /** What decoding gives: the record, and the content id whose cookie is expired on the way, if any. */
  datatype Decoded = Decoded(record: TestDataCookie, expire: Option<Guid>)

  /** The cookie read under a name: the response's when the response has one, else the request's. */
  function CookieFor(request: seq<Cookie>, response: seq<Cookie>, name: string): Option<Cookie>
  {
    if name in Names(response) then Find(response, name) else Find(request, name)
  }

  /** `int.TryParse(text, out v) ? v : -1`. */
  function VariantIndexValue(text: Option<string>): int
  {
    if text.None? then -1
    else match ParseInt32(text.value)
      case Some(i) => i
      case None => -1
  }

  /**
   * The flags the decoder builds for the first n KPIs in `kpis` (the test's KPIs sorted by id): flag x
   * belongs to KPI x and holds `k<x>` read as a Boolean, false when missing or unparseable; two KPIs with
   * the same id make Dictionary.Add throw.
   */
  function DecodedFlags(kpis: seq<Kpi>, values: map<string, string>, n: nat): (r: Result<seq<KpiFlag>>)
    requires n <= |kpis|
    ensures r.Ok? <==> Distinct(KpiIds(kpis[..n]))
    ensures r.Err? ==> r.error == DuplicateKey
    ensures r.Ok? ==> |r.value| == n && forall x | 0 <= x < n ::
      r.value[x] == KpiFlag(kpis[x].id, FlagValue(Lookup(values, FlagKey(x))))
    decreases n
  {
    if n == 0 then Ok([])
    else
      match DecodedFlags(kpis, values, n - 1)
      case Err(e) =>
        DistinctSnoc(KpiIds(kpis[..n - 1]), kpis[n - 1].id);
        assert KpiIds(kpis[..n]) == KpiIds(kpis[..n - 1]) + [kpis[n - 1].id];
        Err(e)
      case Ok(flags) =>
        DecodedFlagsStep(kpis, values, n, flags);
        AddFlag(flags, kpis[n - 1].id, FlagValue(Lookup(values, FlagKey(n - 1))))
  }

  /** One more KPI extends the decoded flags by its own flag, and fails exactly when its id repeats. */
  lemma DecodedFlagsStep(kpis: seq<Kpi>, values: map<string, string>, n: nat, flags: seq<KpiFlag>)
    requires 0 < n <= |kpis|
    requires Distinct(KpiIds(kpis[..n - 1]))
    requires |flags| == n - 1 && forall x | 0 <= x < n - 1 ::
      flags[x] == KpiFlag(kpis[x].id, FlagValue(Lookup(values, FlagKey(x))))
    ensures var r := AddFlag(flags, kpis[n - 1].id, FlagValue(Lookup(values, FlagKey(n - 1))));
      && (r.Ok? <==> Distinct(KpiIds(kpis[..n])))
      && (r.Ok? ==> |r.value| == n && forall x | 0 <= x < n ::
            r.value[x] == KpiFlag(kpis[x].id, FlagValue(Lookup(values, FlagKey(x)))))
  {
    assert KpiIds(kpis[..n]) == KpiIds(kpis[..n - 1]) + [kpis[n - 1].id];
    assert FlagIds(flags) == KpiIds(kpis[..n - 1]);
    DistinctSnoc(KpiIds(kpis[..n - 1]), kpis[n - 1].id);
  }

  /** Decoding the cookie found under the name built from `contentIdText`, checked against the active tests. */
  function DecodeCookie(contentIdText: string, cookie: Option<Cookie>, tests: seq<Test>, settings: CookieSettings): (r: Result<Decoded>)
    ensures r.Ok? && r.value.expire.Some? ==> r.value.record == EmptyRecord()
    ensures r.Ok? && HasTestData(r.value.record) ==>
      && FirstActiveFor(tests, r.value.record.testContentId).Some?
      && var test := FirstActiveFor(tests, r.value.record.testContentId).value;
      && r.value.record.testId == test.id
      && r.value.record.testStart == test.startDate
      && FlagIds(r.value.record.kpiConversions) == KpiIds(SortById(test.kpis))
  {
    if cookie.None? || cookie.value.values == map[] || "start" !in cookie.value.values then
      Ok(Decoded(EmptyRecord(), None))
    else
      var values := cookie.value.values;
      var name := CookieName(contentIdText, settings.delimiter, settings.culture);
      var contentId := ParseGuidOrEmpty(FirstSegment(name[|CookiePrefix|..], settings.delimiter[0]));
      match ParseInteger(values["start"])
      case None => Err(Format)
      case Some(start) =>
        match FirstActiveFor(tests, contentId)
        case None => Ok(Decoded(EmptyRecord(), Some(contentId)))
        case Some(test) =>
          if IntText(start) != IntText(test.startDate) then Ok(Decoded(EmptyRecord(), Some(contentId)))
          else
            var index := VariantIndexValue(Lookup(values, "vId"));
            if index != -1 && !(0 <= index < |test.variants|) then Err(ArgumentOutOfRange)
            else
              var kpis := SortById(test.kpis);
              match DecodedFlags(kpis, values, |kpis|)
              case Err(e) => Err(e)
              case Ok(flags) =>
                IntTextInjective(start, test.startDate);
                assert kpis[..|kpis|] == kpis;
                assert FlagIds(flags) == KpiIds(kpis);
                Ok(Decoded(
                  TestDataCookie(
                    test.id,
                    contentId,
                    if index != -1 then test.variants[index].id else EmptyGuid,
                    start,
                    FlagValue(Lookup(values, "viewed")),
                    FlagValue(Lookup(values, "converted")),
                    index != -1 && !test.variants[index].isPublished,
                    LastAlwaysEval(kpis, false),
                    flags),
                  None))
  }

  /** GetTestDataFromCookie(contentIdText) against the given cookie collections. */
  function DecodeAt(contentIdText: string, request: seq<Cookie>, response: seq<Cookie>, tests: seq<Test>, settings: CookieSettings): Result<Decoded>
  {
    DecodeCookie(contentIdText, CookieFor(request, response, CookieName(contentIdText, settings.delimiter, settings.culture)), tests, settings)
  }

  /** The response cookies after a decoding that expires the cookie it names. */
  function AfterDecode(response: seq<Cookie>, d: Decoded, settings: CookieSettings): seq<Cookie>
  {
    if d.expire.Some? then ExpiredResponse(response, CurrentCookieName(d.expire.value, settings)) else response
  }

  /*
   * Scanning every test cookie (GetTestDataFromCookies)
   */

  /** The keys among `keys` that contain the prefix and are not in `exclude`, in order. */
  function PrefixedKeys(keys: seq<string>, exclude: seq<string>): (r: seq<string>)
    ensures forall k :: k in r <==> k in keys && Contains(k, CookiePrefix) && k !in exclude
  {
    if keys == [] then []
    else if Contains(keys[0], CookiePrefix) && keys[0] !in exclude then [keys[0]] + PrefixedKeys(keys[1..], exclude)
    else PrefixedKeys(keys[1..], exclude)
  }

  /** The order in which cookie names are decoded: prefixed response keys, then prefixed request keys the response does not have. */
  function ReadOrder(responseKeys: seq<string>, requestKeys: seq<string>): seq<string>
  {
    PrefixedKeys(responseKeys, []) + PrefixedKeys(requestKeys, responseKeys)
  }

  /** `name.Split(delimiter)[0].Substring(COOKIE_PREFIX.Length)`, which throws when that segment is too short. */
  function ContentIdText(name: string, delimiter: char): Result<string>
  {
    var segment := FirstSegment(name, delimiter);
    if |segment| < |CookiePrefix| then Err(ArgumentOutOfRange) else Ok(segment[|CookiePrefix|..])
  }

  datatype Scan = Scan(records: seq<TestDataCookie>, response: seq<Cookie>)

  /** Decoding the cookies named by `names` in turn, each decoding seeing the expirations of those before it. */
  function DecodeAll(names: seq<string>, request: seq<Cookie>, response: seq<Cookie>, tests: seq<Test>, settings: CookieSettings): (r: Result<Scan>)
    ensures r.Ok? ==> |r.value.records| == |names|
    decreases |names|
  {
    if names == [] then Ok(Scan([], response))
    else match ContentIdText(names[0], settings.delimiter[0])
      case Err(e) => Err(e)
      case Ok(idText) =>
        match DecodeAt(idText, request, response, tests, settings)
        case Err(e) => Err(e)
        case Ok(d) =>
          match DecodeAll(names[1..], request, AfterDecode(response, d, settings), tests, settings)
          case Err(e) => Err(e)
          case Ok(rest) => Ok(Scan([d.record] + rest.records, rest.response))
  }

  function Prepend(records: seq<TestDataCookie>, r: Result<Scan>): Result<Scan>
  {
    match r
    case Err(e) => Err(e)
    case Ok(s) => Ok(Scan(records + s.records, s.response))
  }

  /** The cookie SaveTestDataToCookie fills in, value by value. */
  method BuildCookie(d: TestDataCookie, test: Test, settings: CookieSettings) returns (c: Cookie)
    ensures c == EncodeCookie(d, test, settings)
  {
    var varIndex := -1;
    if d.testVariantId != EmptyGuid {
      varIndex := VariantIndexOf(test.variants, d.testVariantId);
    }
    var name := CookieName(GuidText(d.testContentId), settings.delimiter, test.contentLanguage);
    var header := HeaderValues(test.startDate, varIndex, d.viewed, d.converted);
    var values := header;
    var flags := d.kpiConversions;
    for x := 0 to |flags|
      invariant values == header + FlagValues(flags, x)
    {
      MergeThenStore(header, FlagValues(flags, x), FlagKey(x), BoolText(flags[x].converted));
      values := values[FlagKey(x) := BoolText(flags[x].converted)];
    }
    assert varIndex == EncodedVariantIndex(d, test);
    assert header == HeaderValues(test.startDate, EncodedVariantIndex(d, test), d.viewed, d.converted);
    assert values == header + FlagValues(d.kpiConversions, |d.kpiConversions|);
    return Cookie(name, values, ExpiresAt(test.endDate));
  }

  /** The flags for one more KPI are those for the earlier KPIs with that KPI's flag added. */
  lemma DecodedFlagsNext(kpis: seq<Kpi>, values: map<string, string>, x: nat, read: seq<KpiFlag>)
    requires x < |kpis| && DecodedFlags(kpis, values, x) == Ok(read)
    ensures DecodedFlags(kpis, values, x + 1) == AddFlag(read, kpis[x].id, FlagValue(Lookup(values, FlagKey(x))))
  {
  }

  /** The KPI loop of GetTestDataFromCookie: one flag per KPI, read from the key of its position. */
  method ReadKpiFlags(kpis: seq<Kpi>, values: map<string, string>) returns (flags: Result<seq<KpiFlag>>, alwaysEval: bool)
    ensures flags == DecodedFlags(kpis, values, |kpis|)
    ensures flags.Ok? ==> alwaysEval == LastAlwaysEval(kpis, false)
  {
    var read: seq<KpiFlag> := [];
    alwaysEval := false;
    for x := 0 to |kpis|
      invariant DecodedFlags(kpis, values, x) == Ok(read)
      invariant |read| == x
      invariant alwaysEval == LastAlwaysEval(kpis[..x], false)
    {
      DecodedFlagsNext(kpis, values, x, read);
      var added := AddFlag(read, kpis[x].id, FlagValue(Lookup(values, FlagKey(x))));
      if added.Err? {
        DuplicatePersists(kpis, values, x + 1);
        return Err(added.error), alwaysEval;
      }
      read := added.value;
      alwaysEval := kpis[x].kpiType.alwaysEvaluate;
    }
    assert kpis[..|kpis|] == kpis;
    flags := Ok(read);
  }

  /**
   * The body of GetTestDataFromCookie once the cookie is found: the values read one by one and the KPI
   * flags filled in a loop over the KPIs sorted by id.
   */
  method ReadTestData(contentIdText: string, cookie: Option<Cookie>, tests: seq<Test>, settings: CookieSettings)
    returns (r: Result<Decoded>)
    ensures r == DecodeCookie(contentIdText, cookie, tests, settings)
  {
    var delimiter := settings.delimiter;
    var cookieKey := CookieName(contentIdText, delimiter, settings.culture);
    if cookie.None? || cookie.value.values == map[] || "start" !in cookie.value.values {
      return Ok(Decoded(EmptyRecord(), None));
    }
    var values := cookie.value.values;
    var contentId := ParseGuidOrEmpty(FirstSegment(cookieKey[|CookiePrefix|..], delimiter[0]));
    var start := ParseInteger(values["start"]);
    if start.None? {
      return Err(Format);
    }
    var viewed := FlagValue(Lookup(values, "viewed"));
    var converted := FlagValue(Lookup(values, "converted"));
    var active := FirstActiveFor(tests, contentId);
    if active.Some? && IntText(start.value) == IntText(active.value.startDate) {
      var test := active.value;
      var index := VariantIndexValue(Lookup(values, "vId"));
      if index != -1 && !(0 <= index < |test.variants|) {
        return Err(ArgumentOutOfRange);
      }
      var variantId := if index != -1 then test.variants[index].id else EmptyGuid;
      var showVariant := index != -1 && !test.variants[index].isPublished;
      var kpis := SortById(test.kpis);
      var flags, alwaysEval := ReadKpiFlags(kpis, values);
      if flags.Err? {
        return Err(flags.error);
      }
      return Ok(Decoded(TestDataCookie(test.id, contentId, variantId, start.value, viewed, converted, showVariant, alwaysEval, flags.value), None));
    } else {
      return Ok(Decoded(EmptyRecord(), Some(contentId)));
    }
  }

  class TestDataCookieHelper {
    const http: HttpCookies
    const manager: TestManager
    const settings: CookieSettings

    constructor (http: HttpCookies, manager: TestManager, settings: CookieSettings)
      ensures this.http == http && this.manager == manager && this.settings == settings
    {
      this.http := http;
      this.manager := manager;
      this.settings := settings;
    }

    /** Adds the encoded record; throws (NullReference) when the record's test is unknown to the manager. */
    method SaveTestDataToCookie(d: TestDataCookie) returns (o: Outcome)
      modifies http
      ensures o.Pass? <==> manager.Get(d.testId).Some?
      ensures o.Fail? ==> o.error == NullReference && http.response == old(http.response)
      ensures o.Pass? ==> http.response == old(http.response) + [EncodeCookie(d, manager.Get(d.testId).value, settings)]
    {
      var aTest := manager.Get(d.testId);
      if aTest.None? {
        return Fail(NullReference);
      }
      var cookieData := BuildCookie(d, aTest.value, settings);
      http.AddCookie(cookieData);
      return Pass;
    }

    /** Removes the current culture's cookie for the record's content, then saves the record. */
    method UpdateTestDataCookie(d: TestDataCookie) returns (o: Outcome)
      modifies http
      ensures o.Pass? <==> manager.Get(d.testId).Some?
      ensures o.Fail? ==> o.error == NullReference
      ensures http.response == UpdatedResponse(old(http.response), d, manager.tests, settings)
    {
      http.RemoveCookie(CurrentCookieName(d.testContentId, settings));
      o := SaveTestDataToCookie(d);
    }

    method ExpireTestDataCookie(d: TestDataCookie)
      modifies http
      ensures http.response == ExpiredResponse(old(http.response), CurrentCookieName(d.testContentId, settings))
    {
      var cookieKey := CurrentCookieName(d.testContentId, settings);
      http.RemoveCookie(cookieKey);
      http.AddCookie(Cookie(cookieKey, map[], ExpiredYesterday));
    }

    method ResetTestDataCookie(d: TestDataCookie) returns (r: TestDataCookie)
      modifies http
      ensures r == EmptyRecord()
      ensures http.response == ResetResponse(old(http.response), CurrentCookieName(d.testContentId, settings))
    {
      var cookieKey := CurrentCookieName(d.testContentId, settings);
      http.RemoveCookie(cookieKey);
      http.AddCookie(Cookie(cookieKey, map[], SessionOnly));
      return EmptyRecord();
    }

    /** Reads the record of one content item in the current culture; proved to compute DecodeAt. */
    method GetTestDataFromCookie(contentIdText: string) returns (r: Result<TestDataCookie>)
      modifies http
      ensures var d := DecodeAt(contentIdText, http.request, old(http.response), manager.tests, settings);
        && (r.Ok? <==> d.Ok?)
        && (r.Ok? ==> r.value == d.value.record && http.response == AfterDecode(old(http.response), d.value, settings))
        && (r.Err? ==> r.error == d.error && http.response == old(http.response))
    {
      var cookieKey := CookieName(contentIdText, settings.delimiter, settings.culture);
      var cookie := if http.HasCookie(cookieKey) then Find(http.response, cookieKey) else Find(http.request, cookieKey);
      var decoded := ReadTestData(contentIdText, cookie, manager.tests, settings);
      if decoded.Err? {
        return Err(decoded.error);
      }
      if decoded.value.expire.Some? {
        ExpireTestDataCookie(EmptyRecord().(testContentId := decoded.value.expire.value));
      }
      return Ok(decoded.value.record);
    }

    /** Reads every test cookie of the request and response, in ReadOrder; proved to compute DecodeAll. */
    method GetTestDataFromCookies() returns (r: Result<seq<TestDataCookie>>)
      modifies http
      ensures var expected := DecodeAll(ReadOrder(Names(old(http.response)), Names(http.request)),
                                        http.request, old(http.response), manager.tests, settings);
        && (r.Ok? <==> expected.Ok?)
        && (r.Ok? ==> r.value == expected.value.records && http.response == expected.value.response)
        && (r.Err? ==> r.error == expected.error)
    {
      var delimiter := settings.delimiter[0];
      var names := ReadOrder(Names(http.response), Names(http.request));
      ghost var expected := DecodeAll(names, http.request, http.response, manager.tests, settings);
      var records: seq<TestDataCookie> := [];
      assert names[0..] == names;
      PrependNothing(expected);
      for i := 0 to |names|
        invariant Prepend(records, DecodeAll(names[i..], http.request, http.response, manager.tests, settings)) == expected
      {
        ghost var before := http.response;
        var idText := ContentIdText(names[i], delimiter);
        if idText.Err? {
          ScanFails(records, names, i, http.request, before, manager.tests, settings);
          return Err(idText.error);
        }
        var d := GetTestDataFromCookie(idText.value);
        if d.Err? {
          ScanFails(records, names, i, http.request, before, manager.tests, settings);
          return Err(d.error);
        }
        ScanStep(records, names, i, http.request, before, http.response, manager.tests, settings, d.value);
        records := records + [d.value];
      }
      assert names[|names|..] == [];
      assert records + [] == records;
      return Ok(records);
    }
  }

  /** One step of DecodeAll: the first name's decoding, then the rest against the cookies it leaves. */
  lemma DecodeAllStep(names: seq<string>, request: seq<Cookie>, response: seq<Cookie>, tests: seq<Test>, settings: CookieSettings)
    requires names != []
    ensures ContentIdText(names[0], settings.delimiter[0]).Err? ==>
      DecodeAll(names, request, response, tests, settings) == Err(ContentIdText(names[0], settings.delimiter[0]).error)
    ensures ContentIdText(names[0], settings.delimiter[0]).Ok? ==>
      var d := DecodeAt(ContentIdText(names[0], settings.delimiter[0]).value, request, response, tests, settings);
      && (d.Err? ==> DecodeAll(names, request, response, tests, settings) == Err(d.error))
      && (d.Ok? ==>
            DecodeAll(names, request, response, tests, settings)
            == Prepend([d.value.record], DecodeAll(names[1..], request, AfterDecode(response, d.value, settings), tests, settings)))
  {
  }

  /** One successful step of GetTestDataFromCookies' loop, in terms of DecodeAll. */
  lemma ScanStep(records: seq<TestDataCookie>, names: seq<string>, i: nat, request: seq<Cookie>, before: seq<Cookie>,
                 after: seq<Cookie>, tests: seq<Test>, settings: CookieSettings, record: TestDataCookie)
    requires i < |names| && ContentIdText(names[i], settings.delimiter[0]).Ok?
    requires var d := DecodeAt(ContentIdText(names[i], settings.delimiter[0]).value, request, before, tests, settings);
      d.Ok? && record == d.value.record && after == AfterDecode(before, d.value, settings)
    ensures Prepend(records, DecodeAll(names[i..], request, before, tests, settings))
         == Prepend(records + [record], DecodeAll(names[i + 1..], request, after, tests, settings))
  {
    var rest := names[i..];
    assert rest[0] == names[i] && rest[1..] == names[i + 1..];
    DecodeAllStep(rest, request, before, tests, settings);
    PrependTwice(records, record, DecodeAll(names[i + 1..], request, after, tests, settings));
  }

  /** A failing step of GetTestDataFromCookies' loop fails the whole scan with the same exception. */
  lemma ScanFails(records: seq<TestDataCookie>, names: seq<string>, i: nat, request: seq<Cookie>, before: seq<Cookie>,
                  tests: seq<Test>, settings: CookieSettings)
    requires i < |names|
    ensures ContentIdText(names[i], settings.delimiter[0]).Err? ==>
      Prepend(records, DecodeAll(names[i..], request, before, tests, settings)) == Err(ContentIdText(names[i], settings.delimiter[0]).error)
    ensures ContentIdText(names[i], settings.delimiter[0]).Ok? ==>
      var d := DecodeAt(ContentIdText(names[i], settings.delimiter[0]).value, request, before, tests, settings);
      d.Err? ==> Prepend(records, DecodeAll(names[i..], request, before, tests, settings)) == Err(d.error)
  {
    var rest := names[i..];
    assert rest[0] == names[i];
    DecodeAllStep(rest, request, before, tests, settings);
  }

  lemma PrependNothing(r: Result<Scan>)
    ensures Prepend([], r) == r
  {
    if r.Ok? {
      assert [] + r.value.records == r.value.records;
    }
  }

  lemma PrependTwice(records: seq<TestDataCookie>, record: TestDataCookie, r: Result<Scan>)
    ensures Prepend(records, Prepend([record], r)) == Prepend(records + [record], r)
  {
    if r.Ok? {
      assert records + ([record] + r.value.records) == (records + [record]) + r.value.records;
    }
  }

  lemma {:induction false} DuplicatePersists(kpis: seq<Kpi>, values: map<string, string>, n: nat)
    requires n <= |kpis| && DecodedFlags(kpis, values, n).Err?
    ensures DecodedFlags(kpis, values, |kpis|).Err?
    decreases |kpis| - n
  {
    if n < |kpis| {
      DuplicatePersists(kpis, values, n + 1);
    }
  }
}
