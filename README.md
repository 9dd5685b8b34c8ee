# EPiServer Marketing A/B testing: request-time engine and bookkeeping

This project is a Dafny model of the request-time core of the EPiServer Marketing A/B testing add-on,
with proofs about that model. The model covers three parts.

- **The visitor test-data cookie** (`TestDataCookieHelper`). Each visitor's record for a test is an
  `EPI-MAR-<content id><delimiter><culture>` cookie with the sub-keys `start`, `vId`, `viewed`,
  `converted` and `k0..kn`. The helper encodes and decodes that cookie, and checks a decoded record
  against the content's active test. It also expires, resets and scans these cookies.
- **The test handler** (`TestHandler`). It does the following:
  - enrols visitors (`SetTestData`);
  - swaps in variant content;
  - counts a view at most once per record (`EvaluateViews`);
  - expires stale records (`EvaluateCookies`);
  - selects the KPIs to evaluate and updates the conversion flags (`EvaluateKpis`, `CheckForConversion`,
    `Process*Results`);
  - cleans up tests when content is deleted (`CheckForActiveTests`);
  - keeps the proxy event handler subscribed once per KPI type while any KPI of that type is in an
    active test (`Add/RemoveProxyEventHandler`).
- **Test bookkeeping**:
  - `MarketingTestingWebRepository`: active-test selection, test construction and publishing the winner;
  - `MultivariateTestRepository`: choosing the winning result and counting views and conversions;
  - `TestingMessageHandler`: turning messages into counter operations;
  - `ConfigurationMonitor`: switching testing on or off and raising the cache signal.

## Modelling choices

- Modules:
  - `wrappers.dfy` holds `Option`, `Result` and the exceptions the code can throw.
  - `text.dfy` holds the textual forms the code writes and parses: decimal integers, `Int32`, the
    Booleans `True`/`False`, and the first segment of `Split`.
  - `entities.dfy` holds tests, variants, KPIs and the visitor record.
- Identifiers and dates:
  - Guids are natural numbers, with 0 as `Guid.Empty`.
  - Dates are whole seconds. `DateTime.ToString` and `DateTime.Parse` are a decimal writer and its parser.
- Cookies and collaborators:
  - HTTP cookie collections are sequences of cookies: lookup takes the first match by name, `Remove`
    removes every cookie of that name, and `Add` appends.
  - The test manager, the HTTP context helper and the multivariate test manager are classes. Their
    state is the stored tests, and they keep a log of the calls they received. Their implementations
    are not part of this model.
- Evaluation inputs:
  - Raised marketing events and handler subscriptions are ghost logs.
  - The database mode, the swap-disabled test, the "requested content" test, the per-request skip
    flags, the landing-page choice and the KPI evaluator are parameters.
- Exceptions:
  - A thrown exception is an `Err`/`Fail` value.
  - Where the code catches an exception, the model catches it too.
- Types of state:
  - State the code mutates in place is a class field: response cookies, stored tests, the reference
    counter, the subscriptions, the published links and the monitor's switches.
  - Values the code only builds are datatypes: records, tests and view models.
- Decoding a cookie can throw, and the model returns each of these as an `Err`:
  - when `start` does not parse (TestDataCookieHelper.cs line 133);
  - when `vId` is out of range for the test's variants (line 142);
  - when the test has two KPIs with one id (line 153);
  - when the scan cuts a cookie name too short for the prefix (line 215).

## Model

| member | source | states |
|---|---|---|
| Text.ParseIntegerText | src/EPiServer.Marketing.Testing.Web/Helpers/TestDataCookieHelper.cs:133 | a start date written by ToString parses back to the same date |
| Text.ParseBoolText | src/EPiServer.Marketing.Testing.Web/Helpers/TestDataCookieHelper.cs:134-135 | bool.TryParse reads back what bool.ToString wrote |
| Text.ParseInt32Text | src/EPiServer.Marketing.Testing.Web/Helpers/TestDataCookieHelper.cs:141 | int.TryParse reads back every Int32 written by ToString |
| Text.FirstSegmentBefore | src/EPiServer.Marketing.Testing.Web/Helpers/TestDataCookieHelper.cs:129 | Split(c)[0] of `a + c + b` is `a` when `a` holds no `c` |
| Entities.EmptyRecordIsBlank | src/EPiServer.Marketing.Testing.Web/Helpers/TestDataCookieHelper.cs:49-62 | a fresh record has no test data and is not a participant |
| Entities.VariantIndexOf | src/EPiServer.Marketing.Testing.Web/Helpers/TestDataCookieHelper.cs:75 | FindIndex: the first variant with the id, or -1 when none has it |
| Entities.AddFlag | src/EPiServer.Marketing.Testing.Web/TestHandler/TestHandler.cs:280 | Dictionary.Add fails with DuplicateKey exactly when the key is present; otherwise the entry goes after the existing ones, the new key reads back the value added and every other key reads back what it read before |
| Entities.AppendedFlagLookup | src/EPiServer.Marketing.Testing.Web/TestHandler/TestHandler.cs:280 | adding an absent key extends the key list by exactly that key, keeps distinct keys distinct, and changes no other key's lookup |
| Entities.ActiveTestsFor | src/EPiServer.Marketing.Testing.Web/TestHandler/TestHandler.cs:132 | GetActiveTestsByOriginalItemId gives exactly the active tests of the content |
| KpiOrder.SortByIdSorted | src/EPiServer.Marketing.Testing.Web/Helpers/TestDataCookieHelper.cs:146 | OrderBy(x => x.Id) gives KPIs in ascending id order |
| KpiOrder.SortByIdPermutes | src/EPiServer.Marketing.Testing.Web/Helpers/TestDataCookieHelper.cs:146 | the ordered KPI list is a permutation of the test's KPIs |
| KpiOrder.SortByIdKeepsIds | src/EPiServer.Marketing.Testing.Web/Helpers/TestDataCookieHelper.cs:146 | ordering keeps the multiset of KPI ids |
| KpiOrder.SortedIdsMatchFlags | src/EPiServer.Marketing.Testing.Web/Helpers/TestDataCookieHelper.cs:146-153 | when the flags hold the KPI ids in ascending order, the decoder's KPI order is the flag order |
| TestDataCookies.FlagValuesRead | src/EPiServer.Marketing.Testing.Web/Helpers/TestDataCookieHelper.cs:89-92 | `k<x>` holds the x-th flag of the dictionary in insertion order, written as True/False |
| TestDataCookies.EncodedVariantIndex | src/EPiServer.Marketing.Testing.Web/Helpers/TestDataCookieHelper.cs:71-81 | vId is the index of TestVariantId among the variants, and -1 when the record is no participant or no variant has that id |
| TestDataCookies.EncodedValuesRead | src/EPiServer.Marketing.Testing.Web/Helpers/TestDataCookieHelper.cs:78-92 | the encoded cookie carries the test's start, vId, viewed, converted and one `k` value per flag |
| TestDataCookies.BuildCookie | src/EPiServer.Marketing.Testing.Web/Helpers/TestDataCookieHelper.cs:78-92 | the loop that fills `k0..kn` builds exactly the encoded cookie |
| TestDataCookies.DecodedFlags | src/EPiServer.Marketing.Testing.Web/Helpers/TestDataCookieHelper.cs:149-155 | flag x belongs to the x-th KPI in id order and is `k<x>` read as a Boolean (false when missing or unparseable); a repeated KPI id throws DuplicateKey |
| TestDataCookies.ReadKpiFlags | src/EPiServer.Marketing.Testing.Web/Helpers/TestDataCookieHelper.cs:146-155 | the decoder's loop computes those flags, and AlwaysEval is the last KPI's attribute |
| TestDataCookies.DecodeCookie | src/EPiServer.Marketing.Testing.Web/Helpers/TestDataCookieHelper.cs:123-165 | a decoding that expires the cookie gives the empty record; a record with data belongs to the content's active test, carries its id and start date, and has one flag per KPI in ascending id order |
| TestDataCookies.ReadTestData | src/EPiServer.Marketing.Testing.Web/Helpers/TestDataCookieHelper.cs:123-165 | the field-by-field decoder computes DecodeCookie |
| TestDataCookies.PrefixedKeys | src/EPiServer.Marketing.Testing.Web/Helpers/TestDataCookieHelper.cs:213-221 | the scan keeps exactly the keys that contain the prefix and are not excluded |
| TestDataCookies.DecodeAll | src/EPiServer.Marketing.Testing.Web/Helpers/TestDataCookieHelper.cs:207-223 | a successful scan gives one record per name read |
| TestDataCookies.TestDataCookieHelper.SaveTestDataToCookie | src/EPiServer.Marketing.Testing.Web/Helpers/TestDataCookieHelper.cs:68-95 | adds the encoded record when the test is known; an unknown test throws NullReference and adds nothing |
| TestDataCookies.TestDataCookieHelper.UpdateTestDataCookie | src/EPiServer.Marketing.Testing.Web/Helpers/TestDataCookieHelper.cs:101-105 | removes the current culture's cookie, then saves the record |
| TestDataCookies.TestDataCookieHelper.ExpireTestDataCookie | src/EPiServer.Marketing.Testing.Web/Helpers/TestDataCookieHelper.cs:172-182 | replaces the record's cookie by an empty cookie that expired yesterday |
| TestDataCookies.TestDataCookieHelper.ResetTestDataCookie | src/EPiServer.Marketing.Testing.Web/Helpers/TestDataCookieHelper.cs:189-198 | replaces the record's cookie by an empty session cookie and returns an empty record |
| TestDataCookies.TestDataCookieHelper.GetTestDataFromCookie | src/EPiServer.Marketing.Testing.Web/Helpers/TestDataCookieHelper.cs:112-166 | reads the response cookie, else the request cookie, and expires it when it is stale |
| TestDataCookies.TestDataCookieHelper.GetTestDataFromCookies | src/EPiServer.Marketing.Testing.Web/Helpers/TestDataCookieHelper.cs:207-224 | decodes the prefixed response keys, then the prefixed request keys the response lacks |
| TestDataCookies.DuplicatePersists | src/EPiServer.Marketing.Testing.Web/Helpers/TestDataCookieHelper.cs:153 | once a KPI id repeats, decoding the flags of all KPIs throws |
| TestDataCookieLaws.FlagValueOfText | src/EPiServer.Marketing.Testing.Web/Helpers/TestDataCookieHelper.cs:152 | a flag written as True/False reads back as itself |
| TestDataCookieLaws.ContentIdOfName | src/EPiServer.Marketing.Testing.Web/Helpers/TestDataCookieHelper.cs:129 | the content id cut out of a cookie name is the id the name was built from |
| TestDataCookieLaws.ContentIdTextOfCookieName | src/EPiServer.Marketing.Testing.Web/Helpers/TestDataCookieHelper.cs:215 | the scan recovers the content id text from a record's cookie name |
| TestDataCookieLaws.DashDelimiterBreaksScan | src/EPiServer.Marketing.Testing.Web/Helpers/TestDataCookieHelper.cs:209-215 | with '-' as the delimiter, the first segment is shorter than the prefix and the scan throws |
| TestDataCookieLaws.UpdatedCookieFound | src/EPiServer.Marketing.Testing.Web/Helpers/TestDataCookieHelper.cs:101-121 | the cookie UpdateTestDataCookie leaves is the one the next read finds |
| TestDataCookieLaws.VariantReadBack | src/EPiServer.Marketing.Testing.Web/Helpers/TestDataCookieHelper.cs:141-143 | the written vId reads back as the record's variant and ShowVariant as that variant's not-published |
| TestDataCookieLaws.FlagsReadBack | src/EPiServer.Marketing.Testing.Web/Helpers/TestDataCookieHelper.cs:146-155 | flags in ascending KPI id order read back unchanged |
| TestDataCookieLaws.UpdateThenRead | src/EPiServer.Marketing.Testing.Web/Helpers/TestDataCookieHelper.cs:101-165 | round trip: a written record reads back equal, with nothing expired, when it belongs to the active test and its flags ascend by KPI id |
| TestDataCookieLaws.UnsortedFlagsSwap | src/EPiServer.Marketing.Testing.Web/Helpers/TestDataCookieHelper.cs:88-92 | because the OrderBy result is discarded, flags written in descending id order come back attached to the wrong KPIs |
| TestDataCookieLaws.ExpiredCookieReadsEmpty | src/EPiServer.Marketing.Testing.Web/Helpers/TestDataCookieHelper.cs:172-182 | an expired cookie reads as an empty record |
| TestDataCookieLaws.ResetCookieReadsEmpty | src/EPiServer.Marketing.Testing.Web/Helpers/TestDataCookieHelper.cs:189-198 | a reset cookie reads as an empty record |
| TestDataCookieLaws.StaleCookieExpires | src/EPiServer.Marketing.Testing.Web/Helpers/TestDataCookieHelper.cs:137-161 | with no active test, or with another start date, the cookie is expired and read as an empty record |
| TestDataCookieLaws.NoStartReadsEmpty | src/EPiServer.Marketing.Testing.Web/Helpers/TestDataCookieHelper.cs:123-125 | an absent cookie, or one without `start`, reads as an empty record and nothing is expired |
| TestDataCookieLaws.BadVariantIndexThrows | src/EPiServer.Marketing.Testing.Web/Helpers/TestDataCookieHelper.cs:141-142 | a vId outside the variants on a matching cookie throws ArgumentOutOfRange |
| TestDataCookieLaws.ReadOrderCovers | src/EPiServer.Marketing.Testing.Web/Helpers/TestDataCookieHelper.cs:213-221 | the scan reads exactly the prefixed names of the response and the request |
| TestDataCookieLaws.ReadOrderResponseFirst | src/EPiServer.Marketing.Testing.Web/Helpers/TestDataCookieHelper.cs:218-220 | a name the response carries is read only in the response part |
| TestDataCookieLaws.PrefixedKeysNoDuplicates | src/EPiServer.Marketing.Testing.Web/Helpers/TestDataCookieHelper.cs:213-215 | filtering keeps a list free of repeated keys |
| TestDataCookieLaws.ReadOrderNoDuplicates | src/EPiServer.Marketing.Testing.Web/Helpers/TestDataCookieHelper.cs:207-223 | when neither collection repeats a name, no key is read twice |
| KpiEvaluation.ConvertedResults | src/EPiServer.Marketing.Testing.Web/TestHandler/TestHandler.cs:599-601 | membership iff the result reports HasConverted, in result order |
| KpiEvaluation.ConversionResults | src/EPiServer.Marketing.Testing.Web/TestHandler/TestHandler.cs:523 | OfType keeps exactly the conversion results |
| KpiEvaluation.FinancialResults | src/EPiServer.Marketing.Testing.Web/TestHandler/TestHandler.cs:526 | OfType keeps exactly the financial results |
| KpiEvaluation.ValueResults | src/EPiServer.Marketing.Testing.Web/TestHandler/TestHandler.cs:529 | OfType keeps exactly the value results |
| KpiEvaluation.KpisToEvaluate | src/EPiServer.Marketing.Testing.Web/TestHandler/TestHandler.cs:508-516 | the KPIs evaluated are exactly those whose flag is false, or all of them under AlwaysEval, in the test's order; a KPI without a flag throws InvalidOperation |
| KpiEvaluation.MarkConverted | src/EPiServer.Marketing.Testing.Web/TestHandler/TestHandler.cs:553-554 | Remove then Add sets an existing flag true in place and appends a missing one |
| KpiEvaluation.ApplyConversionsFlags | src/EPiServer.Marketing.Testing.Web/TestHandler/TestHandler.cs:546-557 | each flag ends true iff it was true or a result converted its KPI; no flag is ever cleared |
| KpiEvaluation.AllConvertedStays | src/EPiServer.Marketing.Testing.Web/TestHandler/TestHandler.cs:546-560 | once every flag is true, further results keep them true |
| KpiEvaluation.AfterCheck | src/EPiServer.Marketing.Testing.Web/TestHandler/TestHandler.cs:546-560 | afterwards Converted holds iff every flag is true |
| KpiEvaluation.CompletedStaysCompleted | src/EPiServer.Marketing.Testing.Web/TestHandler/TestHandler.cs:577-649 | a pass completed by the conversion stage finds the record converted in all three stages |
| KpiEvaluation.AlwaysEvalConvertsAgain | src/EPiServer.Marketing.Testing.Web/TestHandler/TestHandler.cs:496-516 | a converted AlwaysEval record is evaluated again with all KPIs and reads as converted again |
| KpiEvaluation.LateCompletionSkipsNextPass | src/EPiServer.Marketing.Testing.Web/TestHandler/TestHandler.cs:591-622 | a record completed by a later stage is skipped by the next pass unless it has AlwaysEval |
| KpiEvaluation.DecodedFlagsCoverKpis | src/EPiServer.Marketing.Testing.Web/TestHandler/TestHandler.cs:508-516 | flags decoded for the test cover all its KPIs, so selection cannot throw |
| Handler.Doomed | src/EPiServer.Marketing.Testing.Web/TestHandler/TestHandler.cs:140-158 | the tests a deletion ends are never more than the active tests |
| Handler.DoomedMembers | src/EPiServer.Marketing.Testing.Web/TestHandler/TestHandler.cs:143-157 | a test is doomed iff the published page is deleted or one of its variants has the deleted version |
| Handler.StopDeleteAllMembers | src/EPiServer.Marketing.Testing.Web/TestHandler/TestHandler.cs:145-156 | after Stop and Delete of the doomed tests, exactly the tests sharing no id with them remain |
| Handler.AddUnconverted | src/EPiServer.Marketing.Testing.Web/TestHandler/TestHandler.cs:278-282 | each KPI adds an unconverted flag, and a repeated id throws DuplicateKey |
| Handler.FirstKpiWithId | src/EPiServer.Marketing.Testing.Web/TestHandler/TestHandler.cs:556 | FirstOrDefault: a KPI with the result's id, or none when no KPI has it |
| Handler.FinancialSaves | src/EPiServer.Marketing.Testing.Web/TestHandler/TestHandler.cs:599-617 | the saves are exactly the financial results with HasConverted, one each and in result order, against the variant the visitor sees; an unconverted financial result is not saved |
| Handler.ValueSaves | src/EPiServer.Marketing.Testing.Web/TestHandler/TestHandler.cs:632-645 | the saves are exactly the value results, one each and in result order, whether or not they converted, against the variant the visitor sees |
| Handler.Credited | src/EPiServer.Marketing.Testing.Web/TestHandler/TestHandler.cs:581-585 | a conversion is credited only to a converted record, and to the variant whose id is the record's TestVariantId |
| Handler.TestHandler.constructor | src/EPiServer.Marketing.Testing.Web/TestHandler/TestHandler.cs:46-66 | a new handler counts one reference per KPI of the active tests and is subscribed for exactly those types |
| Handler.TestHandler.InitProxyEventHandler | src/EPiServer.Marketing.Testing.Web/TestHandler/TestHandler.cs:682-696 | adds a reference per KPI of every active cached test and keeps subscription iff positive count |
| Handler.TestHandler.AddAllProxyEventHandlers | src/EPiServer.Marketing.Testing.Web/TestHandler/TestHandler.cs:686-689 | adds a reference per KPI of one test, keeping subscription iff positive count |
| Handler.TestHandler.TestAddedToCache | src/EPiServer.Marketing.Testing.Web/TestHandler/TestHandler.cs:703-709 | adds one reference per KPI of the added test |
| Handler.TestHandler.TestRemovedFromCache | src/EPiServer.Marketing.Testing.Web/TestHandler/TestHandler.cs:716-722 | removes one reference per KPI of the removed test |
| Handler.TestHandler.AddProxyEventHandler | src/EPiServer.Marketing.Testing.Web/TestHandler/TestHandler.cs:728-743 | always counts one more reference for the KPI's type, and subscribes only when the count was zero |
| Handler.TestHandler.RemoveProxyEventHandler | src/EPiServer.Marketing.Testing.Web/TestHandler/TestHandler.cs:749-760 | counts one reference less, and unsubscribes only when the count reaches zero; subscribed iff the count is positive |
| Handler.TestHandler.StopIfDoomed | src/EPiServer.Marketing.Testing.Web/TestHandler/TestHandler.cs:140-158 | one loop pass stops and deletes the test exactly when it is doomed, extending the stop-and-delete state and log by that test |
| Handler.TestHandler.CheckForActiveTests | src/EPiServer.Marketing.Testing.Web/TestHandler/TestHandler.cs:129-160 | stops then deletes each doomed active test of the content and returns their number (0 when the content has none) |
| Handler.TestHandler.StopAndDelete | src/EPiServer.Marketing.Testing.Web/TestHandler/TestHandler.cs:145-147 | one loop step: Stop then Delete of one test |
| Handler.AddUnconvertedFlags | src/EPiServer.Marketing.Testing.Web/TestHandler/TestHandler.cs:278-282 | the KPI loop builds exactly AddUnconverted, throwing DuplicateKey at a repeated id, and AlwaysEval ends as the last KPI's attribute |
| Handler.TestHandler.SetTestData | src/EPiServer.Marketing.Testing.Web/TestHandler/TestHandler.cs:271-293 | the record gets the test, the landing variant and unconverted flags, then is written with UpdateTestDataCookie |
| Handler.TestHandler.EvaluateViews | src/EPiServer.Marketing.Testing.Web/TestHandler/TestHandler.cs:401-423 | a view is counted only for a participant on the requested content with Viewed false in read/write mode; Viewed then becomes true, so a record yields at most one view |
| Handler.TestHandler.EvaluateCookies | src/EPiServer.Marketing.Testing.Web/TestHandler/TestHandler.cs:429-455 | in read/write mode, every stale record read is expired; otherwise nothing changes |
| Handler.TestHandler.ExpireIfStale | src/EPiServer.Marketing.Testing.Web/TestHandler/TestHandler.cs:439-453 | a record is expired iff its content has no active test while it holds data, or the active test has another id |
| Handler.TestHandler.CheckForConversion | src/EPiServer.Marketing.Testing.Web/TestHandler/TestHandler.cs:542-568 | the record becomes AfterCheck of the results, one KpiConverted event per converted result, and the record is written back |
| Handler.TestHandler.ProcessKpiConversionResults | src/EPiServer.Marketing.Testing.Web/TestHandler/TestHandler.cs:577-589 | the conversion counter of the visitor's variant is incremented, and AllKpisConverted raised, only when every flag is true afterwards |
| Handler.TestHandler.ProcessKeyFinancialResults | src/EPiServer.Marketing.Testing.Web/TestHandler/TestHandler.cs:591-622 | when every flag is true, each converted financial result is saved and AllKpisConverted raised; no counter moves |
| Handler.TestHandler.ProcessKeyValueResults | src/EPiServer.Marketing.Testing.Web/TestHandler/TestHandler.cs:624-649 | when every flag is true, every value result is saved and AllKpisConverted raised; no counter moves |
| Handler.TestHandler.SaveFinancialResults | src/EPiServer.Marketing.Testing.Web/TestHandler/TestHandler.cs:599-618 | the save loop makes exactly the financial saves |
| Handler.TestHandler.SaveValueResults | src/EPiServer.Marketing.Testing.Web/TestHandler/TestHandler.cs:632-645 | the save loop makes exactly the value saves |
| Handler.SelectKpis | src/EPiServer.Marketing.Testing.Web/TestHandler/TestHandler.cs:508-516 | the selection loop computes KpisToEvaluate |
| Handler.TestHandler.EvaluateRecord | src/EPiServer.Marketing.Testing.Web/TestHandler/TestHandler.cs:496-530 | a skipped record, or one without an active test, changes nothing; a record missing a flag throws; only evaluation calls reach the manager |
| Handler.TestHandler.EvaluateKpis | src/EPiServer.Marketing.Testing.Web/TestHandler/TestHandler.cs:461-532 | with the skip flag set for a content event nothing changes; otherwise only evaluation calls reach the manager |
| Handler.TestHandler.ProxyEventHandler | src/EPiServer.Marketing.Testing.Web/TestHandler/TestHandler.cs:664-677 | nothing happens when swapping is disabled or the database is read-only |
| Handler.TestHandler.Swap | src/EPiServer.Marketing.Testing.Web/TestHandler/TestHandler.cs:295-318 | the variant is shown iff ShowVariant and participant; ContentSwitched is raised once per request |
| Handler.TestHandler.LoadedContent | src/EPiServer.Marketing.Testing.Web/TestHandler/TestHandler.cs:232-269 | no test or swapping disabled shows the original; at most one view is counted; a shown variant has raised ContentSwitched |
| Handler.TestHandler.LoadTestContent | src/EPiServer.Marketing.Testing.Web/TestHandler/TestHandler.cs:241-261 | enrolment, swap and view for content under test: at most one view, none in read-only mode |
| Handler.TestHandler.LoadChild | src/EPiServer.Marketing.Testing.Web/TestHandler/TestHandler.cs:182-217 | a child without an active test is listed as itself; otherwise as itself or its variant, or dropped on an exception |
| Handler.TestHandler.LoadedChildren | src/EPiServer.Marketing.Testing.Web/TestHandler/TestHandler.cs:168-228 | the listing is replaced by the processed children only when some variant was listed |
| HandlerLaws.DeletionEndsExactlyTheDoomed | src/EPiServer.Marketing.Testing.Web/TestHandler/TestHandler.cs:129-160 | a deletion leaves exactly the tests that share an id with no doomed active test |
| HandlerLaws.DeletingPublishedPageEndsItsTests | src/EPiServer.Marketing.Testing.Web/TestHandler/TestHandler.cs:143-149 | after the published page is deleted the content has no active test |
| HandlerLaws.PublishedPageDoomsAll | src/EPiServer.Marketing.Testing.Web/TestHandler/TestHandler.cs:143-149 | with version 0 every active test is doomed, so the count is their number |
| HandlerLaws.DeletingDraftEndsItsTests | src/EPiServer.Marketing.Testing.Web/TestHandler/TestHandler.cs:151-157 | a draft deletion ends every active test with a variant of that version |
| HandlerLaws.StaleCookieIsExpired | src/EPiServer.Marketing.Testing.Web/TestHandler/TestHandler.cs:437-454 | EvaluateCookies leaves an empty, expired cookie under each stale record's name |
| HandlerLaws.StaleRecordsReadEmpty | src/EPiServer.Marketing.Testing.Web/TestHandler/TestHandler.cs:429-455 | after EvaluateCookies each stale record reads as empty |
| HandlerLaws.DecodedRecordNotStale | src/EPiServer.Marketing.Testing.Web/Helpers/TestDataCookieHelper.cs:112-166 | a decoded record is the empty record or belongs to its content's first active test, so it is not stale |
| HandlerLaws.ScannedRecordsNotStale | src/EPiServer.Marketing.Testing.Web/TestHandler/TestHandler.cs:429-455 | a stale record of EvaluateCookies' scan can only be the empty record, when a test of content id EmptyGuid is active |
| HandlerLaws.AddUnconvertedSucceeds | src/EPiServer.Marketing.Testing.Web/TestHandler/TestHandler.cs:278-282 | enrolment succeeds iff no KPI id repeats |
| HandlerLaws.AscendingKpisSorted | src/EPiServer.Marketing.Testing.Web/Helpers/TestDataCookieHelper.cs:146 | KPIs already ascending by id are their own OrderBy |
| HandlerLaws.FreshRecordReadsBack | src/EPiServer.Marketing.Testing.Web/TestHandler/TestHandler.cs:271-293 | a visitor enrolled by SetTestData reads back the record written, with the test's start date |
| HandlerLaws.SurvivingKeepsOrder | src/EPiServer.Marketing.Testing.Web/TestHandler/TestHandler.cs:220-226 | when no child is dropped, the rewritten listing keeps the original order |
| HandlerLaws.SurvivingDropsOnlyDropped | src/EPiServer.Marketing.Testing.Web/TestHandler/TestHandler.cs:214-217 | the listing never grows, and shrinks exactly when a child was dropped |
| WebRepository.FirstOpenIndex | src/EPiServer.Marketing.Testing.Web/Repositories/MarketingTestingWebRepository.cs:55 | Find: the first test neither Done nor Archived, or -1 |
| WebRepository.ActiveTestIn | src/EPiServer.Marketing.Testing.Web/Repositories/MarketingTestingWebRepository.cs:52-61 | the first open test of the content, else a fresh empty test; never null |
| WebRepository.OpenTests | src/EPiServer.Marketing.Testing.Web/Repositories/MarketingTestingWebRepository.cs:72 | FindAll keeps exactly the tests neither Done nor Archived |
| WebRepository.DeleteAllMembers | src/EPiServer.Marketing.Testing.Web/Repositories/MarketingTestingWebRepository.cs:74-77 | after deleting, exactly the tests sharing no id with a deleted one remain |
| WebRepository.DeleteForContentLeavesNoOpenTest | src/EPiServer.Marketing.Testing.Web/Repositories/MarketingTestingWebRepository.cs:69-78 | after DeleteTestForContent the content has no active test |
| WebRepository.DeleteForContentKeepsOthers | src/EPiServer.Marketing.Testing.Web/Repositories/MarketingTestingWebRepository.cs:69-78 | no Done or Archived test, and no test of other content, is deleted |
| WebRepository.ArchivedTestIsNotActive | src/EPiServer.Marketing.Testing.Web/Repositories/MarketingTestingWebRepository.cs:52-61 | an archived test is never the active test |
| WebRepository.SavedTestBecomesActive | src/EPiServer.Marketing.Testing.Web/Repositories/MarketingTestingWebRepository.cs:52-61 | a saved open test of a content without one becomes its active test |
| WebRepository.CalculateEndDateFromDuration | src/EPiServer.Marketing.Testing.Web/Repositories/MarketingTestingWebRepository.cs:257-261 | the end date is the parsed start plus the duration in days; an unparsable start throws Format |
| WebRepository.EndDateOfWrittenStart | src/EPiServer.Marketing.Testing.Web/Repositories/MarketingTestingWebRepository.cs:257-261 | a written start date ends duration days later |
| WebRepository.ConvertToMarketingTest | src/EPiServer.Marketing.Testing.Web/Repositories/MarketingTestingWebRepository.cs:140-186 | copies the form fields, builds two zero-count variants (published version first, then the variant version) and one KPI; a missing conversion page throws NullReference |
| WebRepository.BuiltTestSchedule | src/EPiServer.Marketing.Testing.Web/Repositories/MarketingTestingWebRepository.cs:166-183 | the end date is start plus duration; the test is Active iff Start is set or now ≥ start, else Inactive |
| WebRepository.MissingStartDateStartsNow | src/EPiServer.Marketing.Testing.Web/Repositories/MarketingTestingWebRepository.cs:144-147 | without a start date the test starts now and is Active |
| WebRepository.WrittenStartDateIsKept | src/EPiServer.Marketing.Testing.Web/Repositories/MarketingTestingWebRepository.cs:166-183 | a given start date is the test's start |
| WebRepository.VariantWithVersion | src/EPiServer.Marketing.Testing.Web/Repositories/MarketingTestingWebRepository.cs:228-236 | FirstOrDefault by ItemVersion: the first variant with that version, or none |
| WebRepository.WinningLinkRoundTrip | src/EPiServer.Marketing.Testing.Web/Repositories/MarketingTestingWebRepository.cs:204-205 | a link "published_draft" splits back into the two versions |
| WebRepository.MarketingTestingWebRepository.GetActiveTestForContent | src/EPiServer.Marketing.Testing.Web/Repositories/MarketingTestingWebRepository.cs:52-61 | the answer is an empty test or an open stored test of the content |
| WebRepository.MarketingTestingWebRepository.DeleteTestForContent | src/EPiServer.Marketing.Testing.Web/Repositories/MarketingTestingWebRepository.cs:69-78 | deletes, in order, every open test of the content and nothing else |
| WebRepository.MarketingTestingWebRepository.PublishWinningVariant | src/EPiServer.Marketing.Testing.Web/Repositories/MarketingTestingWebRepository.cs:195-249 | an empty link gives -1; the draft is published, then the published version too if it won; the test is archived with the winning variant and the published reference returned; a missing test or variant gives -1 with no archive |
| Multivariate.ConvertToViewModel | Multivariate/EPiServer.Marketing.Multivariate.Web/Repositories/MultivariateTestRepository.cs:113-130 | copies id, title, owner, state, dates, original id and results, and names the first variant; no variants throws |
| Multivariate.TruncDiv | Multivariate/EPiServer.Marketing.Multivariate.Web/Repositories/MultivariateTestRepository.cs:142 | the (int) cast truncates the quotient toward zero |
| Multivariate.LeaderOf | Multivariate/EPiServer.Marketing.Multivariate.Web/Repositories/MultivariateTestRepository.cs:138-149 | the winner is the first viewed result of the strictly greatest positive rate; every viewed rate is at most its rate, and every earlier one is lower |
| Multivariate.GetWinningTestResult | Multivariate/EPiServer.Marketing.Multivariate.Web/Repositories/MultivariateTestRepository.cs:132-152 | never null: the leader, or a result for the original item when no rate is positive |
| Multivariate.OriginalWinsWithoutConversions | Multivariate/EPiServer.Marketing.Multivariate.Web/Repositories/MultivariateTestRepository.cs:134-136 | with no positive rate the original item wins |
| Multivariate.ConversionKeepsWinner | Multivariate/EPiServer.Marketing.Multivariate.Web/Repositories/MultivariateTestRepository.cs:138-149 | one more conversion on the winner keeps it the winner |
| Multivariate.ResultIndexOf | Multivariate/EPiServer.Marketing.Multivariate.Web/Repositories/MultivariateTestRepository.cs:164-171 | the first result for the variant's item, or -1 when none matches |
| Multivariate.MultivariateTestRepository.UpdateConversion | Multivariate/EPiServer.Marketing.Multivariate.Web/Repositories/MultivariateTestRepository.cs:160-173 | one more conversion on the first matching result, saved once; no match saves nothing; a missing test throws |
| Multivariate.MultivariateTestRepository.UpdateView | Multivariate/EPiServer.Marketing.Multivariate.Web/Repositories/MultivariateTestRepository.cs:175-188 | one more view on the first matching result, saved once; no match saves nothing; a missing test throws |
| Multivariate.ConversionChangesOneResult | Multivariate/EPiServer.Marketing.Multivariate.Web/Repositories/MultivariateTestRepository.cs:164-171 | a counted conversion changes only the matched result's conversions |
| Multivariate.ConversionAddsOne | Multivariate/EPiServer.Marketing.Multivariate.Web/Repositories/MultivariateTestRepository.cs:160-173 | the test's total conversions grow by one and total views stay |
| Multivariate.ViewAddsOne | Multivariate/EPiServer.Marketing.Multivariate.Web/Repositories/MultivariateTestRepository.cs:175-188 | the test's total views grow by one and total conversions stay |
| Messaging.TestingMessageHandler.HandleUpdateViews | src/EPiServer.Marketing.Testing.Core/Messaging/TestingMessageHandler.cs:31-35 | exactly one view increment with the message's test, variant and version |
| Messaging.TestingMessageHandler.HandleUpdateConversions | src/EPiServer.Marketing.Testing.Core/Messaging/TestingMessageHandler.cs:37-41 | exactly one conversion increment with the message's test, variant and version |
| Messaging.TestingMessageHandler.HandleAddKeyResult | src/EPiServer.Marketing.Testing.Core/Messaging/TestingMessageHandler.cs:43-47 | exactly one AddKpiResultData call with the result and type unchanged; no counter moves |
| Messaging.CountsMoveSeparately | src/EPiServer.Marketing.Testing.Core/Messaging/TestingMessageHandler.cs:31-41 | a view message moves only the addressed view counters, and a conversion message only conversion counters |
| Messaging.IncrementsCommute | src/EPiServer.Marketing.Testing.Core/Messaging/TestingMessageHandler.cs:31-41 | two increments give the same counters in either order |
| Monitor.ShouldEnableIffActiveTest | src/EPiServer.Marketing.Testing.Web/TestHandler/ConfigurationMonitor.cs:37 | testing is enabled iff IsEnabled and some stored test is Active |
| Monitor.ChangeSteps | src/EPiServer.Marketing.Testing.Web/TestHandler/ConfigurationMonitor.cs:37-48 | exactly one of enable and disable, then Reset, then Set |
| Monitor.ConfigurationMonitor.constructor | src/EPiServer.Marketing.Testing.Web/TestHandler/ConfigurationMonitor.cs:20-27 | the change is handled once before the handler is registered with the signal |
| Monitor.ConfigurationMonitor.HandleConfigurationChange | src/EPiServer.Marketing.Testing.Web/TestHandler/ConfigurationMonitor.cs:32-49 | the handler is enabled iff IsEnabled and an active test exists; the signal is reset, then set |

## Left out

- Handler.TestHandler.EvaluateKpis: states that nothing changes when the skip flag stops it, and that
  the manager receives only evaluation calls (increments and result saves). It does not state how the
  effects of the records compose.
- Handler.TestHandler.EvaluateRecord: states the skip, no-test and throwing cases, and that the manager
  receives only evaluation calls. The effect of the three stages is stated by the Process*Results methods.
- Handler.TestHandler.ProxyEventHandler: states only the disabled and read-only cases, and that the
  manager receives only evaluation calls.
- Handler.TestHandler.LoadedContent: states the shown content, the one-view bound and the disabled and
  no-test cases. The response cookies in the other cases are not stated.
- Handler.TestHandler.LoadTestContent: states the one-view bound, no change in read-only mode and the
  ContentSwitched event. The response cookies are not stated.
- Handler.TestHandler.LoadedChildren: states the listing through each child's outcome. The response
  cookies after enrolment are not stated.
- ActivateClientKpis and AppendClientKpiScript are left out. They build client script and markup.
- HttpContext request items are inputs (`swapDisabled`, `skipKpiEval`, `switchRaised`), not state. The
  IPageRouteHelper test that sets the skip flag, and its swallowed exception, are outside the model.
- GetVariantContent is the content id tagged as a variant. A null variant, which makes Swap do nothing,
  is not represented. The cache preload call it makes in LoadedContent is left out.
- KPI evaluation (ITestManager.EvaluateKPIs) is a pure function parameter. KPI initialization and
  Uninitialize are left out.
- ReturnLandingPage, Guid.NewGuid, DateTime.Now and DateTime.UtcNow are parameters. ConvertToMarketingTest
  reads the clock twice; the model reads it once.
- Culture-specific formatting and GetCultureInfo are left out. The culture is a name in the cookie
  settings, and dates are written and parsed as integers.
- TestDataCookies.DecodeCookie: the culture argument of the active-test lookup
  (`GetActiveTestsByOriginalItemId(contentId, currentCulture)`, TestDataCookieHelper.cs line 137) is not
  modelled. The repository's culture overload is not part of this model, so its filter is unknown. The
  model looks the test up by content id alone, as the handler does. A test for the same content in another
  language is therefore found where the code might not find it, and the record is kept rather than expired.
- Handler.TestHandler.EvaluateCookies: the decoder and the stale test look the test up the same way, so
  in the model a record read with test data is never stale (`HandlerLaws.ScannedRecordsNotStale`), and
  the loop can expire only an empty record. In the code the decoder passes the culture to the lookup and
  the stale test does not (TestHandler.cs line 439), so EvaluateCookies can expire a record only through
  that culture difference, which the model does not capture.
- TestDataCookies.Delimiter: the cookie delimiter setting is assumed non-empty. The code reads its first
  character (TestDataCookieHelper.cs lines 129 and 209), which throws IndexOutOfRange on an empty
  setting; that throw is not modelled.
- bool.TryParse trimming whitespace is left out. The "start" test on the cookie value is modelled as the
  presence of the `start` key.
- The decoder reorders the test's KPI list in place (TestDataCookieHelper.cs line 147). That
  reordering of the caller's test object is not modelled.
- The Guid text format is decimal digits. Guid.TryParse of other forms reads as the empty Guid.
- Cross-node cache coherence, concurrency, and the atomicity of the store's increments are left out.
  UpdateConversion and UpdateView are read-modify-write and are modelled sequentially.
- The logger is left out. A caught exception is visible only as the absence of further effects.
- The test manager, the HTTP context helper, the reference counter, the multivariate test manager,
  ITestResultHelper (kept as a log of published links), ICacheSignal and ITestHandler are stand-ins.
  Each gets the smallest behaviour the core relies on, because their implementations are not part of
  this model.
- Handler.TestHandler.RemoveProxyEventHandler and AddProxyEventHandler: a subscription is identified by
  the KPI's type, while the code subscribes and unsubscribes through the KPI instance it is given
  (TestHandler.cs lines 736 and 758). A KPI such as AddToCartKpi keeps its event handler per instance
  (AddToCartKpi.cs lines 188-203), so removing through another instance of the same type may not detach
  the handler that was attached. The model holds only for KPIs whose event accessor is shared by all
  instances of a type.
- ContentComparatorKPI's target content is not represented. Its KPI type number is arbitrary.
- DateTime range limits and AddDays overflow are left out, because dates are unbounded integers.
- ContentReference.Parse and GetClonedContentFromReference cannot fail in the model. Null strings read
  as empty strings.
- CreateMarketingTest, GetTestById, SaveMarketingTest, StartMarketingTest, StopMarketingTest, DeleteMarketingTest and
  ArchiveMarketingTest are one-line delegations to the test manager. Archive is modelled as a manager
  method; the others are left out.
- Multivariate: the rate is computed in integers, which equals the source's double computation
  truncated. An overflow of the `(int)` cast is left out.
- Multivariate.MultivariateTestRepository.UpdateConversion and UpdateView: `Conversions++` and `Views++`
  (MultivariateTestRepository.cs lines 168 and 183) wrap around at Int32.MaxValue in the code. The
  counters are unbounded in the model, so the wrap-around is not modelled.
- Multivariate: the test state reuses the A/B test states.
- Multivariate: UpdateConversion mutates the fetched result object. The model saves a copy, so aliasing
  with the manager's stored object is not represented.
- Multivariate: CreateTest, DeleteTest, GetTestList, GetTestById and StopTest are delegations and are left out.
