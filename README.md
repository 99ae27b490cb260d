# BlazeMeter plugin: the decision logic around the REST replies

The BlazeMeter CI plugin starts load tests on the BlazeMeter service, waits for them,
stops them and collects their reports. Most of it is HTTP plumbing. This project models
the deterministic logic that runs once a reply has arrived, and proves what that logic
promises:

- **BzmBuild.** Deciding whether a test is a collection, stopping or terminating a master,
  the CI verdict, the bounded wait for a test to become inactive, choosing the JTL archive
  of a session, and the report URL.
- **ApiV3Impl.** Classifying a master's status, the progress code, the start request with
  its retries and its result map, the test listing as an ordered multimap, the activity
  check and the list of session ids.
- **CutUserKeyFormatter.** Masking part of the API key in a log line.
- **Utils.** Reading and rewriting the duration that a test's configuration overrides.
- **BlazemeterApi and BlazemeterApiV2Impl.** The older clients: argument validation and
  the guards built on it, the run status, the test list and the test count, and the status
  check of the HTTP exchange. The two classes share this code, so one module models both.

Every server reply is an input value of a small JSON datatype (`Json.Json`). `None` stands
for a reply the code never gets because the request or the parse threw and the method
catches it. Where the exception escapes the method, the input is a `Result` instead. The
org.json accessors are modelled to return `None` exactly where org.json throws.
LinkedHashMap and LinkedHashMultimap are sequences of pairs in insertion order
(`Linked`). Sleeps, interrupts and the answers of repeated requests are input sequences.

Modules: `Common`, `Text`, `Json`, `Linked` (support), `KeyMask`, `TestSettings`, `ApiV3`,
`LegacyApi`, `Build`.

## Model

| member | source | states |
|---|---|---|
| Text.IndexOf | common/src/main/java/com/blaze/api/CutUserKeyFormatter.java:28 | `String.indexOf`: -1 iff the pattern does not occur, otherwise the first occurrence |
| Text.LastIndexOf | common/src/main/java/com/blaze/api/CutUserKeyFormatter.java:28 | `String.lastIndexOf`: -1 iff the pattern does not occur, otherwise the last occurrence |
| Text.ReplaceAllAbsent | common/src/main/java/com/blaze/api/CutUserKeyFormatter.java:31 | replacing a text that does not occur leaves the line unchanged |
| Text.ReplaceAllSkip | common/src/main/java/com/blaze/api/CutUserKeyFormatter.java:31 | the line before the first occurrence is kept, and the replacement follows it |
| Text.ReplaceAllSingle | common/src/main/java/com/blaze/api/CutUserKeyFormatter.java:31 | a text that occurs exactly once is replaced in place |
| Text.ReplaceAllFirst | common/src/main/java/com/blaze/api/CutUserKeyFormatter.java:31 | the first occurrence is replaced in place and the scan resumes right after it |
| Text.ReplaceAllIsReplaceEach | common/src/main/java/com/blaze/api/CutUserKeyFormatter.java:31 | `StringUtils.replace` agrees with the reference reading: replace the first occurrence found by `indexOf`, then continue on the text after it, so every left-to-right non-overlapping occurrence is replaced in place and the text between them is kept |
| Text.ReplaceEachShorter | common/src/main/java/com/blaze/api/CutUserKeyFormatter.java:31 | a replacement shorter than the pattern never lengthens the text, and strictly shortens it when the pattern occurs |
| Text.EscapeAmpRoundTrip | common/src/main/java/com/blaze/api/ApiV3Impl.java:314 | unescaping `&amp;` after `replaceAll("&", "&amp;")` gives back the name |
| Text.EscapeAmpWellFormed | common/src/com/blaze/api/BlazemeterApi.java:406 | after the escape, every `&` starts `&amp;` |
| Text.EscapeAmpNotIdempotent | common/src/com/blaze/api/BlazemeterApi.java:406 | escaping twice differs from escaping once: an existing `&amp;` becomes `&amp;amp;` |
| Json.Find | common/src/com/blaze/utils/Utils.java:59-66 | a member is found iff some member carries the name |
| Json.GetInt | common/src/com/blaze/utils/Utils.java:66 | `getInt` gives a 32-bit value |
| Json.FindPutSame | common/src/com/blaze/utils/Utils.java:86 | after `put`, the member reads back as the value put |
| Json.FindPutOther | common/src/com/blaze/utils/Utils.java:86 | `put` leaves every other member as it was |
| Json.GetPut | common/src/com/blaze/utils/Utils.java:86 | `get` after `put` on an object: the value put, or what was there |
| Json.PutPathElsewhere | common/src/com/blaze/utils/Utils.java:79-86 | writing at one path leaves every path that leaves it elsewhere unchanged |
| Json.PutPathReads | common/src/com/blaze/utils/Utils.java:79-86 | a write below existing objects reads back at its path |
| Json.ParseIntRoundTrip | common/src/com/blaze/utils/Utils.java:66-86 | `Integer.parseInt(String.valueOf(n)) == n` for every Java int: what `updateTest` writes at line 86, `getTestDuration` reads back at line 66 |
| Json.ToIntOfText | common/src/com/blaze/utils/Utils.java:66-86 | `getInt` (line 66) reads a decimal string member, as written at line 86, back as its number |
| Linked.DedupProperties | common/src/main/java/com/blaze/api/ApiV3Impl.java:317 | the multimap's pairs are distinct, are exactly the pairs put, and are no more than them |
| Linked.FilteredElements | common/src/main/java/com/blaze/api/ApiV3Impl.java:302-323 | every kept result comes from an entry, and every accepted entry gives its result |
| Linked.MultimapIsDedup | common/src/main/java/com/blaze/api/ApiV3Impl.java:301-317 | a LinkedHashMultimap built by `put`s keeps each distinct pair once, in first-insertion order |
| Linked.MapPutKeys | common/src/com/blaze/api/BlazemeterApi.java:407 | `LinkedHashMap.put` keeps a known key's place and appends a new key |
| Linked.MapPutLookup | common/src/com/blaze/api/BlazemeterApi.java:407 | after `put`, the key maps to the new value and other keys are unchanged |
| Linked.MapOfKeys | common/src/com/blaze/api/BlazemeterApi.java:393-413 | the map's keys are the distinct keys in first-insertion order |
| Linked.MapOfLookup | common/src/com/blaze/api/BlazemeterApi.java:393-413 | each key maps to the last value put for it |
| Linked.MapOfDistinct | common/src/com/blaze/api/BlazemeterApi.java:393-413 | the map's keys are distinct |
| KeyMask.Format | common/src/main/java/com/blaze/api/CutUserKeyFormatter.java:26-34 | the only failure is the `substring` one, and it happens iff the last "api_key" starts after index 0 and the line ends before its window |
| KeyMask.FormatWithoutKey | common/src/main/java/com/blaze/api/CutUserKeyFormatter.java:28-33 | a line without "api_key" is returned unchanged |
| KeyMask.FormatKeyOnlyAtStart | common/src/main/java/com/blaze/api/CutUserKeyFormatter.java:29 | a line whose last "api_key" is at index 0 is returned unchanged (the test is `> 0`) |
| KeyMask.FormatMasksWindow | common/src/main/java/com/blaze/api/CutUserKeyFormatter.java:28-31 | with the last "api_key" at k, the 15 characters at [k+13, k+28) become "..." and the rest of the line stays |
| KeyMask.FormatKeepsKeyPrefix | common/src/main/java/com/blaze/api/CutUserKeyFormatter.java:30-31 | "api_key", the separator and the first five key characters stay visible unless the key text also occurs earlier |
| KeyMask.FormatMasksEarlierCopy | common/src/main/java/com/blaze/api/CutUserKeyFormatter.java:31 | the first copy of the key text in the line, wherever it stands, is masked |
| KeyMask.FormatMasksEveryCopy | common/src/main/java/com/blaze/api/CutUserKeyFormatter.java:28-33 | with the last "api_key" after index 0 and a full window, the line is masked copy by copy: the first copy of the key text becomes "...", then the first copy after it, and so on, with the text between kept; the masked line is strictly shorter than the original |
| TestSettings.Locate | common/src/com/blaze/utils/Utils.java:59-85 | the lookup chain succeeds only along objects, each the named member of the one above; the plugin is chosen by `configuration.type` (the chains at lines 59-65 and 79-85) |
| TestSettings.ChainAt | common/src/com/blaze/utils/Utils.java:60-65 | the `override` object sits at `configuration.plugins[type].override` |
| TestSettings.GetTestDuration | common/src/com/blaze/utils/Utils.java:56-75 | `getTestDuration` is a 32-bit int: -1 when any step of the lookup fails or `override.duration` cannot be read by `getInt`; otherwise exactly the int that `getInt` reads there |
| TestSettings.UpdateTest | common/src/com/blaze/utils/Utils.java:77-94 | a body is sent iff every lookup succeeds, and in it the duration path holds the decimal text of the new duration |
| TestSettings.UpdatedChain | common/src/com/blaze/utils/Utils.java:80-87 | the copies put back level by level still nest like the originals, and the body sent is `result` with the duration path set to the new value |
| TestSettings.UpdatedShape | common/src/com/blaze/utils/Utils.java:80-87 | the body sent is `result` with each object on the path replaced by its updated copy |
| TestSettings.UpdateTestChangesOnlyDuration | common/src/com/blaze/utils/Utils.java:80-87 | every path that leaves the duration's path reads the same in the body sent as in `result` |
| TestSettings.UpdateThenGet | common/src/com/blaze/utils/Utils.java:56-94 | reading the duration back from the body sent gives the duration written |
| ApiV3.ResultObject | common/src/main/java/com/blaze/api/ApiV3Impl.java:121 | `result` is read only from a reply that has it as an object |
| ApiV3.StatusRules | common/src/main/java/com/blaze/api/ApiV3Impl.java:125-136 | Running iff `status` is a string other than "ENDED"; NotRunning iff `status` is missing or "ENDED" and `errors` is missing or null; never NotFound |
| ApiV3.MasterStatusAsWritten | common/src/main/java/com/blaze/api/ApiV3Impl.java:107-142 | the code as written: NotFound iff the key and the id are both blank |
| ApiV3.MasterStatus | common/src/main/java/com/blaze/api/ApiV3Impl.java:107-142 | NotFound iff refused or `dataUrl` is JSON null; Error when `result` cannot be read; otherwise the status and errors rules |
| ApiV3.MasterStatusNullDataUrl | common/src/main/java/com/blaze/api/ApiV3Impl.java:122 | on `{"result":{"dataUrl":null}}` the code as written says NotRunning and the intended rule says NotFound |
| ApiV3.MasterStatusAgrees | common/src/main/java/com/blaze/api/ApiV3Impl.java:121-136 | wherever `dataUrl` is not JSON null, both readings agree |
| ApiV3.MasterStatusCode | common/src/main/java/com/blaze/api/ApiV3Impl.java:85-104 | `result.progress` as a 32-bit int; 0 when refused or on any failure |
| ApiV3.FirstAnswer | common/src/main/java/com/blaze/api/ApiV3Impl.java:159-187 | the first round that brings a non-null reply; no earlier round does |
| ApiV3.RetryOutcome | common/src/main/java/com/blaze/api/ApiV3Impl.java:159-187 | the retries end with a reply iff some round brings a non-null one |
| ApiV3.RetryStart | common/src/main/java/com/blaze/api/ApiV3Impl.java:159-187 | the loop ends with the first non-null reply; the k-th pause is 10 000·k ms; it pauses once per round up to that reply, at most five times |
| ApiV3.StartMap | common/src/main/java/com/blaze/api/ApiV3Impl.java:189-200 | `id`, `testId` (from `testCollectionId` for a collection) and `name` are copied in order until a lookup fails; `error` is added iff the copy stopped early and the reply has one |
| ApiV3.StartMapComplete | common/src/main/java/com/blaze/api/ApiV3Impl.java:189-200 | a result with the three strings gives exactly those three entries |
| ApiV3.StartTest | common/src/main/java/com/blaze/api/ApiV3Impl.java:145-201 | null when refused; the first request's exception escapes; the retries run only after a null reply for an inactive test; the map comes from the reply the method ends with |
| ApiV3.EntryOf | common/src/main/java/com/blaze/api/ApiV3Impl.java:303-322 | an entry is kept iff it is an object with `id` and string `name`/`type` where present; the key is the name (or "") with every `&` escaped to `&amp;`, and it unescapes to the name; the value is `id`, ".", then `type` or UNKNOWN_TYPE when `type` is absent |
| ApiV3.TestArrayIsResultArray | common/src/main/java/com/blaze/api/ApiV3Impl.java:291-297 | the 401 test changes nothing: the listing is `result` as an array whenever the key is given and a reply arrived |
| ApiV3.TestsMultiMap | common/src/main/java/com/blaze/api/ApiV3Impl.java:277-338 | null iff the key is blank or `result` is not an array; otherwise the multimap of the kept entries in order, each pair once |
| ApiV3.ScanMeaning | common/src/main/java/com/blaze/api/ApiV3Impl.java:439-451 | the scan finds only listed ids; over ints only, it finds the id iff it is listed |
| ApiV3.ActiveMeaning | common/src/main/java/com/blaze/api/ApiV3Impl.java:427-461 | `active` is true only for an id in `tests` or `collections`; over ints only, exactly then |
| ApiV3.Search | common/src/main/java/com/blaze/api/ApiV3Impl.java:439-444 | the linear search stops at the first match and fails where `getInt` throws |
| ApiV3.Active | common/src/main/java/com/blaze/api/ApiV3Impl.java:427-461 | the method answers as `ActiveOf`: `tests` first, then `collections`, false on any failure |
| ApiV3.SessionIdsPrefix | common/src/main/java/com/blaze/api/ApiV3Impl.java:412-418 | the ids collected are the sessions' string `id`s in server order, one per session, and collection stops exactly at the first session without a string `id` |
| ApiV3.CollectIds | common/src/main/java/com/blaze/api/ApiV3Impl.java:414-416 | the loop collects exactly that prefix |
| ApiV3.ListOfSessionIds | common/src/main/java/com/blaze/api/ApiV3Impl.java:405-424 | the request's exception escapes; otherwise the prefix of ids, none when `result.sessions` cannot be read |
| LegacyApi.Validate | common/src/com/blaze/api/BlazemeterApi.java:340-351 | true iff the key and the test id are both given and each has a character above U+0020; the V2 client applies the same rule (BlazemeterApiV2Impl.java lines 137-148) |
| LegacyApi.GetResponse | common/src/com/blaze/api/BlazemeterApi.java:76-108 | the response is returned unchanged; a complaint is printed iff there is none or its status is outside [200, 300) |
| LegacyApi.GetJsonIgnoresStatus | common/src/com/blaze/api/BlazemeterApi.java:158-175 | the status code never changes what `getJson` returns |
| LegacyApi.Guarded | common/src/com/blaze/api/BlazemeterApi.java:215-377 | `uploadBinaryFile` (215-239), `uploadFile`, `startTest`, `stopTest` (304-311) and `aggregateReport` (359-377): a request is sent iff validation passes; otherwise null; the V2 client has the same guards (BlazemeterApiV2Impl.java lines 81-96, 127-134, 157-176) |
| LegacyApi.UploadJmx | common/src/com/blaze/api/BlazemeterApi.java:187-204 | sent iff validation passes, and the answer is true exactly then; the same in the V2 client (BlazemeterApiV2Impl.java lines 61-78) |
| LegacyApi.GetTestRunStatus | common/src/com/blaze/api/BlazemeterApi.java:277-302 | NotFound iff validation fails or the status is the "Test not found" literal itself; a reported status comes with the id and name copied from the reply; the same in the V2 client (BlazemeterApiV2Impl.java lines 99-124) |
| LegacyApi.TestsArray | common/src/com/blaze/api/BlazemeterApi.java:381-391 | the list is read only for a non-blank key and a reply whose `response_code` is "200" |
| LegacyApi.TestEntry | common/src/com/blaze/api/BlazemeterApi.java:404-408 | an entry is kept iff `test_id` and `test_name` are strings; the key is the name with every `&` escaped to `&amp;` (so it unescapes to the name); the value is the id; the same in the V2 client (BlazemeterApiV2Impl.java lines 204-208) |
| LegacyApi.GetTestList | common/src/com/blaze/api/BlazemeterApi.java:379-422 | null unless the list can be read; otherwise the LinkedHashMap of the kept entries; the same in the V2 client (BlazemeterApiV2Impl.java lines 179-222) |
| LegacyApi.TestListMeaning | common/src/com/blaze/api/BlazemeterApi.java:393-413 | names in first-insertion order, each mapped to the last id given for it, taken from a kept entry; no more names than entries |
| LegacyApi.LastValueIn | common/src/com/blaze/api/BlazemeterApiV2Impl.java:193-207 | the id a name keeps is one of the pairs put |
| LegacyApi.GetTestCount | common/src/com/blaze/api/BlazemeterApi.java:313-327 | 0 for a blank key; a null reply or a missing `response_code` throws; 0 for any code other than "200"; with "200", the length of `tests`, and an exception when `tests` is missing or not an array |
| LegacyApi.ListWithinCount | common/src/com/blaze/api/BlazemeterApi.java:313-422 | the test list (379-422) never holds more names than the count (313-327) |
| Build.ValidateInput | agent/src/main/java/com/blaze/agent/BzmBuild.java:53-66 | a null listing throws; true iff the test id is among the values; for an unlisted id, false iff the key has at least 4 characters, and a shorter key throws `IndexOutOfBounds` |
| Build.IdOf | agent/src/main/java/com/blaze/agent/BzmBuild.java:91-92 | the id part is a prefix of the value and holds no dot |
| Build.TypeOf | agent/src/main/java/com/blaze/agent/BzmBuild.java:93 | id part, dot and type tag put together give the value back |
| Build.DecideMeaning | agent/src/main/java/com/blaze/agent/BzmBuild.java:84-103 | over `id.type` values: true iff some entry whose id occurs in the test id has a type containing "multi"; false iff entries match but none of them is multi; "not present" iff none matches |
| Build.Collection | agent/src/main/java/com/blaze/agent/BzmBuild.java:84-104 | a null listing throws; otherwise the loop with its flags and `break` decides as the scan does |
| Build.ServerListingWellFormed | common/src/main/java/com/blaze/api/ApiV3Impl.java:313-317 | every value of the listing `testsMultiMap` builds holds a dot |
| Build.CollectionOnServerListing | agent/src/main/java/com/blaze/agent/BzmBuild.java:91-101 | on that listing `collection` answers true, false or "not present" and never throws for a missing dot |
| Build.StopMaster | agent/src/main/java/com/blaze/agent/BzmBuild.java:126-143 | codes 1..99 or below -1 terminate (true unless that throws); 0 or 100 and up stop (false); -1 terminates then stops and returns false, or true when the stop throws |
| Build.GetReportUrl | agent/src/main/java/com/blaze/agent/BzmBuild.java:153-173 | a URL iff the reply has `error` and, when it is null, a string `result.publicToken`; with a null error the public-token link, otherwise the plain link |
| Build.ReportUrlShape | agent/src/main/java/com/blaze/agent/BzmBuild.java:162-165 | both links start with the server URL and end with `#masters/<masterId>/summary` |
| Build.ValidateCIStatus | agent/src/main/java/com/blaze/agent/BzmBuild.java:217-249 | errors iff both arrays were read and `errors` is non-empty; failures iff `failures` was read non-empty and `errors` is missing or empty; success otherwise |
| Build.ErrorsNeedFailuresArray | agent/src/main/java/com/blaze/agent/BzmBuild.java:224-229 | a reply without a `failures` array is a success even when it lists errors |
| Build.EndRound | agent/src/main/java/com/blaze/agent/BzmBuild.java:255-265 | every round before the one that ends the wait saw the test active |
| Build.WaitNotActive | agent/src/main/java/com/blaze/agent/BzmBuild.java:251-267 | at most 10 rounds of a sleep of `CHECK_INTERVAL` (60 000 ms, line 41) and a check; stops at the first inactive answer or at an interrupt, which skips its check; `active` is false only after an inactive answer |
| Build.FindZipMeaning | agent/src/main/java/com/blaze/agent/BzmBuild.java:180-187 | the search gives the `dataUrl` of the first "Zip" entry iff every entry before it has a title; it finds nothing iff every entry has a title other than "Zip" |
| Build.SearchZip | agent/src/main/java/com/blaze/agent/BzmBuild.java:181-187 | the loop with `break` finds what the search defines |
| Build.RetrieveJtlForSession | agent/src/main/java/com/blaze/agent/BzmBuild.java:176-204 | the loop with `break` reaches exactly the decision `JtlActionOf` states |
| Build.JtlActionOf | agent/src/main/java/com/blaze/agent/BzmBuild.java:176-204 | the request's exception escapes, and only it; a download is chosen iff the first "Zip" entry has a URL, and it goes to `jtlDir/<sessionId>.zip`; otherwise only a warning |
| Build.JtlReports | agent/src/main/java/com/blaze/agent/BzmBuild.java:145-150 | session i is handled with reply i, in list order, each as `JtlActionOf` decides; the run completes iff no request throws, and otherwise the first exception escapes |
| Build.BzmBuild.constructor | agent/src/main/java/com/blaze/agent/BzmBuild.java:44-45 | a build for a test id starts without a master |
| Build.BzmBuild.MasterId | agent/src/main/java/com/blaze/agent/BzmBuild.java:286-288 | `masterId()` is the field |
| Build.BzmBuild.StartTest | agent/src/main/java/com/blaze/agent/BzmBuild.java:68-81 | the master id becomes the reply's `id` (null when absent) once the collection check and the start succeed; any exception leaves it unchanged; the method returns the field |

## Left out

- HTTP transport, URL building, proxies and authentication: every reply is an input.
- File I/O: `FileUtils.copyURLToFile`, `getFileContents`, `saveJunit`, `getVersion` and `junitXml`. `RetrieveJtlForSession` only names the URL and the file path.
- Build.RetrieveJtlForSession: does not model `new URL(...)` rejecting a malformed URL string. That only adds a warning, which the model cannot tell from a download.
- Logging, the log formatter's own `SimpleFormatter.format` (`KeyMask.Format` starts from the formatted line), and the log line in `testsMultiMap`.
- Threads and time: `Thread.sleep` and interrupts are input sequences (`ApiV3.Attempt`, `Build.Tick`).
- ApiV3.RetryStart: the loop takes exactly five rounds of input; the rounds after the first reply are not consulted.
- Build.WaitNotActive: likewise takes exactly ten rounds of input.
- Build.BzmBuild.StartTest: `Utils.getTestId` is not part of this model. The start reply is an input, given for whichever id and collection flag the call would use.
- `getReport`, `TestResult`, `notes`, `properties`, `ping`, `getUser` and `testConfig`: request wrappers, or code that depends on classes not part of this model.
- LegacyApi.GetTestRunStatus: Java's reference comparison `jo.get("status") == "Test not found"` is the input `sameReference`. It can hold only for that exact text.
- Constants not shown in the sources are assumed: `Constants.THREE_DOTS` is "..." and `Constants.UNKNOWN_TYPE` is "unknown".
- JSON key names: the `JsonConstants` interface (common/src/com/blaze/runner/JsonConstants.java) defines only eleven keys, from "response_code" to "name". `JsonConstants.ID`, `ERRORS` and `FAILURES`, used at BzmBuild.java:75 and 225-226 and ApiV3Impl.java:128, are assumed to be "id", "errors" and "failures". The literal keys "test_id", "test_name", "tests", "collections", "type", "sessions", "progress", "title" and "publicToken" are taken as written at their uses.
- TestSettings.UpdateTest: modelled on values. The Java code puts the duration into the `override` object in place and sends the `result` object that contains it. The model builds the updated copy of `result`, so aliasing is not captured.
- Branches that test a reply object for Java null where org.json never returns one are modelled through `None` inputs. String escapes in `toString` are not modelled (`Json.Encode`).
- LegacyApi.Guarded: `uploadBinaryFile` dereferences `file.getName()`; a null file is not modelled.
- KeyMask.Format: positions count Unicode scalar values, one per `char` of the model's strings. Java's `lastIndexOf` and `substring` count UTF-16 code units, so a character outside the Basic Multilingual Plane before or inside the key window shifts the window Java masks. The model does not capture that shift.
- Json.ParseInt: accepts only the ASCII digits '0'..'9'. `Integer.parseInt` accepts every Unicode decimal digit (`Character.digit`), so a duration written with, say, Arabic-Indic digits would parse in Java and not in the model.
- Json.GetInt: the `Json` datatype has integers only, so `getInt` on a member holding a non-integer number (`1.5`, which Java narrows to 1 with `intValue`) cannot be represented. Floating-point members are not modelled.

## Findings

| source | as written | input that shows it | evidently intended | confidence | as-written member | corrected member |
|---|---|---|---|---|---|---|
| common/src/main/java/com/blaze/api/ApiV3Impl.java:122 | `result.get("dataUrl") == null` compares with Java null, which `JSONObject.get` never returns, so the NotFound rule is dead | reply `{"result":{"dataUrl":null}}`, key "key", id "m1": reported NotRunning | a JSON-null `dataUrl` means NotFound, as the rule's target says; line 128 tests `JSONObject.NULL` the intended way | not executed | ApiV3.MasterStatusAsWritten, ApiV3.MasterStatusNullDataUrl | ApiV3.MasterStatus |
