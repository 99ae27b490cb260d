/** ApiV3Impl: how the plugin reads the replies of the BlazeMeter v3 REST service.
    A reply is an input: `Some(json)` for a parsed body, `None` where the request, the
    body or the parse threw and the method catches it. Where the exception escapes the
    method, the reply is a `Result` instead. */
module ApiV3 {
  import opened Common
  import opened Text
  import opened Json
  import opened Linked

  /** TestStatus as the plugin uses it. */
  datatype TestStatus = Running | NotRunning | NotFound | Error

  /** `StringUtils.isBlank`: null, empty or whitespace only. */
  predicate Blank(s: Option<string>)
  {
    s.None? || IsBlank(s.value)
  }

  /** The guard `isBlank(apiKey) & isBlank(id)`: a request is refused only when the
      key and the id are both blank. */
  predicate Refused(apiKey: Option<string>, id: Option<string>)
  {
    Blank(apiKey) && Blank(id)
  }

  /** `(JSONObject) jo.get("result")`: None where the reply is missing, has no result
      or its result is not an object (JSONObject.NULL included). */
  function ResultObject(reply: Option<Json>): (r: Option<Json>)
    ensures r.Some? ==> reply.Some? && Get(reply.value, "result") == r && r.value.JObj?
  {
    var jo :- reply;
    GetObject(jo, "result")
  }

  // ---------------------------------------------------------------------------
  // masterStatus

  /** The rules that follow the `dataUrl` test: a status other than "ENDED" means the
      master runs, otherwise a non-null `errors` member means it failed. */
  function StatusRules(result: Json): (s: TestStatus)
    ensures s != NotFound
    ensures s == Running <==> GetString(result, "status").Some? && GetString(result, "status").value != "ENDED"
    ensures s == NotRunning <==>
              (!Has(result, "status") || GetString(result, "status") == Some("ENDED"))
              && (!Has(result, "errors") || Get(result, "errors") == Some(JNull))
  {
    if Has(result, "status") then
      match GetString(result, "status")
      case None => Error
      case Some(status) => if status != "ENDED" then Running else ErrorsRule(result)
    else ErrorsRule(result)
  }

  function ErrorsRule(result: Json): TestStatus
  {
    if Has(result, "errors") && Get(result, "errors") != Some(JNull) then Error else NotRunning
  }

  /** `masterStatus` as written: its first rule compares `get("dataUrl")` with Java's
      `null`, which `JSONObject.get` never returns (it throws for a missing member and
      yields JSONObject.NULL for a JSON null). */
  function MasterStatusAsWritten(apiKey: Option<string>, id: Option<string>, reply: Option<Json>): (s: TestStatus)
    ensures s == NotFound <==> Refused(apiKey, id)
  {
    if Refused(apiKey, id) then NotFound
    else
      match ResultObject(reply)
      case None => Error
      case Some(result) =>
        if Has(result, "dataUrl") && Get(result, "dataUrl").None? then NotFound else StatusRules(result)
  }

  /** `masterStatus` with its first rule as intended: a `dataUrl` that is JSON null means
      the master was not found. Any failure to read the reply gives Error. */
  function MasterStatus(apiKey: Option<string>, id: Option<string>, reply: Option<Json>): (s: TestStatus)
    ensures s == NotFound <==>
              Refused(apiKey, id)
              || (ResultObject(reply).Some? && Get(ResultObject(reply).value, "dataUrl") == Some(JNull))
    ensures !Refused(apiKey, id) && ResultObject(reply).None? ==> s == Error
    ensures (!Refused(apiKey, id) && ResultObject(reply).Some? && Get(ResultObject(reply).value, "dataUrl") != Some(JNull))
              ==> s == StatusRules(ResultObject(reply).value)
  {
    if Refused(apiKey, id) then NotFound
    else
      match ResultObject(reply)
      case None => Error
      case Some(result) =>
        if Get(result, "dataUrl") == Some(JNull) then NotFound else StatusRules(result)
  }

  /** The two readings differ exactly on a master whose `dataUrl` is null: as written
      it is reported as not running, as intended as not found. */
  lemma MasterStatusNullDataUrl()
    ensures
      var reply := Some(JObj([Member("result", JObj([Member("dataUrl", JNull)]))]));
      MasterStatusAsWritten(Some("key"), Some("m1"), reply) == NotRunning
      && MasterStatus(Some("key"), Some("m1"), reply) == NotFound
  {
    var result := JObj([Member("dataUrl", JNull)]);
    assert !Has(result, "status") && !Has(result, "errors");
    assert !IsBlank("key") by { assert !IsWhitespace("key"[0]); }
  }

  /** Wherever `dataUrl` is not JSON null, the two readings agree. */
  lemma MasterStatusAgrees(apiKey: Option<string>, id: Option<string>, reply: Option<Json>)
    requires ResultObject(reply).None? || Get(ResultObject(reply).value, "dataUrl") != Some(JNull)
    ensures MasterStatusAsWritten(apiKey, id, reply) == MasterStatus(apiKey, id, reply)
  {
  }

  /** `getTestMasterStatusCode`: `result.progress`, 0 when refused or on any failure. */
  function MasterStatusCode(apiKey: Option<string>, id: Option<string>, reply: Option<Json>): (code: int)
    ensures IsInt32(code)
    ensures Refused(apiKey, id) ==> code == 0
    ensures code != 0 ==> ResultObject(reply).Some? && GetInt(ResultObject(reply).value, "progress") == Some(code)
    ensures (!Refused(apiKey, id) && ResultObject(reply).Some? && GetInt(ResultObject(reply).value, "progress").Some?)
              ==> code == GetInt(ResultObject(reply).value, "progress").value
  {
    if Refused(apiKey, id) then 0
    else
      match ResultObject(reply)
      case None => 0
      case Some(result) =>
        match GetInt(result, "progress")
        case None => 0
        case Some(progress) => progress
  }

  // ---------------------------------------------------------------------------
  // startTest

  /** At most five repeated start requests, the k-th after a pause of 10 000 * k ms. */
  const MaxRetries: nat := 5
  const PauseUnit: nat := 10000

  /** What happens in one round of the retry loop: the pause is interrupted (no request
      is sent), the request or its parse throws, or a reply arrives (null or not). */
  datatype Attempt = Interrupted | BadResponse | Answered(reply: Option<Json>)

  predicate Succeeds(a: Attempt)
  {
    a.Answered? && a.reply.Some?
  }

  /** The round of the first non-null reply, or the number of rounds when none comes. */
  function FirstAnswer(attempts: seq<Attempt>): (k: nat)
    ensures k <= |attempts|
    ensures k < |attempts| ==> Succeeds(attempts[k])
    ensures forall j | 0 <= j < k :: !Succeeds(attempts[j])
  {
    if attempts == [] then 0
    else if Succeeds(attempts[0]) then 0
    else 1 + FirstAnswer(attempts[1..])
  }

  /** The reply the retries end with: the first non-null one, or null. */
  function RetryOutcome(attempts: seq<Attempt>): (reply: Option<Json>)
    ensures reply.Some? <==> exists j | 0 <= j < |attempts| :: Succeeds(attempts[j])
  {
    var k := FirstAnswer(attempts);
    if k < |attempts| then attempts[k].reply else None
  }

  /** The retry loop of `startTest`: the pauses it takes, in order, and the reply it
      ends with. The counter advances whatever the round brings. */
  method RetryStart(attempts: seq<Attempt>) returns (reply: Option<Json>, pauses: seq<nat>)
    requires |attempts| == MaxRetries
    ensures reply == RetryOutcome(attempts)
    ensures |pauses| == if FirstAnswer(attempts) < MaxRetries then FirstAnswer(attempts) + 1 else MaxRetries
    ensures forall k | 0 <= k < |pauses| :: pauses[k] == PauseUnit * (k + 1)
  {
    reply := None;
    pauses := [];
    var retries := 1;
    while retries < MaxRetries + 1
      invariant 1 <= retries <= MaxRetries + 1
      invariant |pauses| == retries - 1
      invariant forall k | 0 <= k < |pauses| :: pauses[k] == PauseUnit * (k + 1)
      invariant reply == None
      invariant forall j | 0 <= j < retries - 1 :: !Succeeds(attempts[j])
    {
      pauses := pauses + [PauseUnit * retries];
      match attempts[retries - 1] {
        case Interrupted =>
        case BadResponse =>
        case Answered(r) =>
          if r.Some? {
            reply := r;
            break;
          }
      }
      retries := retries + 1;
    }
  }

  /** The member of `result` that holds the test id: a collection's id is named
      `testCollectionId`. */
  function TestIdKey(collection: bool): string
  {
    if collection then "testCollectionId" else "testId"
  }

  /** The result map of `startTest`: `id`, `testId` and `name` are copied from the reply's
      result in that order until a lookup throws; then the reply's `error` is added when
      it has one. The `return` in `finally` swallows whatever the error branch throws. */
  function StartMap(jo: Option<Json>, collection: bool): (m: map<string, string>)
    ensures m.Keys <= {"id", "testId", "name", "error"}
    ensures "id" in m ==> ResultObject(jo).Some? && GetString(ResultObject(jo).value, "id") == Some(m["id"])
    ensures "testId" in m ==> "id" in m && GetString(ResultObject(jo).value, TestIdKey(collection)) == Some(m["testId"])
    ensures "name" in m ==> "testId" in m && GetString(ResultObject(jo).value, "name") == Some(m["name"])
    ensures ResultObject(jo).Some? && GetString(ResultObject(jo).value, "id").Some? ==> "id" in m
    ensures "id" in m && GetString(ResultObject(jo).value, TestIdKey(collection)).Some? ==> "testId" in m
    ensures "testId" in m && GetString(ResultObject(jo).value, "name").Some? ==> "name" in m
    ensures "error" in m <==> "name" !in m && jo.Some? && Has(jo.value, "error")
    ensures "error" in m ==> m["error"] == Render(Get(jo.value, "error").value)
  {
    var copied := CopiedFields(jo, collection);
    if "name" in copied then copied
    else
      match jo
      case None => copied
      case Some(o) =>
        match Get(o, "error")
        case None => copied
        case Some(e) => copied["error" := Render(e)]
  }

  /** The entries put before the first lookup that throws. */
  function CopiedFields(jo: Option<Json>, collection: bool): (m: map<string, string>)
    ensures m.Keys <= {"id", "testId", "name"}
    ensures "id" in m <==> ResultObject(jo).Some? && GetString(ResultObject(jo).value, "id").Some?
    ensures "id" in m ==> GetString(ResultObject(jo).value, "id") == Some(m["id"])
    ensures "testId" in m <==> "id" in m && GetString(ResultObject(jo).value, TestIdKey(collection)).Some?
    ensures "testId" in m ==> GetString(ResultObject(jo).value, TestIdKey(collection)) == Some(m["testId"])
    ensures "name" in m <==> "testId" in m && GetString(ResultObject(jo).value, "name").Some?
    ensures "name" in m ==> GetString(ResultObject(jo).value, "name") == Some(m["name"])
  {
    match ResultObject(jo)
    case None => map[]
    case Some(result) =>
      match GetString(result, "id")
      case None => map[]
      case Some(id) =>
        match GetString(result, TestIdKey(collection))
        case None => map["id" := id]
        case Some(testId) =>
          match GetString(result, "name")
          case None => map["id" := id, "testId" := testId]
          case Some(name) => map["id" := id, "testId" := testId, "name" := name]
  }

  /** A result with the three strings gives exactly those three entries. */
  lemma StartMapComplete(result: Json, collection: bool, error: Json)
    requires result.JObj?
    requires GetString(result, "id").Some? && GetString(result, TestIdKey(collection)).Some?
    requires GetString(result, "name").Some?
    ensures StartMap(Some(JObj([Member("result", result), Member("error", error)])), collection)
              == map["id" := GetString(result, "id").value,
                     "testId" := GetString(result, TestIdKey(collection)).value,
                     "name" := GetString(result, "name").value]
  {
  }

  /** `startTest`. The first request's exception escapes (`first` is Err); a null reply
      to it leads to the retries unless the test is already active. */
  method StartTest(apiKey: Option<string>, testId: Option<string>, collection: bool,
                   first: Result<Option<Json>>, isActive: bool, attempts: seq<Attempt>)
    returns (r: Result<Option<map<string, string>>>, pauses: seq<nat>)
    requires |attempts| == MaxRetries
    ensures Refused(apiKey, testId) ==> r == Ok(None) && pauses == []
    ensures !Refused(apiKey, testId) && first.Err? ==> r == Err(first.fault) && pauses == []
    ensures (!Refused(apiKey, testId) && first.Ok? && (first.value.Some? || isActive))
              ==> r == Ok(Some(StartMap(first.value, collection))) && pauses == []
    ensures (!Refused(apiKey, testId) && first == Ok(None) && !isActive)
              ==> r == Ok(Some(StartMap(RetryOutcome(attempts), collection))) && 0 < |pauses| <= MaxRetries
  {
    pauses := [];
    if Refused(apiKey, testId) {
      return Ok(None), pauses;
    }
    if first.Err? {
      return Err(first.fault), pauses;
    }
    var jo := first.value;
    if jo.None? && !isActive {
      jo, pauses := RetryStart(attempts);
    }
    r := Ok(Some(StartMap(jo, collection)));
  }

  // ---------------------------------------------------------------------------
  // testsMultiMap

  /** Constants.UNKNOWN_TYPE, the type tag of an entry without `type`. */
  const UnknownType: string := "unknown"

  /** One entry of the test listing as the pair put into the multimap: the name with
      every `&` escaped (or "") and `id.type`; None where a lookup throws and the entry
      is skipped. */
  function EntryOf(en: Json): (e: Option<(string, string)>)
    ensures e.Some? <==> en.JObj? && Has(en, "id")
                          && (!Has(en, "name") || GetString(en, "name").Some?)
                          && (!Has(en, "type") || GetString(en, "type").Some?)
    ensures e.Some? ==>
              var name := if Has(en, "name") then GetString(en, "name").value else "";
              e.value.0 == EscapeAmp(name) && UnescapeAmp(e.value.0) == name
    ensures e.Some? ==>
              var id := Render(Get(en, "id").value);
              |id| < |e.value.1| && e.value.1[..|id|] == id && e.value.1[|id|] == '.'
              && e.value.1[|id| + 1..] == (if Has(en, "type") then GetString(en, "type").value else UnknownType)
  {
    if !en.JObj? then None
    else
      var id :- Get(en, "id");
      var name :- if Has(en, "name") then GetString(en, "name") else Some("");
      var testType :- if Has(en, "type") then GetString(en, "type") else Some(UnknownType);
      EscapeAmpRoundTrip(name);
      assert UnescapeAmp([]) == [];
      var value := Render(id) + "." + testType;
      assert value[..|Render(id)|] == Render(id) && value[|Render(id)| + 1..] == testType;
      Some((EscapeAmp(name), value))
  }

  /** The array the listing loop runs over, following the method's tests in order; None
      where the method returns null (a blank key, no reply, the 401 answer, a missing,
      null or non-array result, or a lookup that throws on the way). */
  function TestArray(apiKey: Option<string>, reply: Option<Json>): Option<seq<Json>>
  {
    if Blank(apiKey) then None
    else
      var jo :- reply;
      if Has(jo, "error") then
        var result :- Get(jo, "result");
        if result == JNull then
          var error :- GetObject(jo, "error");
          var code :- GetInt(error, "code");
          if code == 401 then None else ResultArray(jo)
        else ResultArray(jo)
      else ResultArray(jo)
  }

  function ResultArray(jo: Json): Option<seq<Json>>
  {
    if Has(jo, "result") && Get(jo, "result") != Some(JNull) then GetArray(jo, "result") else None
  }

  /** The 401 test changes nothing: a null result leads to null anyway, so the listing
      is read exactly when the reply's result is an array. */
  lemma TestArrayIsResultArray(apiKey: Option<string>, reply: Option<Json>)
    ensures TestArray(apiKey, reply) == if Blank(apiKey) || reply.None? then None else GetArray(reply.value, "result")
  {
  }

  /** `testsMultiMap`: the multimap name -> `id.type` of the listing, or null. */
  method TestsMultiMap(apiKey: Option<string>, reply: Option<Json>) returns (listing: Option<seq<(string, string)>>)
    ensures listing.Some? <==> TestArray(apiKey, reply).Some?
    ensures listing.Some? ==> listing.value == MultimapOf(Filtered(TestArray(apiKey, reply).value, EntryOf))
    ensures listing.Some? ==> listing.value == Dedup(Filtered(TestArray(apiKey, reply).value, EntryOf))
  {
    var result := TestArray(apiKey, reply);
    if result.None? {
      return None;
    }
    var items := result.value;
    if |items| == 0 {
      return Some([]);
    }
    var m: seq<(string, string)> := [];
    var i := 0;
    while i < |items|
      invariant 0 <= i <= |items|
      invariant m == MultimapOf(Filtered(items[..i], EntryOf))
    {
      FilteredStep(items, i, EntryOf);
      var e := EntryOf(items[i]);
      if e.Some? {
        assert Filtered(items[..i + 1], EntryOf) == Filtered(items[..i], EntryOf) + [e.value];
        MultimapStep(Filtered(items[..i], EntryOf), e.value);
        m := MultiPut(m, e.value.0, e.value.1);
      } else {
        assert Filtered(items[..i + 1], EntryOf) == Filtered(items[..i], EntryOf);
      }
      i := i + 1;
    }
    assert items[..i] == items;
    MultimapIsDedup(Filtered(items, EntryOf));
    listing := Some(m);
  }

  // ---------------------------------------------------------------------------
  // active

  /** One of the two scans of `active`: Some(true) at the first element whose decimal
      text is `testId`, None where an element before it is not an int (`getInt` throws). */
  function Scan(items: seq<Json>, testId: string): Option<bool>
  {
    if items == [] then Some(false)
    else
      match ToInt(items[0])
      case None => None
      case Some(n) => if IntToString(n) == testId then Some(true) else Scan(items[1..], testId)
  }

  predicate Listed(items: seq<Json>, testId: string)
  {
    exists i | 0 <= i < |items| :: ToInt(items[i]).Some? && IntToString(ToInt(items[i]).value) == testId
  }

  /** A scan that finds the test found a listed id; over ints only it is exact. */
  lemma {:induction false} ScanMeaning(items: seq<Json>, testId: string)
    ensures Scan(items, testId) == Some(true) ==> Listed(items, testId)
    ensures (forall i | 0 <= i < |items| :: ToInt(items[i]).Some?) ==> Scan(items, testId) == Some(Listed(items, testId))
  {
    if items != [] {
      ScanMeaning(items[1..], testId);
      if Listed(items[1..], testId) {
        var i :| 0 <= i < |items[1..]| && ToInt(items[1..][i]).Some? && IntToString(ToInt(items[1..][i]).value) == testId;
        assert items[i + 1] == items[1..][i];
      }
      if Listed(items, testId) && ToInt(items[0]).Some? && IntToString(ToInt(items[0]).value) != testId {
        var i :| 0 <= i < |items| && ToInt(items[i]).Some? && IntToString(ToInt(items[i]).value) == testId;
        assert items[1..][i - 1] == items[i];
      }
    }
  }

  /** What `active` answers: the ids in `result.tests` are scanned first, then those in
      `result.collections`; a null result and any failure give false. */
  function ActiveOf(testId: string, reply: Option<Json>): bool
  {
    match reply
    case None => false
    case Some(jo) =>
      if Has(jo, "result") && Get(jo, "result") != Some(JNull) then
        match ResultObject(reply)
        case None => false
        case Some(result) =>
          match GetArray(result, "tests")
          case None => false
          case Some(tests) =>
            match Scan(tests, testId)
            case None => false
            case Some(found) =>
              found ||
                match GetArray(result, "collections")
                case None => false
                case Some(collections) => Scan(collections, testId) == Some(true)
      else false
  }

  /** `active` is true only for a listed id; when both arrays hold ints only, it is true
      exactly when the id is listed in one of them. */
  lemma ActiveMeaning(testId: string, result: Json, reply: Option<Json>)
    requires ResultObject(reply) == Some(result)
    ensures ActiveOf(testId, reply) ==>
              (GetArray(result, "tests").Some? && Listed(GetArray(result, "tests").value, testId))
              || (GetArray(result, "collections").Some? && Listed(GetArray(result, "collections").value, testId))
    ensures GetArray(result, "tests").Some? && GetArray(result, "collections").Some?
            && (forall i | 0 <= i < |GetArray(result, "tests").value| :: ToInt(GetArray(result, "tests").value[i]).Some?)
            && (forall i | 0 <= i < |GetArray(result, "collections").value| :: ToInt(GetArray(result, "collections").value[i]).Some?)
            ==> (ActiveOf(testId, reply) <==>
                   Listed(GetArray(result, "tests").value, testId)
                   || Listed(GetArray(result, "collections").value, testId))
  {
    if GetArray(result, "tests").Some? {
      ScanMeaning(GetArray(result, "tests").value, testId);
    }
    if GetArray(result, "collections").Some? {
      ScanMeaning(GetArray(result, "collections").value, testId);
    }
  }

  /** The linear search of `active` over one array; None where `getInt` throws. */
  method Search(items: seq<Json>, testId: string) returns (found: Option<bool>)
    ensures found == Scan(items, testId)
  {
    var i := 0;
    while i < |items|
      invariant 0 <= i <= |items|
      invariant Scan(items, testId) == Scan(items[i..], testId)
    {
      assert items[i..][1..] == items[i + 1..];
      var n := ToInt(items[i]);
      if n.None? {
        return None;
      }
      if IntToString(n.value) == testId {
        return Some(true);
      }
      i := i + 1;
    }
    return Some(false);
  }

  /** `active`. */
  method Active(testId: string, reply: Option<Json>) returns (active: bool)
    ensures active == ActiveOf(testId, reply)
  {
    if reply.None? {
      return false;
    }
    var jo := reply.value;
    if !(Has(jo, "result") && Get(jo, "result") != Some(JNull)) {
      return false;
    }
    var result := ResultObject(reply);
    if result.None? {
      return false;
    }
    var tests := GetArray(result.value, "tests");
    if tests.None? {
      return false;
    }
    var inTests := Search(tests.value, testId);
    if inTests != Some(false) {
      return inTests == Some(true);
    }
    var collections := GetArray(result.value, "collections");
    if collections.None? {
      return false;
    }
    var inCollections := Search(collections.value, testId);
    return inCollections == Some(true);
  }

  // ---------------------------------------------------------------------------
  // getListOfSessionIds

  /** The ids of the sessions up to the first one without a string `id`. */
  function SessionIds(sessions: seq<Json>): seq<string>
  {
    if sessions == [] then []
    else
      match GetString(sessions[0], "id")
      case None => []
      case Some(id) => [id] + SessionIds(sessions[1..])
  }

  /** The ids are those of the first sessions, in server order, and the collection stops
      exactly at the first session without a string `id`. */
  lemma {:induction false} SessionIdsPrefix(sessions: seq<Json>)
    ensures |SessionIds(sessions)| <= |sessions|
    ensures forall i | 0 <= i < |SessionIds(sessions)| :: GetString(sessions[i], "id") == Some(SessionIds(sessions)[i])
    ensures |SessionIds(sessions)| < |sessions| ==> GetString(sessions[|SessionIds(sessions)|], "id").None?
  {
    if sessions != [] && GetString(sessions[0], "id").Some? {
      var rest := sessions[1..];
      SessionIdsPrefix(rest);
      var ids := SessionIds(sessions);
      assert ids == [GetString(sessions[0], "id").value] + SessionIds(rest);
      forall i | 0 < i < |ids| ensures GetString(sessions[i], "id") == Some(ids[i]) {
        assert sessions[i] == rest[i - 1] && ids[i] == SessionIds(rest)[i - 1];
      }
      if |ids| < |sessions| {
        assert sessions[|ids|] == rest[|SessionIds(rest)|];
      }
    }
  }

  /** The ids the method collects from a parsed reply: none when `result.sessions` is
      missing or ill-typed. */
  function SessionsOf(jo: Json): seq<string>
  {
    match ResultObject(Some(jo))
    case None => []
    case Some(result) =>
      match GetArray(result, "sessions")
      case None => []
      case Some(sessions) => SessionIds(sessions)
  }

  /** The ids from session `i` on: none when it has no id, else its id and the rest. */
  lemma SessionIdsFrom(items: seq<Json>, i: nat)
    requires i < |items|
    ensures SessionIds(items[i..]) ==
              match GetString(items[i], "id")
              case None => []
              case Some(id) => [id] + SessionIds(items[i + 1..])
  {
    assert items[i..][0] == items[i] && items[i..][1..] == items[i + 1..];
  }

  /** The loop of `getListOfSessionIds`: append ids until an entry has none. */
  method CollectIds(items: seq<Json>) returns (ids: seq<string>)
    ensures ids == SessionIds(items)
  {
    ids := [];
    var i := 0;
    while i < |items|
      invariant 0 <= i <= |items|
      invariant ids + SessionIds(items[i..]) == SessionIds(items)
    {
      SessionIdsFrom(items, i);
      var id := GetString(items[i], "id");
      if id.None? {
        break;
      }
      assert ids + [id.value] + SessionIds(items[i + 1..]) == ids + ([id.value] + SessionIds(items[i + 1..]));
      ids := ids + [id.value];
      i := i + 1;
    }
    assert i == |items| ==> SessionIds(items[i..]) == [];
  }

  /** `getListOfSessionIds`: the request and the parse throw to the caller (`reply` is
      Err); past them every failure is caught and the ids collected so far are returned. */
  method ListOfSessionIds(reply: Result<Json>) returns (r: Result<seq<string>>)
    ensures reply.Err? ==> r == Err(reply.fault)
    ensures reply.Ok? ==> r == Ok(SessionsOf(reply.value))
  {
    if reply.Err? {
      return Err(reply.fault);
    }
    var result := GetObject(reply.value, "result");
    if result.None? {
      return Ok([]);
    }
    var sessions := GetArray(result.value, "sessions");
    if sessions.None? {
      return Ok([]);
    }
    var ids := CollectIds(sessions.value);
    return Ok(ids);
  }
}
