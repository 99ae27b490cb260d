/** BlazemeterApi and BlazemeterApiV2Impl, the clients of the older BlazeMeter REST
    service. Both classes guard their calls and read the test list in the same way; they
    differ only in how the reply is fetched, which here is an input: `reply` is what
    `getJson` returned (None for Java's null). */
module LegacyApi {
  import opened Common
  import opened Text
  import opened Json
  import opened Linked

  /** A user key or test id that is neither null nor empty after `trim()`. */
  predicate Present(s: Option<string>)
  {
    s.Some? && !TrimsToEmpty(s.value)
  }

  /** `validate`: the key and the test id are both given, and each has a character
      above U+0020. */
  function Validate(userKey: Option<string>, testId: Option<string>): (ok: bool)
    ensures ok <==> userKey.Some? && testId.Some?
                    && (exists i | 0 <= i < |userKey.value| :: userKey.value[i] > ' ')
                    && (exists i | 0 <= i < |testId.value| :: testId.value[i] > ' ')
  {
    if !Present(userKey) then false
    else if !Present(testId) then false
    else true
  }

  // ---------------------------------------------------------------------------
  // The HTTP exchange of BlazemeterApi

  /** What executing a POST gave: a status code and a body, `body` being None where the
      entity cannot be read or parsed as a JSON object. */
  datatype HttpResponse = HttpResponse(status: int, body: Option<Json>)

  /** The response `getResponse` returns, and whether it complained on the error stream. */
  datatype Exchange = Exchange(response: Option<HttpResponse>, complained: bool)

  /** `getResponse`: a status outside [200, 300) is only reported, the response is
      returned all the same; a client that threw leaves it null. */
  function GetResponse(executed: Option<HttpResponse>): (e: Exchange)
    ensures e.response == executed
    ensures e.complained <==> executed.None? || !(200 <= executed.value.status < 300)
  {
    match executed
    case None => Exchange(None, true)
    case Some(r) => Exchange(Some(r), r.status >= 300 || r.status < 200)
  }

  /** `getJson`: the parsed body of the response, null where there is none. */
  function GetJson(executed: Option<HttpResponse>): (jo: Option<Json>)
    ensures jo.Some? ==> executed.Some? && executed.value.body == jo
  {
    match GetResponse(executed).response
    case None => None
    case Some(r) => r.body
  }

  /** The status code never decides what `getJson` returns. */
  lemma GetJsonIgnoresStatus(status: int, status': int, body: Option<Json>)
    ensures GetJson(Some(HttpResponse(status, body))) == GetJson(Some(HttpResponse(status', body)))
    ensures GetJson(Some(HttpResponse(status, body))) == body
  {
    assert GetResponse(Some(HttpResponse(status, body))).response == Some(HttpResponse(status, body));
    assert GetResponse(Some(HttpResponse(status', body))).response == Some(HttpResponse(status', body));
  }

  // ---------------------------------------------------------------------------
  // Guarded calls

  /** A guarded call: whether a request was sent, and what the method returned. */
  datatype Call<T> = Call(sent: bool, value: T)

  /** `uploadFile`, `uploadBinaryFile`, `startTest`, `stopTest`, `aggregateReport`: null
      without a request when validation fails, otherwise the reply of the request. */
  function Guarded(userKey: Option<string>, testId: Option<string>, reply: Option<Json>): (c: Call<Option<Json>>)
    ensures c.sent <==> Validate(userKey, testId)
    ensures !c.sent ==> c.value.None?
    ensures c.sent ==> c.value == reply
  {
    if !Validate(userKey, testId) then Call(false, None) else Call(true, reply)
  }

  /** `uploadJmx`: false without a request when validation fails; otherwise the script
      is sent and the answer is true whatever the reply (putting a string under "data"
      never throws). */
  function UploadJmx(userKey: Option<string>, testId: Option<string>): (c: Call<bool>)
    ensures c.sent <==> Validate(userKey, testId)
    ensures c.value <==> c.sent
  {
    if !Validate(userKey, testId) then Call(false, false) else Call(true, true)
  }

  // ---------------------------------------------------------------------------
  // getTestRunStatus

  /** The status a TestInfo is given: the NotFound and Error constants, or the text of
      the reply's `status`. */
  datatype RunStatus = StatusNotFound | StatusError | Reported(status: string)

  /** A TestInfo as built: a field the method never set stays null. */
  datatype TestInfo = TestInfo(id: Option<string>, name: Option<string>, status: Option<RunStatus>)

  const NotFoundText: string := "Test not found"

  /** `getTestRunStatus`. Its first test compares `jo.get("status")` with a string literal
      by reference, which Java does not settle from the values alone: `sameReference`
      says whether it holds, and it can only hold for a status that is that text. */
  function GetTestRunStatus(userKey: Option<string>, testId: Option<string>, reply: Option<Json>,
                            sameReference: bool): (ti: TestInfo)
    ensures ti.status.Some?
    ensures ti.name.Some? ==> ti.id.Some?
    ensures ti.status == Some(StatusNotFound) <==>
              !Validate(userKey, testId)
              || (reply.Some? && sameReference && Get(reply.value, "status") == Some(JStr(NotFoundText)))
    ensures ti.status.value.Reported? ==>
              Validate(userKey, testId) && reply.Some?
              && ti.id == GetString(reply.value, "test_id") && ti.name == GetString(reply.value, "test_name")
              && GetString(reply.value, "status") == Some(ti.status.value.status)
    ensures ti.id.Some? ==> reply.Some? && ti.id == GetString(reply.value, "test_id")
    ensures ti.name.Some? ==> reply.Some? && ti.name == GetString(reply.value, "test_name")
    ensures Validate(userKey, testId) && reply.Some? && !sameReference
            && Has(reply.value, "status") && GetString(reply.value, "test_id").Some?
            && GetString(reply.value, "test_name").Some? && GetString(reply.value, "status").Some?
            ==> ti.status.value.Reported?
  {
    if !Validate(userKey, testId) then TestInfo(None, None, Some(StatusNotFound))
    else
      match reply
      case None => TestInfo(None, None, Some(StatusError))
      case Some(jo) =>
        match Get(jo, "status")
        case None => TestInfo(None, None, Some(StatusError))
        case Some(status) =>
          if sameReference && status == JStr(NotFoundText) then TestInfo(None, None, Some(StatusNotFound))
          else
            match GetString(jo, "test_id")
            case None => TestInfo(None, None, Some(StatusError))
            case Some(id) =>
              match GetString(jo, "test_name")
              case None => TestInfo(Some(id), None, Some(StatusError))
              case Some(name) =>
                match GetString(jo, "status")
                case None => TestInfo(Some(id), Some(name), Some(StatusError))
                case Some(s) => TestInfo(Some(id), Some(name), Some(Reported(s)))
  }

  // ---------------------------------------------------------------------------
  // getTestList and getTestCount

  /** `userKey == null || userKey.trim().isEmpty()`. */
  predicate BlankKey(userKey: Option<string>)
  {
    !Present(userKey)
  }

  /** A reply whose `response_code`, as text, is "200" (a number or a string). */
  predicate Accepted(jo: Json)
  {
    Has(jo, "response_code") && Render(Get(jo, "response_code").value) == "200"
  }

  /** The `tests` array `getTestList` reads; None where it returns null (a blank key, a
      null reply, another response code, or a `tests` member that is not an array). */
  function TestsArray(userKey: Option<string>, reply: Option<Json>): (r: Option<seq<Json>>)
    ensures r.Some? ==> !BlankKey(userKey) && reply.Some? && Accepted(reply.value)
  {
    if BlankKey(userKey) then None
    else
      var jo :- reply;
      if Accepted(jo) then GetArray(jo, "tests") else None
  }

  /** One test as put into the map: its name with every `&` escaped, and its id; None
      for an entry that is not an object or lacks either string. */
  function TestEntry(en: Json): (e: Option<(string, string)>)
    ensures e.Some? <==> GetString(en, "test_id").Some? && GetString(en, "test_name").Some?
    ensures e.Some? ==> e.value.1 == GetString(en, "test_id").value
                        && e.value.0 == EscapeAmp(GetString(en, "test_name").value)
                        && UnescapeAmp(e.value.0) == GetString(en, "test_name").value
  {
    var id :- GetString(en, "test_id");
    var name :- GetString(en, "test_name");
    EscapeAmpRoundTrip(name);
    Some((EscapeAmp(name), id))
  }

  /** `getTestList`: the LinkedHashMap name -> id filled entry by entry, or null. */
  method GetTestList(userKey: Option<string>, reply: Option<Json>) returns (list: Option<seq<(string, string)>>)
    ensures list.Some? <==> TestsArray(userKey, reply).Some?
    ensures list.Some? ==> list.value == MapOf(Filtered(TestsArray(userKey, reply).value, TestEntry))
  {
    var tests := TestsArray(userKey, reply);
    if tests.None? {
      return None;
    }
    var items := tests.value;
    var m: seq<(string, string)> := [];
    var i := 0;
    while i < |items|
      invariant 0 <= i <= |items|
      invariant m == MapOf(Filtered(items[..i], TestEntry))
    {
      assert items[..i + 1][..i] == items[..i];
      match TestEntry(items[i]) {
        case Some(e) =>
          assert Filtered(items[..i + 1], TestEntry) == Filtered(items[..i], TestEntry) + [e];
          m := MapPut(m, e.0, e.1);
        case None =>
      }
      i := i + 1;
    }
    assert items[..i] == items;
    list := Some(m);
  }

  /** The names of the map are the distinct names of the well-formed entries in first
      insertion order; each name holds the id of the last entry with that name; and every
      name/id pair comes from one entry. */
  lemma TestListMeaning(items: seq<Json>, name: string)
    ensures KeysOf(MapOf(Filtered(items, TestEntry))) == Dedup(KeysOf(Filtered(items, TestEntry)))
    ensures Lookup(MapOf(Filtered(items, TestEntry)), name) == LastValue(Filtered(items, TestEntry), name)
    ensures LastValue(Filtered(items, TestEntry), name).Some? ==>
              exists i | 0 <= i < |items| :: TestEntry(items[i]) == Some((name, LastValue(Filtered(items, TestEntry), name).value))
    ensures |MapOf(Filtered(items, TestEntry))| <= |items|
  {
    var ps := Filtered(items, TestEntry);
    MapOfKeys(ps);
    MapOfLookup(ps, name);
    DedupProperties(KeysOf(ps));
    if LastValue(ps, name).Some? {
      LastValueIn(ps, name);
      FilteredElements(items, TestEntry, (name, LastValue(ps, name).value));
    } else {
      FilteredElements(items, TestEntry, (name, ""));
    }
  }

  /** The pair the last value comes from is in the sequence. */
  lemma {:induction false} LastValueIn(ps: seq<(string, string)>, k: string)
    requires LastValue(ps, k).Some?
    ensures (k, LastValue(ps, k).value) in ps
  {
    if ps[|ps| - 1].0 != k {
      LastValueIn(ps[..|ps| - 1], k);
    }
  }

  /** `getTestCount`: 0 for a blank key or another response code, otherwise the length of
      `tests`; a null reply, a missing member or a `tests` that is not an array throws. */
  function GetTestCount(userKey: Option<string>, reply: Option<Json>): (r: Result<int>)
    ensures BlankKey(userKey) ==> r == Ok(0)
    ensures !BlankKey(userKey) && reply.None? ==> r == Err(NullPointer)
    ensures r.Ok? && r.value != 0 ==> TestsArray(userKey, reply).Some? && r.value == |TestsArray(userKey, reply).value|
    ensures TestsArray(userKey, reply).Some? ==> r == Ok(|TestsArray(userKey, reply).value|)
    ensures !BlankKey(userKey) && reply.Some? && !Has(reply.value, "response_code") ==> r == Err(JsonFault)
    ensures (!BlankKey(userKey) && reply.Some? && Has(reply.value, "response_code") && !Accepted(reply.value))
              ==> r == Ok(0)
    ensures (!BlankKey(userKey) && reply.Some? && Accepted(reply.value) && GetArray(reply.value, "tests").None?)
              ==> r.Err?
  {
    if BlankKey(userKey) then Ok(0)
    else
      match reply
      case None => Err(NullPointer)
      case Some(jo) =>
        match Get(jo, "response_code")
        case None => Err(JsonFault)
        case Some(code) =>
          if Render(code) != "200" then Ok(0)
          else
            match Get(jo, "tests")
            case None => Err(JsonFault)
            case Some(JArr(tests)) => Ok(|tests|)
            case Some(_) => Err(ClassCast)
  }

  /** The list never holds more names than the count announces. */
  lemma ListWithinCount(userKey: Option<string>, reply: Option<Json>)
    requires TestsArray(userKey, reply).Some?
    ensures GetTestCount(userKey, reply).Ok?
    ensures |MapOf(Filtered(TestsArray(userKey, reply).value, TestEntry))| <= GetTestCount(userKey, reply).value
  {
    TestListMeaning(TestsArray(userKey, reply).value, "");
  }
}
