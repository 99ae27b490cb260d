/** BzmBuild: the decisions the build agent takes around a BlazeMeter run. Every call
    into the API is an input: the listing, status code, CI status, activity answers and
    archive descriptors it would have returned. */
module Build {
  import opened Common
  import opened Text
  import opened Json
  import opened Linked
  import ApiV3

  // ---------------------------------------------------------------------------
  // validateInput and collection

  /** `validateInput`: `tests.values()` is taken before the null test, so a null listing
      throws; a test id that is not among the `id.type` values gives false, after the
      warning that prints the first four characters of the API key (which throws for a
      shorter key). */
  function ValidateInput(testId: string, apiKey: string, tests: Option<seq<(string, string)>>): (r: Result<bool>)
    ensures tests.None? ==> r == Err(NullPointer)
    ensures r == Ok(true) <==> tests.Some? && exists i | 0 <= i < |tests.value| :: tests.value[i].1 == testId
    ensures r.Err? && tests.Some? ==> r == Err(IndexOutOfBounds) && |apiKey| < 4
    ensures tests.Some? && r != Ok(true) && |apiKey| < 4 ==> r == Err(IndexOutOfBounds)
    ensures r == Ok(false) <==> tests.Some? && r != Ok(true) && 4 <= |apiKey|
  {
    match tests
    case None => Err(NullPointer)
    case Some(entries) =>
      if exists i | 0 <= i < |entries| :: entries[i].1 == testId then Ok(true)
      else if |apiKey| < 4 then Err(IndexOutOfBounds)
      else Ok(false)
  }

  /** The id part of a listing value `id.type`: the text before its first dot. */
  function IdOf(value: string): (id: string)
    requires Contains(value, ".")
    ensures id <= value && !Contains(id, ".")
  {
    var point := IndexOf(value, ".");
    assert !Contains(value[..point], ".") by {
      forall j | 0 <= j <= point ensures !OccursAt(value[..point], ".", j) {
        if OccursAt(value[..point], ".", j) {
          assert value[j..j + 1] == value[..point][j..j + 1];
          assert OccursAt(value, ".", j);
        }
      }
    }
    value[..point]
  }

  /** The type tag of a listing value: the text after its first dot. */
  function TypeOf(value: string): (tag: string)
    requires Contains(value, ".")
    ensures IdOf(value) + "." + tag == value
  {
    var point := IndexOf(value, ".");
    assert value[point..point + 1] == ".";
    assert value[..point] + "." + value[point + 1..] == value;
    value[point + 1..]
  }

  /** How `collection` sees one listing value: without a dot (`substring(0, -1)`
      throws), unrelated (its id part does not occur in the test id), or naming the test
      with a type tag that does not or does contain "multi". A value names the test when
      its id part occurs anywhere in the test id. */
  datatype EntryKind = Undotted | Unrelated | Plain | Multi

  function KindOf(testId: string, value: string): EntryKind
  {
    if !Contains(value, ".") then Undotted
    else if !Contains(testId, IdOf(value)) then Unrelated
    else if Contains(TypeOf(value), "multi") then Multi
    else Plain
  }

  predicate Names(k: EntryKind)
  {
    k == Plain || k == Multi
  }

  /** The rest of the scan of `collection` over `entries`, `found` telling whether an
      entry naming the test was seen already: the first multi-test entry naming it ends
      the scan with true. */
  function Decide(testId: string, entries: seq<(string, string)>, found: bool): Result<bool>
  {
    if entries == [] then (if found then Ok(false) else Err(NotPresent(testId)))
    else
      match KindOf(testId, entries[0].1)
      case Undotted => Err(IndexOutOfBounds)
      case Multi => Ok(true)
      case Plain => Decide(testId, entries[1..], true)
      case Unrelated => Decide(testId, entries[1..], found)
  }

  predicate WellFormed(entries: seq<(string, string)>)
  {
    forall i | 0 <= i < |entries| :: Contains(entries[i].1, ".")
  }

  predicate SomeMatch(testId: string, entries: seq<(string, string)>)
  {
    exists i | 0 <= i < |entries| :: Names(KindOf(testId, entries[i].1))
  }

  predicate SomeMultiMatch(testId: string, entries: seq<(string, string)>)
  {
    exists i | 0 <= i < |entries| :: KindOf(testId, entries[i].1) == Multi
  }

  /** On well-formed values: true iff some entry naming the test is a multi-test, false
      iff some entry names it but none of those is, and "not present" iff none names it. */
  lemma {:induction false} DecideMeaning(testId: string, entries: seq<(string, string)>, found: bool)
    requires WellFormed(entries)
    ensures Decide(testId, entries, found) == Ok(true) <==> SomeMultiMatch(testId, entries)
    ensures Decide(testId, entries, found) == Ok(false) <==>
              !SomeMultiMatch(testId, entries) && (found || SomeMatch(testId, entries))
    ensures Decide(testId, entries, found) == Err(NotPresent(testId)) <==> !found && !SomeMatch(testId, entries)
  {
    if entries != [] {
      var rest := entries[1..];
      assert WellFormed(rest) by {
        forall i | 0 <= i < |rest| ensures Contains(rest[i].1, ".") {
          assert rest[i] == entries[i + 1];
        }
      }
      var kind := KindOf(testId, entries[0].1);
      assert kind != Undotted;
      DecideMeaning(testId, rest, found || Names(kind));
      SomeMatchCons(testId, entries);
      SomeMultiMatchCons(testId, entries);
    }
  }

  lemma SomeMatchCons(testId: string, entries: seq<(string, string)>)
    requires entries != []
    ensures SomeMatch(testId, entries) <==> Names(KindOf(testId, entries[0].1)) || SomeMatch(testId, entries[1..])
  {
    var rest := entries[1..];
    if SomeMatch(testId, entries) && !Names(KindOf(testId, entries[0].1)) {
      var i :| 0 <= i < |entries| && Names(KindOf(testId, entries[i].1));
      assert rest[i - 1] == entries[i];
    }
    if SomeMatch(testId, rest) {
      var i :| 0 <= i < |rest| && Names(KindOf(testId, rest[i].1));
      assert entries[i + 1] == rest[i];
    }
  }

  lemma SomeMultiMatchCons(testId: string, entries: seq<(string, string)>)
    requires entries != []
    ensures SomeMultiMatch(testId, entries) <==> KindOf(testId, entries[0].1) == Multi || SomeMultiMatch(testId, entries[1..])
  {
    var rest := entries[1..];
    if SomeMultiMatch(testId, entries) && KindOf(testId, entries[0].1) != Multi {
      var i :| 0 <= i < |entries| && KindOf(testId, entries[i].1) == Multi;
      assert rest[i - 1] == entries[i];
    }
    if SomeMultiMatch(testId, rest) {
      var i :| 0 <= i < |rest| && KindOf(testId, rest[i].1) == Multi;
      assert entries[i + 1] == rest[i];
    }
  }

  /** The kind of a value, read the way `collection` computes it from the first dot. */
  lemma KindAtPoint(testId: string, value: string)
    ensures IndexOf(value, ".") < 0 <==> KindOf(testId, value) == Undotted
    ensures IndexOf(value, ".") >= 0 ==>
              var point := IndexOf(value, ".");
              (Names(KindOf(testId, value)) <==> Contains(testId, value[..point]))
              && (KindOf(testId, value) == Multi <==>
                    Contains(testId, value[..point]) && Contains(value[point + 1..], "multi"))
  {
  }

  /** The scan from entry `i` on, by the kind of that entry. */
  lemma DecideFrom(testId: string, entries: seq<(string, string)>, i: nat, found: bool)
    requires i < |entries|
    ensures Decide(testId, entries[i..], found) ==
              match KindOf(testId, entries[i].1)
              case Undotted => Err(IndexOutOfBounds)
              case Multi => Ok(true)
              case Plain => Decide(testId, entries[i + 1..], true)
              case Unrelated => Decide(testId, entries[i + 1..], found)
  {
    assert entries[i..][0] == entries[i] && entries[i..][1..] == entries[i + 1..];
  }

  /** `collection`: scan the listing for the entries whose id occurs in the test id and
      tell whether the test is a multi-test collection. */
  method Collection(testId: string, tests: Option<seq<(string, string)>>) returns (r: Result<bool>)
    ensures tests.None? ==> r == Err(NullPointer)
    ensures tests.Some? ==> r == Decide(testId, tests.value, false)
  {
    if tests.None? {
      return Err(NullPointer);
    }
    var entries := tests.value;
    var found := false;
    var collection := false;
    var i := 0;
    while i < |entries|
      invariant 0 <= i <= |entries|
      invariant !collection
      invariant Decide(testId, entries, false) == Decide(testId, entries[i..], found)
    {
      DecideFrom(testId, entries, i, found);
      var value := entries[i].1;
      KindAtPoint(testId, value);
      var point := IndexOf(value, ".");
      if point < 0 {
        return Err(IndexOutOfBounds);
      }
      if Contains(testId, value[..point]) {
        collection := Contains(value[point + 1..], "multi");
        found := true;
      }
      if collection {
        break;
      }
      i := i + 1;
    }
    if !found {
      return Err(NotPresent(testId));
    }
    return Ok(collection);
  }

  lemma EntryValueDotted(en: Json)
    requires ApiV3.EntryOf(en).Some?
    ensures Contains(ApiV3.EntryOf(en).value.1, ".")
  {
    var value := ApiV3.EntryOf(en).value.1;
    var id := Render(Get(en, "id").value);
    assert value[|id|..|id| + 1] == ".";
    assert OccursAt(value, ".", |id|);
  }

  /** The listing `testsMultiMap` builds holds only `id.type` values. */
  lemma ServerListingWellFormed(items: seq<Json>)
    ensures WellFormed(Dedup(Filtered(items, ApiV3.EntryOf)))
  {
    var listing := Dedup(Filtered(items, ApiV3.EntryOf));
    DedupProperties(Filtered(items, ApiV3.EntryOf));
    forall i | 0 <= i < |listing| ensures Contains(listing[i].1, ".") {
      assert listing[i] in Filtered(items, ApiV3.EntryOf);
      FilteredElements(items, ApiV3.EntryOf, listing[i]);
      var j :| 0 <= j < |items| && ApiV3.EntryOf(items[j]) == Some(listing[i]);
      EntryValueDotted(items[j]);
    }
  }

  /** So on that listing `collection` never throws for a missing dot: it answers true,
      false or "not present". */
  lemma CollectionOnServerListing(testId: string, items: seq<Json>)
    ensures var r := Decide(testId, Dedup(Filtered(items, ApiV3.EntryOf)), false);
            r == Ok(true) || r == Ok(false) || r == Err(NotPresent(testId))
  {
    ServerListingWellFormed(items);
    DecideMeaning(testId, Dedup(Filtered(items, ApiV3.EntryOf)), false);
  }

  // ---------------------------------------------------------------------------
  // stopMaster

  /** The requests `stopMaster` sends. */
  datatype StopRequest = Terminate | Stop

  /** `stopMaster` for the progress `code` of the master: a code below 100 other than 0
      terminates the test, a code of 100 or more, -1 or 0 stops it. An exception from
      either request ends the method, which returns `terminate` as it stood. */
  method StopMaster(code: int, terminateThrows: bool, stopThrows: bool)
    returns (terminate: bool, sent: seq<StopRequest>)
    ensures (1 <= code < 100 || code < -1) ==> sent == [Terminate] && terminate == !terminateThrows
    ensures (code == 0 || code >= 100) ==> sent == [Stop] && !terminate
    ensures code == -1 && terminateThrows ==> sent == [Terminate] && !terminate
    ensures code == -1 && !terminateThrows ==> sent == [Terminate, Stop] && terminate == stopThrows
  {
    terminate := false;
    sent := [];
    if code < 100 && code != 0 {
      sent := sent + [Terminate];
      if terminateThrows {
        return;
      }
      terminate := true;
    }
    if code >= 100 || code == -1 || code == 0 {
      sent := sent + [Stop];
      if stopThrows {
        return;
      }
      terminate := false;
    }
  }

  // ---------------------------------------------------------------------------
  // getReportUrl

  /** `getReportUrl`: a public-token link when the reply's `error` is JSON null, the
      plain link when it carries an error, null on any failure. */
  function GetReportUrl(serverUrl: string, masterId: string, reply: Option<Json>): (url: Option<string>)
    ensures url.Some? <==> reply.Some? && Has(reply.value, "error")
                           && (Get(reply.value, "error") != Some(JNull)
                               || (GetObject(reply.value, "result").Some?
                                   && GetString(GetObject(reply.value, "result").value, "publicToken").Some?))
    ensures url.Some? && Get(reply.value, "error") == Some(JNull) ==>
              url.value == serverUrl + "/app/?public-token = "
                           + GetString(GetObject(reply.value, "result").value, "publicToken").value
                           + "#masters/" + masterId + "/summary"
    ensures url.Some? && Get(reply.value, "error") != Some(JNull) ==>
              url.value == serverUrl + "/app/#masters/" + masterId + "/summary"
  {
    var jo :- reply;
    var error :- Get(jo, "error");
    if error == JNull then
      var result :- GetObject(jo, "result");
      var token :- GetString(result, "publicToken");
      Some(serverUrl + "/app/?public-token = " + token + "#masters/" + masterId + "/summary")
    else
      Some(serverUrl + "/app/#masters/" + masterId + "/summary")
  }

  /** Both links start with the server URL and end with the master's summary page. */
  lemma ReportUrlShape(serverUrl: string, masterId: string, reply: Option<Json>)
    requires GetReportUrl(serverUrl, masterId, reply).Some?
    ensures var url := GetReportUrl(serverUrl, masterId, reply).value;
            var tail := "#masters/" + masterId + "/summary";
            serverUrl <= url && |tail| <= |url| && url[|url| - |tail|..] == tail
  {
    var url := GetReportUrl(serverUrl, masterId, reply).value;
    var tail := "#masters/" + masterId + "/summary";
    if Get(reply.value, "error") == Some(JNull) {
      var token := GetString(GetObject(reply.value, "result").value, "publicToken").value;
      assert url == (serverUrl + "/app/?public-token = " + token) + tail;
    } else {
      assert url == (serverUrl + "/app/") + tail;
    }
  }

  // ---------------------------------------------------------------------------
  // validateCIStatus

  datatype CIStatus = Success | Failures | Errors

  /** The arrays `validateCIStatus` holds when it decides: both start empty, `failures`
      is read first and `errors` only once that worked. */
  function Thresholds(reply: Option<Json>): (t: (seq<Json>, seq<Json>))
  {
    match reply
    case None => ([], [])
    case Some(jo) =>
      match GetArray(jo, "failures")
      case None => ([], [])
      case Some(failures) =>
        match GetArray(jo, "errors")
        case None => (failures, [])
        case Some(errors) => (failures, errors)
  }

  /** `validateCIStatus`: errors win over failures, failures over success. */
  function ValidateCIStatus(reply: Option<Json>): (s: CIStatus)
    ensures s == Errors <==> reply.Some? && GetArray(reply.value, "failures").Some?
                             && GetArray(reply.value, "errors").Some? && |GetArray(reply.value, "errors").value| > 0
    ensures s == Failures <==> reply.Some? && GetArray(reply.value, "failures").Some?
                               && |GetArray(reply.value, "failures").value| > 0
                               && (GetArray(reply.value, "errors").None? || |GetArray(reply.value, "errors").value| == 0)
  {
    var (failures, errors) := Thresholds(reply);
    if |errors| > 0 then Errors
    else if |failures| > 0 then Failures
    else Success
  }

  /** Because `failures` is read first, a reply without a `failures` array is a success
      even when it lists errors. */
  lemma ErrorsNeedFailuresArray(reply: Json)
    requires GetArray(reply, "failures").None?
    ensures ValidateCIStatus(Some(reply)) == Success
  {
  }

  // ---------------------------------------------------------------------------
  // waitNotActive

  /** CHECK_INTERVAL, in ms, and the number of checks. */
  const CheckInterval: nat := 60000
  const MaxChecks: nat := 10

  /** One round of `waitNotActive`: the sleep is interrupted, or it completes and the
      activity check answers. */
  datatype Tick = Interrupted | Checked(active: bool)

  predicate Ends(t: Tick)
  {
    t.Interrupted? || t == Checked(false)
  }

  /** The round in which the waiting ends, or the number of rounds. */
  function EndRound(ticks: seq<Tick>): (k: nat)
    ensures k <= |ticks|
    ensures k < |ticks| ==> Ends(ticks[k])
    ensures forall j | 0 <= j < k :: ticks[j] == Checked(true)
  {
    if ticks == [] then 0
    else if Ends(ticks[0]) then 0
    else 1 + EndRound(ticks[1..])
  }

  /** `waitNotActive`: the sleeps it starts, the activity checks it makes, and whether the
      test still looked active when it stopped. */
  method WaitNotActive(ticks: seq<Tick>) returns (sleeps: seq<nat>, checks: nat, active: bool)
    requires |ticks| == MaxChecks
    ensures var k := EndRound(ticks);
            checks == (if k == MaxChecks then MaxChecks else if ticks[k].Interrupted? then k else k + 1)
    ensures |sleeps| == if EndRound(ticks) < MaxChecks then EndRound(ticks) + 1 else MaxChecks
    ensures forall j | 0 <= j < |sleeps| :: sleeps[j] == CheckInterval
    ensures checks <= MaxChecks
    ensures !active <==> EndRound(ticks) < MaxChecks && ticks[EndRound(ticks)] == Checked(false)
  {
    sleeps := [];
    checks := 0;
    active := true;
    var activeCheck := 1;
    while active && activeCheck < MaxChecks + 1
      invariant 1 <= activeCheck <= MaxChecks + 1
      invariant checks == activeCheck - 1 && |sleeps| == checks
      invariant forall j | 0 <= j < |sleeps| :: sleeps[j] == CheckInterval
      invariant forall j | 0 <= j < checks - 1 :: ticks[j] == Checked(true)
      invariant active ==> forall j | 0 <= j < checks :: ticks[j] == Checked(true)
      invariant !active ==> checks > 0 && ticks[checks - 1] == Checked(false)
      decreases MaxChecks + 1 - activeCheck
    {
      sleeps := sleeps + [CheckInterval];
      if ticks[activeCheck - 1].Interrupted? {
        break;
      }
      active := ticks[activeCheck - 1].active;
      checks := checks + 1;
      activeCheck := activeCheck + 1;
    }
  }

  // ---------------------------------------------------------------------------
  // retrieveJtlForSession and jtlReports

  /** The search for the "Zip" descriptor: a lookup throws, there is none, or the first
      one gives its download URL. */
  datatype ZipSearch = Threw | NoZip | Zip(url: string)

  /** The scan over `result.data`: every entry up to the first "Zip" one must have a
      string title, and the "Zip" one a string `dataUrl`. */
  function FindZip(data: seq<Json>): ZipSearch
  {
    if data == [] then NoZip
    else
      match GetString(data[0], "title")
      case None => Threw
      case Some(title) =>
        if title == "Zip" then
          match GetString(data[0], "dataUrl")
          case None => Threw
          case Some(url) => Zip(url)
        else FindZip(data[1..])
  }

  /** The entries before `i` all have a string title other than "Zip". */
  predicate PlainBefore(data: seq<Json>, i: nat)
    requires i <= |data|
  {
    forall j | 0 <= j < i :: GetString(data[j], "title").Some? && GetString(data[j], "title") != Some("Zip")
  }

  /** Entry `i` is a "Zip" descriptor whose `dataUrl` is `url`. */
  predicate ZipAt(data: seq<Json>, i: nat, url: string)
    requires i < |data|
  {
    GetString(data[i], "title") == Some("Zip") && GetString(data[i], "dataUrl") == Some(url)
  }

  /** The search finds `url` iff the first entry titled "Zip" carries it and every entry
      before it has a title; it finds nothing iff every entry has a title other than "Zip". */
  lemma {:induction false} FindZipMeaning(data: seq<Json>, url: string)
    ensures FindZip(data) == Zip(url) <==> exists i | 0 <= i < |data| :: ZipAt(data, i, url) && PlainBefore(data, i)
    ensures FindZip(data) == NoZip <==> PlainBefore(data, |data|)
  {
    if data != [] {
      var rest := data[1..];
      FindZipMeaning(rest, url);
      if GetString(data[0], "title").Some? && GetString(data[0], "title") != Some("Zip") {
        ZipSearchShift(data, url);
      } else {
        assert !PlainBefore(data, |data|) by { assert 0 < |data|; }
        if exists i | 0 <= i < |data| :: ZipAt(data, i, url) && PlainBefore(data, i) {
          var i :| 0 <= i < |data| && ZipAt(data, i, url) && PlainBefore(data, i);
          assert i == 0;
        }
        if FindZip(data) == Zip(url) {
          assert ZipAt(data, 0, url) && PlainBefore(data, 0);
        }
      }
    }
  }

  /** Past a first entry with a title other than "Zip", the search is the search of the tail. */
  lemma ZipSearchShift(data: seq<Json>, url: string)
    requires data != [] && GetString(data[0], "title").Some? && GetString(data[0], "title") != Some("Zip")
    ensures (exists i | 0 <= i < |data| :: ZipAt(data, i, url) && PlainBefore(data, i))
              <==> (exists i | 0 <= i < |data[1..]| :: ZipAt(data[1..], i, url) && PlainBefore(data[1..], i))
    ensures PlainBefore(data, |data|) <==> PlainBefore(data[1..], |data[1..]|)
  {
    var rest := data[1..];
    assert forall j | 0 <= j < |rest| :: rest[j] == data[j + 1];
    assert forall i | 1 <= i <= |data| :: PlainBefore(data, i) <==> PlainBefore(rest, i - 1);
    if exists i | 0 <= i < |data| :: ZipAt(data, i, url) && PlainBefore(data, i) {
      var i :| 0 <= i < |data| && ZipAt(data, i, url) && PlainBefore(data, i);
      assert i > 0 && ZipAt(rest, i - 1, url);
    }
    if exists i | 0 <= i < |rest| :: ZipAt(rest, i, url) && PlainBefore(rest, i) {
      var i :| 0 <= i < |rest| && ZipAt(rest, i, url) && PlainBefore(rest, i);
      assert ZipAt(data, i + 1, url) && PlainBefore(data, i + 1);
    }
  }

  /** The loop with `break` of `retrieveJtlForSession`. */
  method SearchZip(data: seq<Json>) returns (s: ZipSearch)
    ensures s == FindZip(data)
  {
    var i := 0;
    while i < |data|
      invariant 0 <= i <= |data|
      invariant FindZip(data) == FindZip(data[i..])
    {
      assert data[i..][0] == data[i] && data[i..][1..] == data[i + 1..];
      var title := GetString(data[i], "title");
      if title.None? {
        return Threw;
      }
      if title.value == "Zip" {
        var url := GetString(data[i], "dataUrl");
        if url.None? {
          return Threw;
        }
        return Zip(url.value);
      }
      i := i + 1;
    }
    return NoZip;
  }

  /** What `retrieveJtlForSession` does with a session: download the archive from `url`
      into `path`, or only log a warning. */
  datatype JtlAction = Download(url: string, path: string) | Warn

  /** The archive's file name inside the report directory. */
  function JtlPath(jtlDir: string, sessionId: string): string
  {
    jtlDir + "/" + sessionId + ".zip"
  }

  /** What `retrieveJtlForSession` does with a session. The request's exception escapes
      (`reply` is Err); a null reply, a failed lookup or a missing Zip descriptor (a null
      URL) only give a warning. */
  function JtlActionOf(sessionId: string, jtlDir: string, reply: Result<Option<Json>>): (r: Result<JtlAction>)
    ensures reply.Err? <==> r.Err?
    ensures reply.Err? ==> r == Err(reply.fault)
    ensures r.Ok? && r.value.Download? ==>
              r.value.path == JtlPath(jtlDir, sessionId)
              && reply.value.Some? && ApiV3.ResultObject(reply.value).Some?
              && GetArray(ApiV3.ResultObject(reply.value).value, "data").Some?
              && FindZip(GetArray(ApiV3.ResultObject(reply.value).value, "data").value) == Zip(r.value.url)
    ensures (reply.Ok? && reply.value.Some? && ApiV3.ResultObject(reply.value).Some?
             && GetArray(ApiV3.ResultObject(reply.value).value, "data").Some?
             && FindZip(GetArray(ApiV3.ResultObject(reply.value).value, "data").value).Zip?)
              ==> r.value.Download?
  {
    match reply
    case Err(fault) => Err(fault)
    case Ok(jo) =>
      match ApiV3.ResultObject(jo)
      case None => Ok(Warn)
      case Some(result) =>
        match GetArray(result, "data")
        case None => Ok(Warn)
        case Some(data) =>
          match FindZip(data)
          case Zip(url) => Ok(Download(url, JtlPath(jtlDir, sessionId)))
          case _ => Ok(Warn)
  }

  /** `retrieveJtlForSession`, with the descriptor search as the loop with `break`. */
  method RetrieveJtlForSession(sessionId: string, jtlDir: string, reply: Result<Option<Json>>)
    returns (r: Result<JtlAction>)
    ensures r == JtlActionOf(sessionId, jtlDir, reply)
  {
    if reply.Err? {
      return Err(reply.fault);
    }
    var result := ApiV3.ResultObject(reply.value);
    if result.None? {
      return Ok(Warn);
    }
    var data := GetArray(result.value, "data");
    if data.None? {
      return Ok(Warn);
    }
    var found := SearchZip(data.value);
    if !found.Zip? {
      return Ok(Warn);
    }
    return Ok(Download(found.url, JtlPath(jtlDir, sessionId)));
  }

  /** `jtlReports`: the sessions in list order, each handled by `retrieveJtlForSession`
      with its own reply; the first exception ends the loop and escapes. */
  method JtlReports(jtlDir: string, sessions: Result<seq<string>>, replies: seq<Result<Option<Json>>>)
    returns (r: Result<seq<JtlAction>>)
    requires sessions.Ok? ==> |replies| == |sessions.value|
    ensures sessions.Err? ==> r == Err(sessions.fault)
    ensures r.Ok? ==> sessions.Ok? && |r.value| == |sessions.value|
    ensures r.Ok? ==> forall i | 0 <= i < |r.value| :: JtlActionOf(sessions.value[i], jtlDir, replies[i]) == Ok(r.value[i])
    ensures sessions.Ok? ==> (r.Ok? <==> forall i | 0 <= i < |replies| :: replies[i].Ok?)
    ensures r.Err? && sessions.Ok? ==>
              exists i | 0 <= i < |replies| :: replies[i] == Err(r.fault) && forall j | 0 <= j < i :: replies[j].Ok?
  {
    if sessions.Err? {
      return Err(sessions.fault);
    }
    var ids := sessions.value;
    var actions: seq<JtlAction> := [];
    var i := 0;
    while i < |ids|
      invariant 0 <= i <= |ids|
      invariant |actions| == i
      invariant forall j | 0 <= j < i :: replies[j].Ok?
      invariant forall j | 0 <= j < i :: JtlActionOf(ids[j], jtlDir, replies[j]) == Ok(actions[j])
    {
      var action := RetrieveJtlForSession(ids[i], jtlDir, replies[i]);
      if action.Err? {
        return Err(action.fault);
      }
      actions := actions + [action.value];
      i := i + 1;
    }
    return Ok(actions);
  }

  // ---------------------------------------------------------------------------
  // The build and its master id

  /** A BzmBuild: the test it runs and the id of the master it started. */
  class BzmBuild {
    const testId: string
    var masterId: Option<string>

    constructor(testId: string)
      ensures this.testId == testId && masterId == None
    {
      this.testId := testId;
      masterId := None;
    }

    /** `masterId()`. */
    function MasterId(): (id: Option<string>)
      reads this
      ensures id == masterId
    {
      masterId
    }

    /** `startTest`: decide whether the test is a collection, start it, and keep the `id`
        of the reply as the master id. Any exception on the way (the listing, the start
        request, a null map) is logged and leaves the master id as it was; the id is
        null when the map has no `id`. The test id is the method's parameter, not the
        field; `started` is the reply of the start request. */
    method StartTest(testId: string, tests: Option<seq<(string, string)>>, started: Result<Option<map<string, string>>>)
      returns (id: Option<string>)
      modifies this
      ensures id == masterId
      ensures (tests.None? || Decide(testId, tests.value, false).Err? || !started.Ok? || started.value.None?)
                ==> masterId == old(masterId)
      ensures (tests.Some? && Decide(testId, tests.value, false).Ok? && started.Ok? && started.value.Some?)
                ==> masterId == (if "id" in started.value.value then Some(started.value.value["id"]) else None)
    {
      var collection := Collection(testId, tests);
      if collection.Ok? && started.Ok? && started.value.Some? {
        var m := started.value.value;
        masterId := if "id" in m then Some(m["id"]) else None;
      }
      id := masterId;
    }
  }
}
