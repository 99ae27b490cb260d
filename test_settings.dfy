/** Utils: reading and rewriting the duration that a test's configuration overrides.
    The test description is the reply of `getTestInfo`, given as an input (None when
    there was no reply); `updateTest` is modelled by the body it hands to `putTestInfo`. */
module TestSettings {
  import opened Common
  import opened Json

  /** Where the duration sits inside `result`: the plugin object is chosen by the
      string value of `configuration.type`. */
  function OverridePath(kind: string): seq<string>
  {
    ["configuration", "plugins", kind, "override"]
  }

  function DurationPath(kind: string): seq<string>
  {
    OverridePath(kind) + ["duration"]
  }

  /** The objects met on the way down from `result`; `kind` is `configuration.type`. */
  datatype Location = Location(result: Json, configuration: Json, plugins: Json, kind: string,
                               options: Json, override: Json)

  /** Each object of the location is the named member of the one above it, and every
      hop is an object, as `getJSONObject` demands. */
  predicate Chain(loc: Location)
  {
    loc.result.JObj?
    && GetObject(loc.result, "configuration") == Some(loc.configuration)
    && GetObject(loc.configuration, "plugins") == Some(loc.plugins)
    && GetString(loc.configuration, "type") == Some(loc.kind)
    && GetObject(loc.plugins, loc.kind) == Some(loc.options)
    && GetObject(loc.options, "override") == Some(loc.override)
  }

  /** The chain of `getJSONObject`/`getString` calls shared by both operations; None
      where one of them throws. */
  function Locate(info: Option<Json>): (r: Option<Location>)
    ensures r.Some? ==> info.Some? && Chain(r.value) && GetObject(info.value, "result") == Some(r.value.result)
  {
    var jo :- info;
    var result :- GetObject(jo, "result");
    var configuration :- GetObject(result, "configuration");
    var plugins :- GetObject(configuration, "plugins");
    var kind :- GetString(configuration, "type");
    var options :- GetObject(plugins, kind);
    var override :- GetObject(options, "override");
    Some(Location(result, configuration, plugins, kind, options, override))
  }

  /** The lookups succeed exactly when such a chain hangs below the reply's `result`. */
  lemma LocateFindsChain(jo: Json, loc: Location)
    requires Chain(loc) && GetObject(jo, "result") == Some(loc.result)
    ensures Locate(Some(jo)) == Some(loc)
  {
  }

  /** The `override` object is the one reached by the path through the plugin kind. */
  lemma ChainAt(loc: Location)
    requires Chain(loc)
    ensures ObjectAt(loc.result, OverridePath(loc.kind)) == Some(loc.override)
  {
    var p3: seq<string> := ["override"];
    var p2: seq<string> := [loc.kind] + p3;
    var p1: seq<string> := ["plugins"] + p2;
    assert OverridePath(loc.kind) == ["configuration"] + p1;
    assert p3[1..] == [] && p2[1..] == p3 && p1[1..] == p2 && (["configuration"] + p1)[1..] == p1;
    assert At(loc.options, p3) == Some(loc.override);
    assert At(loc.plugins, p2) == Some(loc.override);
    assert At(loc.configuration, p1) == Some(loc.override);
  }

  /** `getTestDuration`: `override.duration` read with `getInt`, or -1 when any step fails. */
  function GetTestDuration(info: Option<Json>): (d: int)
    ensures IsInt32(d)
    ensures Locate(info).None? ==> d == -1
    ensures (Locate(info).Some? && GetInt(Locate(info).value.override, "duration").Some?)
              ==> d == GetInt(Locate(info).value.override, "duration").value
    ensures Locate(info).Some? && GetInt(Locate(info).value.override, "duration").None? ==> d == -1
  {
    match Locate(info)
    case None => -1
    case Some(loc) =>
      match GetInt(loc.override, "duration")
      case Some(n) => n
      case None => -1
  }

  /** `updateTest`: the `result` object it sends, with `override.duration` set to the
      decimal text of the new duration; None when a lookup throws and nothing is sent. */
  function UpdateTest(info: Option<Json>, duration: int): (sent: Option<Json>)
    ensures sent.Some? <==> Locate(info).Some?
    ensures sent.Some? ==> At(sent.value, DurationPath(Locate(info).value.kind)) == Some(JStr(IntToString(duration)))
  {
    match Locate(info)
    case None => None
    case Some(loc) =>
      var v := JStr(IntToString(duration));
      ChainAt(loc);
      assert DurationPath(loc.kind)[..4] == OverridePath(loc.kind);
      PutPathReads(loc.result, DurationPath(loc.kind), v);
      Some(PutPath(loc.result, DurationPath(loc.kind), v))
  }

  /** Along the chain, the put overwrites `duration` in the `override` object and replaces
      each object above it by its updated copy. */
  lemma UpdatedShape(loc: Location, v: Json)
    requires Chain(loc)
    ensures PutPath(loc.result, DurationPath(loc.kind), v)
              == Put(loc.result, "configuration",
                   Put(loc.configuration, "plugins",
                     Put(loc.plugins, loc.kind,
                       Put(loc.options, "override",
                         Put(loc.override, "duration", v)))))
  {
    assert DurationPath(loc.kind) == ["configuration"] + (["plugins"] + ([loc.kind] + (["override"] + ["duration"])));
    PutPathStep(loc.result, "configuration", ["plugins"] + ([loc.kind] + (["override"] + ["duration"])), v);
    PutPathStep(loc.configuration, "plugins", [loc.kind] + (["override"] + ["duration"]), v);
    PutPathStep(loc.plugins, loc.kind, ["override"] + ["duration"], v);
    PutPathStep(loc.options, "override", ["duration"], v);
    PutPathStep(loc.override, "duration", [], v);
  }

  /** `updateTest` touches nothing but the duration: every path that leaves the
      duration's path somewhere reads the same in the body sent as in `result`. */
  lemma UpdateTestChangesOnlyDuration(info: Option<Json>, duration: int, p: seq<string>)
    requires Locate(info).Some?
    requires Diverges(p, DurationPath(Locate(info).value.kind))
    ensures At(UpdateTest(info, duration).value, p) == At(Locate(info).value.result, p)
  {
    var loc := Locate(info).value;
    PutPathElsewhere(loc.result, DurationPath(loc.kind), JStr(IntToString(duration)), p);
  }

  /** The objects along the path after the duration is set to `v`. */
  function Updated(loc: Location, v: Json): Location
  {
    var override' := Put(loc.override, "duration", v);
    var options' := Put(loc.options, "override", override');
    var plugins' := Put(loc.plugins, loc.kind, options');
    var configuration' := Put(loc.configuration, "plugins", plugins');
    Location(Put(loc.result, "configuration", configuration'), configuration', plugins', loc.kind, options', override')
  }

  /** The updated objects still form a chain below the body sent. */
  lemma UpdatedChain(loc: Location, v: Json)
    requires Chain(loc)
    ensures Chain(Updated(loc, v))
    ensures Updated(loc, v).result == PutPath(loc.result, DurationPath(loc.kind), v)
  {
    var u := Updated(loc, v);
    UpdatedShape(loc, v);
    GetPut(loc.result, "configuration", u.configuration, "configuration");
    GetPut(loc.configuration, "plugins", u.plugins, "plugins");
    GetPut(loc.configuration, "plugins", u.plugins, "type");
    GetPut(loc.plugins, loc.kind, u.options, loc.kind);
    GetPut(loc.options, "override", u.override, "override");
  }

  /** Round trip: once the server stores the body sent, `getTestDuration` reads the new
      duration back (the plugin kind is read from the same `configuration.type`). */
  lemma UpdateThenGet(info: Option<Json>, duration: int)
    requires IsInt32(duration)
    requires Locate(info).Some?
    ensures GetTestDuration(Some(JObj([Member("result", UpdateTest(info, duration).value)]))) == duration
  {
    var loc := Locate(info).value;
    var v := JStr(IntToString(duration));
    var u := Updated(loc, v);
    UpdatedChain(loc, v);
    assert UpdateTest(info, duration) == Some(u.result);
    LocateFindsChain(JObj([Member("result", u.result)]), u);
    GetPut(loc.override, "duration", v, "duration");
    ToIntOfText(duration);
  }
}
