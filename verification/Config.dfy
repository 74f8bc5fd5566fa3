/** The driver's configuration and its JSON form (config.cpp). */
module Config {
  import opened Json
  import opened Types
  import JsonRoundTrip

  // ---------------------------------------------------------------------------------
  // picojson::object as a std::map
  // ---------------------------------------------------------------------------------

  /** std::map::insert: an existing key keeps its value. */
  function Insert(ms: seq<Member>, key: string, value: Value): seq<Member> {
    if ms == [] || Less(key, ms[0].key) then [Member(key, value)] + ms
    else if ms[0].key == key then ms
    else [ms[0]] + Insert(ms[1..], key, value)
  }

  function Build(pairs: seq<Member>): seq<Member> {
    if pairs == [] then []
    else Insert(Build(pairs[..|pairs| - 1]), pairs[|pairs| - 1].key, pairs[|pairs| - 1].value)
  }

  lemma {:induction false} FindInsert(ms: seq<Member>, key: string, value: Value, other: string)
    requires Find(ms, key).None?
    ensures Find(Insert(ms, key, value), other) == if other == key then Some(value) else Find(ms, other)
  {
    if ms != [] && !Less(key, ms[0].key) {
      FindInsert(ms[1..], key, value, other);
      var out := Insert(ms, key, value);
      assert out[1..] == Insert(ms[1..], key, value);
    } else {
      assert ([Member(key, value)] + ms)[1..] == ms;
    }
  }

  ghost predicate DistinctKeys(pairs: seq<Member>) {
    forall i, j :: 0 <= i < j < |pairs| ==> pairs[i].key != pairs[j].key
  }

  lemma {:induction false} BuildFinds(pairs: seq<Member>, key: string)
    requires DistinctKeys(pairs)
    ensures forall i :: 0 <= i < |pairs| && pairs[i].key == key ==> Find(Build(pairs), key) == Some(pairs[i].value)
    ensures (forall i :: 0 <= i < |pairs| ==> pairs[i].key != key) ==> Find(Build(pairs), key) == None
  {
    if pairs != [] {
      var n := |pairs| - 1;
      BuildFinds(pairs[..n], key);
      BuildFinds(pairs[..n], pairs[n].key);
      FindInsert(Build(pairs[..n]), pairs[n].key, pairs[n].value, key);
    }
  }

  lemma {:induction false} InsertSorted(ms: seq<Member>, key: string, value: Value)
    requires Sorted(ms)
    ensures Sorted(Insert(ms, key, value))
    ensures forall m :: m in Insert(ms, key, value) ==> m in ms || m == Member(key, value)
  {
    if ms != [] && ms[0].key != key {
      LessTotal(key, ms[0].key);
      if Less(key, ms[0].key) {
        forall i | 0 < i < |ms|
          ensures Less(key, ms[i].key)
        {
          LessTransitive(key, ms[0].key, ms[i].key);
        }
      } else {
        InsertSorted(ms[1..], key, value);
        var rest := Insert(ms[1..], key, value);
        forall i | 0 <= i < |rest|
          ensures Less(ms[0].key, rest[i].key)
        {
          assert rest[i] in rest;
        }
      }
    }
  }

  /** The entries of a built object are those inserted, sorted by key. */
  lemma {:induction false} BuildPlain(pairs: seq<Member>)
    requires forall i :: 0 <= i < |pairs| ==> Bytes(pairs[i].key) && Plain(pairs[i].value)
    ensures Plain(Object(Build(pairs)))
    ensures forall m :: m in Build(pairs) ==> m in pairs
  {
    if pairs != [] {
      var n := |pairs| - 1;
      BuildPlain(pairs[..n]);
      InsertSorted(Build(pairs[..n]), pairs[n].key, pairs[n].value);
      var out := Build(pairs);
      forall i | 0 <= i < |out|
        ensures Bytes(out[i].key) && Plain(out[i].value)
      {
        assert out[i] in out;
        if out[i] in Build(pairs[..n]) {
          var j :| 0 <= j < |Build(pairs[..n])| && Build(pairs[..n])[j] == out[i];
        }
      }
    }
  }

  // ---------------------------------------------------------------------------------
  // The configuration
  // ---------------------------------------------------------------------------------

  datatype EndpointType = Playback | Recording

  /** EDataFlow and ERole with all their enumerators. */
  datatype DataFlow = Render | Capture | AllFlows | FlowCount
  datatype Role = Console | Multimedia | Communications | RoleCount

  datatype EndpointConfig = EndpointConfig(id: string, description: string, typ: EndpointType, channelCount: int,
                                           attachPhysical: bool, physicalChannelBase: int)

  datatype DefaultEndpointConfig = DefaultEndpointConfig(typ: DataFlow, role: Role, id: string)

  /** The compiled pattern is a function of path and regexMatch and is not kept here. */
  datatype ApplicationConfig = ApplicationConfig(description: string, path: string, regexMatch: bool,
                                                 defaults: seq<DefaultEndpointConfig>)

  datatype DriverConfig = DriverConfig(driverClsid: string, endpoints: seq<EndpointConfig>,
                                       applications: seq<ApplicationConfig>, waveRtMinimumFrames: int,
                                       enableApplicationRouting: bool)

  const FRESH_DRIVER := DriverConfig("", [], [], 0, false)

  /** The conversions between wide and UTF-8 text. */
  datatype TextConversion = TextConversion(toUtf8: string -> string, toWide: string -> string)

  ghost predicate Inverse(tc: TextConversion) {
    forall w :: tc.toWide(tc.toUtf8(w)) == w && Bytes(tc.toUtf8(w))
  }

  /** (int) of a double. */
  function Truncate(r: real): int {
    if r >= 0.0 then r.Floor else -((-r).Floor)
  }

  predicate Int32(n: int) {
    -0x8000_0000 <= n < 0x8000_0000
  }

  /** EndpointConfig::load on a fresh object. */
  function LoadEndpoint(tc: TextConversion, obj: seq<Member>): Option<EndpointConfig> {
    var poId, poDescription, poType, poChannelCount :=
      Find(obj, "id"), Find(obj, "description"), Find(obj, "type"), Find(obj, "channelCount");
    var poAttachPhysical, poPhysicalChannelBase := Find(obj, "attachPhysical"), Find(obj, "physicalChannelBase");
    if poId.None? || poDescription.None? || poType.None? || poChannelCount.None? then None
    else if !poId.value.String? || !poDescription.value.String? || !poType.value.String? ||
            !poChannelCount.value.Number? then None
    else Some(EndpointConfig(
      poId.value.s, tc.toWide(poDescription.value.s), if poType.value.s == "recording" then Recording else Playback,
      Truncate(poChannelCount.value.r),
      if poAttachPhysical.Some? && poAttachPhysical.value.Boolean? then poAttachPhysical.value.b else false,
      if poPhysicalChannelBase.Some? && poPhysicalChannelBase.value.Number?
        then Truncate(poPhysicalChannelBase.value.r) else 0))
  }

  function EndpointPairs(tc: TextConversion, e: EndpointConfig): seq<Member> {
    [Member("id", String(e.id)), Member("description", String(tc.toUtf8(e.description))),
     Member("type", String(if e.typ.Recording? then "recording" else "playback")),
     Member("channelCount", Number(e.channelCount as real))] +
    if e.attachPhysical then
      [Member("attachPhysical", Boolean(true)), Member("physicalChannelBase", Number(e.physicalChannelBase as real))]
    else []
  }

  /** EndpointConfig::save. */
  function SaveEndpoint(tc: TextConversion, e: EndpointConfig): seq<Member> {
    Build(EndpointPairs(tc, e))
  }

  function LoadDefault(obj: seq<Member>): Option<DefaultEndpointConfig> {
    var poRole, poType, poId := Find(obj, "role"), Find(obj, "type"), Find(obj, "id");
    if poRole.None? || poType.None? || poId.None? then None
    else if !poRole.value.String? || !poType.value.String? || !poId.value.String? then None
    else
      var role := if poRole.value.s == "console" then Some(Console)
                  else if poRole.value.s == "communications" then Some(Communications)
                  else if poRole.value.s == "multimedia" then Some(Multimedia) else None;
      var typ := if poType.value.s == "playback" then Some(Render)
                 else if poType.value.s == "recording" then Some(Capture) else None;
      if role.None? || typ.None? then None else Some(DefaultEndpointConfig(typ.value, role.value, poId.value.s))
  }

  function DefaultPairs(d: DefaultEndpointConfig): seq<Member> {
    [Member("id", String(d.id)),
     Member("role", String(match d.role
                           case Console => "console"
                           case Communications => "communications"
                           case Multimedia => "multimedia"
                           case RoleCount => "")),
     Member("type", String(match d.typ case Render => "playback" case Capture => "recording" case _ => ""))]
  }

  function SaveDefault(d: DefaultEndpointConfig): seq<Member> {
    Build(DefaultPairs(d))
  }

  function LoadDefaults(items: seq<Value>): seq<DefaultEndpointConfig> {
    if items == [] then []
    else LoadDefaults(items[..|items| - 1]) +
         (var item := items[|items| - 1];
          if item.Object? && LoadDefault(item.members).Some? then [LoadDefault(item.members).value] else [])
  }

  function LoadApplication(tc: TextConversion, obj: seq<Member>): Option<ApplicationConfig> {
    var poDescription, poPath, poRegexMatch, poDefaults :=
      Find(obj, "description"), Find(obj, "path"), Find(obj, "regexMatch"), Find(obj, "defaults");
    if poDescription.None? || poPath.None? then None
    else if !poDescription.value.String? || !poPath.value.String? then None
    else Some(ApplicationConfig(
      tc.toWide(poDescription.value.s), tc.toWide(poPath.value.s),
      if poRegexMatch.Some? && poRegexMatch.value.Boolean? then poRegexMatch.value.b else false,
      if poDefaults.Some? && poDefaults.value.Array? then LoadDefaults(poDefaults.value.items) else []))
  }

  function ApplicationPairs(tc: TextConversion, a: ApplicationConfig): seq<Member> {
    [Member("description", String(tc.toUtf8(a.description))), Member("path", String(tc.toUtf8(a.path)))] +
    (if a.regexMatch then [Member("regexMatch", Boolean(true))] else []) +
    (if a.defaults != [] then [Member("defaults", Array(SavedDefaults(a.defaults)))] else [])
  }

  function SavedDefaults(ds: seq<DefaultEndpointConfig>): (items: seq<Value>)
    ensures |items| == |ds|
  {
    seq(|ds|, i requires 0 <= i < |ds| => Object(SaveDefault(ds[i])))
  }

  function SaveApplication(tc: TextConversion, a: ApplicationConfig): seq<Member> {
    Build(ApplicationPairs(tc, a))
  }

  function LoadEndpoints(tc: TextConversion, items: seq<Value>): seq<EndpointConfig> {
    if items == [] then []
    else LoadEndpoints(tc, items[..|items| - 1]) +
         (var item := items[|items| - 1];
          if item.Object? && LoadEndpoint(tc, item.members).Some? then [LoadEndpoint(tc, item.members).value] else [])
  }

  function LoadApplications(tc: TextConversion, items: seq<Value>): seq<ApplicationConfig> {
    if items == [] then []
    else LoadApplications(tc, items[..|items| - 1]) +
         (var item := items[|items| - 1];
          if item.Object? && LoadApplication(tc, item.members).Some? then [LoadApplication(tc, item.members).value]
            else [])
  }

  /** DriverConfig::load: fields are overwritten where the object has them, lists are extended. */
  function Load(tc: TextConversion, d: DriverConfig, obj: seq<Member>): DriverConfig {
    var clsid, endpoints, applications := Find(obj, "driverClsid"), Find(obj, "endpoints"), Find(obj, "applications");
    var frames, routing := Find(obj, "waveRtMinimumFrames"), Find(obj, "enableApplicationRouting");
    DriverConfig(
      if clsid.Some? && clsid.value.String? then clsid.value.s else d.driverClsid,
      if endpoints.Some? && endpoints.value.Array? then d.endpoints + LoadEndpoints(tc, endpoints.value.items)
        else d.endpoints,
      if applications.Some? && applications.value.Array?
        then d.applications + LoadApplications(tc, applications.value.items) else d.applications,
      if frames.Some? && frames.value.Number? then Truncate(frames.value.r) else d.waveRtMinimumFrames,
      if routing.Some? && routing.value.Boolean? then routing.value.b else d.enableApplicationRouting)
  }

  function SavedEndpoints(tc: TextConversion, es: seq<EndpointConfig>): (items: seq<Value>)
    ensures |items| == |es|
  {
    seq(|es|, i requires 0 <= i < |es| => Object(SaveEndpoint(tc, es[i])))
  }

  function SavedApplications(tc: TextConversion, apps: seq<ApplicationConfig>): (items: seq<Value>)
    ensures |items| == |apps|
  {
    seq(|apps|, i requires 0 <= i < |apps| => Object(SaveApplication(tc, apps[i])))
  }

  function DriverPairs(tc: TextConversion, d: DriverConfig): seq<Member> {
    [Member("driverClsid", String(d.driverClsid)),
     Member("enableApplicationRouting", Boolean(d.enableApplicationRouting))] +
    (if d.waveRtMinimumFrames > 2 then [Member("waveRtMinimumFrames", Number(d.waveRtMinimumFrames as real))] else []) +
    (if d.endpoints != [] then [Member("endpoints", Array(SavedEndpoints(tc, d.endpoints)))] else []) +
    (if d.applications != [] then [Member("applications", Array(SavedApplications(tc, d.applications)))] else [])
  }

  /** DriverConfig::save. */
  function Save(tc: TextConversion, d: DriverConfig): seq<Member> {
    Build(DriverPairs(tc, d))
  }

  // ---------------------------------------------------------------------------------
  // The loops of load and save
  // ---------------------------------------------------------------------------------

  /** The loop over "endpoints" in DriverConfig::load. */
  method AppendEndpoints(tc: TextConversion, items: seq<Value>, endpoints: seq<EndpointConfig>)
    returns (out: seq<EndpointConfig>)
    ensures out == endpoints + LoadEndpoints(tc, items)
  {
    out := endpoints;
    for i := 0 to |items|
      invariant out == endpoints + LoadEndpoints(tc, items[..i])
    {
      assert items[..i + 1][..i] == items[..i];
      if items[i].Object? {
        var endpoint := LoadEndpoint(tc, items[i].members);
        if endpoint.Some? {
          out := out + [endpoint.value];
        }
      }
    }
    assert items[..|items|] == items;
  }

  method AppendApplications(tc: TextConversion, items: seq<Value>, applications: seq<ApplicationConfig>)
    returns (out: seq<ApplicationConfig>)
    ensures out == applications + LoadApplications(tc, items)
  {
    out := applications;
    for i := 0 to |items|
      invariant out == applications + LoadApplications(tc, items[..i])
    {
      assert items[..i + 1][..i] == items[..i];
      if items[i].Object? {
        var application := LoadApplication(tc, items[i].members);
        if application.Some? {
          out := out + [application.value];
        }
      }
    }
    assert items[..|items|] == items;
  }

  class Driver {
    var config: DriverConfig

    constructor ()
      ensures config == FRESH_DRIVER
    {
      config := FRESH_DRIVER;
    }

    method LoadObject(tc: TextConversion, obj: seq<Member>)
      modifies this
      ensures config == Load(tc, old(config), obj)
    {
      var poDriverClsid := Find(obj, "driverClsid");
      var poEndpoints := Find(obj, "endpoints");
      var poApplications := Find(obj, "applications");
      var poWaveRtMinimumFrames := Find(obj, "waveRtMinimumFrames");
      var poEnableApplicationRouting := Find(obj, "enableApplicationRouting");
      if poDriverClsid.Some? && poDriverClsid.value.String? {
        config := config.(driverClsid := poDriverClsid.value.s);
      }
      if poEndpoints.Some? && poEndpoints.value.Array? {
        var endpoints := AppendEndpoints(tc, poEndpoints.value.items, config.endpoints);
        config := config.(endpoints := endpoints);
      }
      if poApplications.Some? && poApplications.value.Array? {
        var applications := AppendApplications(tc, poApplications.value.items, config.applications);
        config := config.(applications := applications);
      }
      if poWaveRtMinimumFrames.Some? && poWaveRtMinimumFrames.value.Number? {
        config := config.(waveRtMinimumFrames := Truncate(poWaveRtMinimumFrames.value.r));
      }
      if poEnableApplicationRouting.Some? && poEnableApplicationRouting.value.Boolean? {
        config := config.(enableApplicationRouting := poEnableApplicationRouting.value.b);
      }
    }

    /** findEndpoint: the first endpoint with that id. */
    method FindEndpoint(id: string) returns (index: int)
      ensures index < |config.endpoints|
      ensures 0 <= index ==> config.endpoints[index].id == id
      ensures forall j :: 0 <= j < index ==> config.endpoints[j].id != id
      ensures index < 0 ==> forall j :: 0 <= j < |config.endpoints| ==> config.endpoints[j].id != id
    {
      for i := 0 to |config.endpoints|
        invariant forall j :: 0 <= j < i ==> config.endpoints[j].id != id
      {
        if config.endpoints[i].id == id {
          return i;
        }
      }
      return -1;
    }
  }

  // ---------------------------------------------------------------------------------
  // Saving and loading
  // ---------------------------------------------------------------------------------

  /** What of a configuration survives saving. */
  function CanonicalEndpoint(e: EndpointConfig): EndpointConfig {
    if e.attachPhysical then e else e.(physicalChannelBase := 0)
  }

  predicate Loadable(d: DefaultEndpointConfig) {
    (d.typ.Render? || d.typ.Capture?) && !d.role.RoleCount?
  }

  function Keep(ds: seq<DefaultEndpointConfig>): seq<DefaultEndpointConfig> {
    if ds == [] then [] else Keep(ds[..|ds| - 1]) + if Loadable(ds[|ds| - 1]) then [ds[|ds| - 1]] else []
  }

  function CanonicalApplication(a: ApplicationConfig): ApplicationConfig {
    a.(defaults := Keep(a.defaults))
  }

  function CanonicalEndpoints(es: seq<EndpointConfig>): (out: seq<EndpointConfig>)
    ensures |out| == |es|
  {
    seq(|es|, i requires 0 <= i < |es| => CanonicalEndpoint(es[i]))
  }

  function CanonicalApplications(apps: seq<ApplicationConfig>): (out: seq<ApplicationConfig>)
    ensures |out| == |apps|
  {
    seq(|apps|, i requires 0 <= i < |apps| => CanonicalApplication(apps[i]))
  }

  function Canonical(d: DriverConfig): DriverConfig {
    DriverConfig(d.driverClsid, CanonicalEndpoints(d.endpoints), CanonicalApplications(d.applications),
                 if d.waveRtMinimumFrames > 2 then d.waveRtMinimumFrames else 0, d.enableApplicationRouting)
  }

  ghost predicate HasNo(pairs: seq<Member>, key: string) {
    forall i :: 0 <= i < |pairs| ==> pairs[i].key != key
  }

  lemma FindHeld(pairs: seq<Member>, key: string, value: Value)
    requires DistinctKeys(pairs) && Member(key, value) in pairs
    ensures Find(Build(pairs), key) == Some(value)
  {
    BuildFinds(pairs, key);
  }

  lemma FindMissing(pairs: seq<Member>, key: string)
    requires DistinctKeys(pairs) && HasNo(pairs, key)
    ensures Find(Build(pairs), key) == None
  {
    BuildFinds(pairs, key);
  }

  lemma EndpointKeys(tc: TextConversion, e: EndpointConfig)
    ensures DistinctKeys(EndpointPairs(tc, e))
    ensures !e.attachPhysical ==>
            HasNo(EndpointPairs(tc, e), "attachPhysical") && HasNo(EndpointPairs(tc, e), "physicalChannelBase")
  {
    var pairs := EndpointPairs(tc, e);
    var keys := ["id", "description", "type", "channelCount", "attachPhysical", "physicalChannelBase"];
    assert "id"[0] == 'i' && "description"[0] == 'd' && "type"[0] == 't' && "channelCount"[0] == 'c';
    assert "attachPhysical"[0] == 'a' && "physicalChannelBase"[0] == 'p';
    assert forall i :: 0 <= i < |pairs| ==> pairs[i].key == keys[i];
  }

  lemma EndpointFields(tc: TextConversion, e: EndpointConfig)
    ensures var o := SaveEndpoint(tc, e);
            && Find(o, "id") == Some(String(e.id))
            && Find(o, "description") == Some(String(tc.toUtf8(e.description)))
            && Find(o, "type") == Some(String(if e.typ.Recording? then "recording" else "playback"))
            && Find(o, "channelCount") == Some(Number(e.channelCount as real))
  {
    EndpointKeys(tc, e);
    var pairs := EndpointPairs(tc, e);
    FindHeld(pairs, pairs[0].key, pairs[0].value);
    FindHeld(pairs, pairs[1].key, pairs[1].value);
    FindHeld(pairs, pairs[2].key, pairs[2].value);
    FindHeld(pairs, pairs[3].key, pairs[3].value);
  }

  lemma EndpointOptions(tc: TextConversion, e: EndpointConfig)
    ensures var o := SaveEndpoint(tc, e);
            && Find(o, "attachPhysical") == (if e.attachPhysical then Some(Boolean(true)) else None)
            && Find(o, "physicalChannelBase") ==
               (if e.attachPhysical then Some(Number(e.physicalChannelBase as real)) else None)
  {
    EndpointKeys(tc, e);
    var pairs := EndpointPairs(tc, e);
    if e.attachPhysical {
      FindHeld(pairs, pairs[4].key, pairs[4].value);
      FindHeld(pairs, pairs[5].key, pairs[5].value);
    } else {
      FindMissing(pairs, "attachPhysical");
      FindMissing(pairs, "physicalChannelBase");
    }
  }

  lemma EndpointRoundTrip(tc: TextConversion, e: EndpointConfig)
    requires Inverse(tc)
    ensures LoadEndpoint(tc, SaveEndpoint(tc, e)) == Some(CanonicalEndpoint(e))
  {
    EndpointFields(tc, e);
    EndpointOptions(tc, e);
  }

  lemma DefaultRoundTrip(d: DefaultEndpointConfig)
    ensures LoadDefault(SaveDefault(d)) == if Loadable(d) then Some(d) else None
  {
    var pairs := DefaultPairs(d);
    assert "id"[0] == 'i' && "role"[0] == 'r' && "type"[0] == 't';
    FindHeld(pairs, pairs[0].key, pairs[0].value);
    FindHeld(pairs, pairs[1].key, pairs[1].value);
    FindHeld(pairs, pairs[2].key, pairs[2].value);
  }

  lemma {:induction false} DefaultsRoundTrip(ds: seq<DefaultEndpointConfig>)
    ensures LoadDefaults(SavedDefaults(ds)) == Keep(ds)
  {
    if ds != [] {
      var n := |ds| - 1;
      DefaultsRoundTrip(ds[..n]);
      DefaultRoundTrip(ds[n]);
      assert SavedDefaults(ds)[..n] == SavedDefaults(ds[..n]);
    }
  }

  lemma ApplicationKeys(tc: TextConversion, a: ApplicationConfig)
    ensures DistinctKeys(ApplicationPairs(tc, a))
    ensures !a.regexMatch ==> HasNo(ApplicationPairs(tc, a), "regexMatch")
    ensures a.defaults == [] ==> HasNo(ApplicationPairs(tc, a), "defaults")
  {
    assert "description"[2] == 's' && "path"[0] == 'p' && "regexMatch"[0] == 'r' && "defaults"[0] == 'd' &&
           "defaults"[2] == 'f';
  }

  lemma ApplicationFields(tc: TextConversion, a: ApplicationConfig)
    ensures var o := SaveApplication(tc, a);
            && Find(o, "description") == Some(String(tc.toUtf8(a.description)))
            && Find(o, "path") == Some(String(tc.toUtf8(a.path)))
            && Find(o, "regexMatch") == (if a.regexMatch then Some(Boolean(true)) else None)
            && Find(o, "defaults") == (if a.defaults != [] then Some(Array(SavedDefaults(a.defaults))) else None)
  {
    ApplicationKeys(tc, a);
    var pairs := ApplicationPairs(tc, a);
    FindHeld(pairs, pairs[0].key, pairs[0].value);
    FindHeld(pairs, pairs[1].key, pairs[1].value);
    if a.regexMatch {
      FindHeld(pairs, pairs[2].key, pairs[2].value);
    } else {
      FindMissing(pairs, "regexMatch");
    }
    if a.defaults != [] {
      FindHeld(pairs, pairs[|pairs| - 1].key, pairs[|pairs| - 1].value);
    } else {
      FindMissing(pairs, "defaults");
    }
  }

  lemma ApplicationRoundTrip(tc: TextConversion, a: ApplicationConfig)
    requires Inverse(tc)
    ensures LoadApplication(tc, SaveApplication(tc, a)) == Some(CanonicalApplication(a))
  {
    ApplicationFields(tc, a);
    DefaultsRoundTrip(a.defaults);
  }

  lemma {:induction false} EndpointsRoundTrip(tc: TextConversion, es: seq<EndpointConfig>)
    requires Inverse(tc)
    ensures LoadEndpoints(tc, SavedEndpoints(tc, es)) == CanonicalEndpoints(es)
  {
    if es != [] {
      var n := |es| - 1;
      EndpointsRoundTrip(tc, es[..n]);
      EndpointRoundTrip(tc, es[n]);
      assert SavedEndpoints(tc, es)[..n] == SavedEndpoints(tc, es[..n]);
      assert CanonicalEndpoints(es) == CanonicalEndpoints(es[..n]) + [CanonicalEndpoint(es[n])];
    }
  }

  lemma SavedAppend(tc: TextConversion, apps: seq<ApplicationConfig>)
    requires apps != []
    ensures var n := |apps| - 1;
            && SavedApplications(tc, apps) == SavedApplications(tc, apps[..n]) + [Object(SaveApplication(tc, apps[n]))]
            && CanonicalApplications(apps) == CanonicalApplications(apps[..n]) + [CanonicalApplication(apps[n])]
  {
  }

  lemma LastApplication(tc: TextConversion, items: seq<Value>, a: ApplicationConfig)
    requires Inverse(tc) && items != [] && items[|items| - 1] == Object(SaveApplication(tc, a))
    ensures LoadApplications(tc, items) == LoadApplications(tc, items[..|items| - 1]) + [CanonicalApplication(a)]
  {
    ApplicationRoundTrip(tc, a);
  }

  lemma {:induction false} ApplicationsRoundTrip(tc: TextConversion, apps: seq<ApplicationConfig>)
    requires Inverse(tc)
    ensures LoadApplications(tc, SavedApplications(tc, apps)) == CanonicalApplications(apps)
  {
    if apps != [] {
      var n := |apps| - 1;
      ApplicationsRoundTrip(tc, apps[..n]);
      SavedAppend(tc, apps);
      LastApplication(tc, SavedApplications(tc, apps), apps[n]);
    }
  }

  /** Loading what was saved into a fresh configuration gives the canonical form. */
  lemma SaveThenLoad(tc: TextConversion, d: DriverConfig)
    requires Inverse(tc)
    ensures Load(tc, FRESH_DRIVER, Save(tc, d)) == Canonical(d)
  {
    ScalarsComeBack(tc, d);
    EndpointsComeBack(tc, d);
    ApplicationsComeBack(tc, d);
  }

  lemma ScalarsComeBack(tc: TextConversion, d: DriverConfig)
    ensures var e, c := Load(tc, FRESH_DRIVER, Save(tc, d)), Canonical(d);
            && e.driverClsid == c.driverClsid && e.waveRtMinimumFrames == c.waveRtMinimumFrames
            && e.enableApplicationRouting == c.enableApplicationRouting
  {
    DriverScalars(tc, d);
  }

  lemma EndpointsComeBack(tc: TextConversion, d: DriverConfig)
    requires Inverse(tc)
    ensures Load(tc, FRESH_DRIVER, Save(tc, d)).endpoints == CanonicalEndpoints(d.endpoints)
  {
    DriverLists(tc, d);
    EndpointsRoundTrip(tc, d.endpoints);
    assert [] + CanonicalEndpoints(d.endpoints) == CanonicalEndpoints(d.endpoints);
  }

  lemma ApplicationsComeBack(tc: TextConversion, d: DriverConfig)
    requires Inverse(tc)
    ensures Load(tc, FRESH_DRIVER, Save(tc, d)).applications == CanonicalApplications(d.applications)
  {
    DriverLists(tc, d);
    ApplicationsRoundTrip(tc, d.applications);
    assert [] + CanonicalApplications(d.applications) == CanonicalApplications(d.applications);
  }

  lemma DriverScalars(tc: TextConversion, d: DriverConfig)
    ensures var o := Save(tc, d);
            && Find(o, "driverClsid") == Some(String(d.driverClsid))
            && Find(o, "enableApplicationRouting") == Some(Boolean(d.enableApplicationRouting))
            && Find(o, "waveRtMinimumFrames") == if d.waveRtMinimumFrames > 2
               then Some(Number(d.waveRtMinimumFrames as real)) else None
  {
    var pairs := DriverPairs(tc, d);
    DriverKeys(tc, d);
    FindHeld(pairs, pairs[0].key, pairs[0].value);
    FindHeld(pairs, pairs[1].key, pairs[1].value);
    if d.waveRtMinimumFrames > 2 {
      FindHeld(pairs, pairs[2].key, pairs[2].value);
    } else {
      FindMissing(pairs, "waveRtMinimumFrames");
    }
  }

  lemma DriverLists(tc: TextConversion, d: DriverConfig)
    ensures var o := Save(tc, d);
            && Find(o, "endpoints") == (if d.endpoints != [] then Some(Array(SavedEndpoints(tc, d.endpoints)))
                                        else None)
            && Find(o, "applications") == (if d.applications != []
                                           then Some(Array(SavedApplications(tc, d.applications))) else None)
  {
    var pairs := DriverPairs(tc, d);
    DriverKeys(tc, d);
    if d.endpoints != [] {
      FindHeld(pairs, "endpoints", Array(SavedEndpoints(tc, d.endpoints)));
    } else {
      FindMissing(pairs, "endpoints");
    }
    if d.applications != [] {
      FindHeld(pairs, "applications", Array(SavedApplications(tc, d.applications)));
    } else {
      FindMissing(pairs, "applications");
    }
  }

  lemma DriverKeys(tc: TextConversion, d: DriverConfig)
    ensures var pairs := DriverPairs(tc, d);
            && DistinctKeys(pairs)
            && |pairs| >= 2 && pairs[0] == Member("driverClsid", String(d.driverClsid))
            && pairs[1] == Member("enableApplicationRouting", Boolean(d.enableApplicationRouting))
            && (if d.waveRtMinimumFrames > 2
                then |pairs| > 2 && pairs[2] == Member("waveRtMinimumFrames", Number(d.waveRtMinimumFrames as real))
                else HasNo(pairs, "waveRtMinimumFrames"))
            && (if d.endpoints != [] then Member("endpoints", Array(SavedEndpoints(tc, d.endpoints))) in pairs
                else HasNo(pairs, "endpoints"))
            && (if d.applications != []
                then Member("applications", Array(SavedApplications(tc, d.applications))) in pairs
                else HasNo(pairs, "applications"))
  {
    var pairs := DriverPairs(tc, d);
    if d.applications != [] {
      assert pairs[|pairs| - 1] == Member("applications", Array(SavedApplications(tc, d.applications)));
    }
    if d.endpoints != [] {
      assert pairs[if d.waveRtMinimumFrames > 2 then 3 else 2] ==
             Member("endpoints", Array(SavedEndpoints(tc, d.endpoints)));
    }
  }

  // ---------------------------------------------------------------------------------
  // Loading any object
  // ---------------------------------------------------------------------------------

  /** The whole part, towards zero. */
  lemma TruncatesTowardsZero(r: real)
    ensures r >= 0.0 ==> Truncate(r) >= 0 && Truncate(r) as real <= r < Truncate(r) as real + 1.0
    ensures r <= 0.0 ==> Truncate(r) <= 0 && Truncate(r) as real - 1.0 < r <= Truncate(r) as real
  {
  }

  /** The value of a key if it is of the wanted kind. */
  function StringAt(obj: seq<Member>, key: string): Option<string> {
    var v := Find(obj, key);
    if v.Some? && v.value.String? then Some(v.value.s) else None
  }

  function NumberAt(obj: seq<Member>, key: string): Option<real> {
    var v := Find(obj, key);
    if v.Some? && v.value.Number? then Some(v.value.r) else None
  }

  function BooleanAt(obj: seq<Member>, key: string): Option<bool> {
    var v := Find(obj, key);
    if v.Some? && v.value.Boolean? then Some(v.value.b) else None
  }

  function ItemsAt(obj: seq<Member>, key: string): Option<seq<Value>> {
    var v := Find(obj, key);
    if v.Some? && v.value.Array? then Some(v.value.items) else None
  }

  function OrElse<T>(o: Option<T>, other: T): T {
    if o.Some? then o.value else other
  }

  /** An endpoint is loaded if and only if its four fields are there with the right types; any type but "recording" is
      playback, and the two other fields are optional. */
  lemma EndpointLoadsExactly(tc: TextConversion, obj: seq<Member>)
    ensures LoadEndpoint(tc, obj).Some? <==>
            StringAt(obj, "id").Some? && StringAt(obj, "description").Some? && StringAt(obj, "type").Some? &&
              NumberAt(obj, "channelCount").Some?
    ensures LoadEndpoint(tc, obj).Some? ==>
              var e := LoadEndpoint(tc, obj).value;
              && e.id == StringAt(obj, "id").value && e.description == tc.toWide(StringAt(obj, "description").value)
              && (e.typ == Recording <==> StringAt(obj, "type") == Some("recording"))
              && e.channelCount == Truncate(NumberAt(obj, "channelCount").value)
              && e.attachPhysical == OrElse(BooleanAt(obj, "attachPhysical"), false)
              && (NumberAt(obj, "physicalChannelBase").Some? ==>
                    e.physicalChannelBase == Truncate(NumberAt(obj, "physicalChannelBase").value))
              && (NumberAt(obj, "physicalChannelBase").None? ==> e.physicalChannelBase == 0)
  {
  }

  /** A default is loaded if and only if its three fields are strings and role and type are among the known names. */
  lemma DefaultLoadsExactly(obj: seq<Member>, d: DefaultEndpointConfig)
    ensures LoadDefault(obj) == Some(d) <==>
            && StringAt(obj, "id") == Some(d.id)
            && (d.role, StringAt(obj, "role")) in {(Console, Some("console")), (Multimedia, Some("multimedia")),
                                                   (Communications, Some("communications"))}
            && (d.typ, StringAt(obj, "type")) in {(Render, Some("playback")), (Capture, Some("recording"))}
  {
    var role, typ := StringAt(obj, "role"), StringAt(obj, "type");
    assert "console"[2] == 'n' && "communications"[2] == 'm' && "multimedia"[0] == 'm';
    assert "playback"[0] == 'p' && "recording"[0] == 'r';
    if LoadDefault(obj) == Some(d) { assert role.Some? && typ.Some?; }
  }

  lemma ApplicationLoadsExactly(tc: TextConversion, obj: seq<Member>)
    ensures LoadApplication(tc, obj).Some? <==> StringAt(obj, "description").Some? && StringAt(obj, "path").Some?
    ensures LoadApplication(tc, obj).Some? ==>
              var a := LoadApplication(tc, obj).value;
              && a.description == tc.toWide(StringAt(obj, "description").value)
              && a.path == tc.toWide(StringAt(obj, "path").value)
              && a.regexMatch == OrElse(BooleanAt(obj, "regexMatch"), false)
              && a.defaults == LoadDefaults(OrElse(ItemsAt(obj, "defaults"), []))
  {
  }

  /** Every field of a configuration that the object has with the right type replaces what was there, whatever its
      value, and the lists are extended; any other field keeps what was there. */
  lemma LoadsExactly(tc: TextConversion, d: DriverConfig, obj: seq<Member>)
    ensures var e := Load(tc, d, obj);
            && e.driverClsid == OrElse(StringAt(obj, "driverClsid"), d.driverClsid)
            && e.enableApplicationRouting ==
               OrElse(BooleanAt(obj, "enableApplicationRouting"), d.enableApplicationRouting)
            && (NumberAt(obj, "waveRtMinimumFrames").Some? ==>
                  e.waveRtMinimumFrames == Truncate(NumberAt(obj, "waveRtMinimumFrames").value))
            && (NumberAt(obj, "waveRtMinimumFrames").None? ==> e.waveRtMinimumFrames == d.waveRtMinimumFrames)
            && e.endpoints == d.endpoints + LoadEndpoints(tc, OrElse(ItemsAt(obj, "endpoints"), []))
            && e.applications == d.applications + LoadApplications(tc, OrElse(ItemsAt(obj, "applications"), []))
  {
    assert d.endpoints + [] == d.endpoints && d.applications + [] == d.applications;
  }

  /** Lists are loaded in order, item by item, and what is no object or does not load is left out. */
  lemma {:induction false} ListsInOrder(tc: TextConversion, a: seq<Value>, b: seq<Value>)
    ensures LoadEndpoints(tc, a + b) == LoadEndpoints(tc, a) + LoadEndpoints(tc, b)
    ensures LoadApplications(tc, a + b) == LoadApplications(tc, a) + LoadApplications(tc, b)
    ensures LoadDefaults(a + b) == LoadDefaults(a) + LoadDefaults(b)
    decreases |b|
  {
    if b == [] {
      assert a + b == a;
    } else {
      assert (a + b)[..|a + b| - 1] == a + b[..|b| - 1];
      ListsInOrder(tc, a, b[..|b| - 1]);
    }
  }

  lemma OneItem(tc: TextConversion, v: Value)
    ensures LoadEndpoints(tc, [v]) ==
            if v.Object? && LoadEndpoint(tc, v.members).Some? then [LoadEndpoint(tc, v.members).value] else []
    ensures LoadApplications(tc, [v]) ==
            if v.Object? && LoadApplication(tc, v.members).Some? then [LoadApplication(tc, v.members).value] else []
    ensures LoadDefaults([v]) ==
            if v.Object? && LoadDefault(v.members).Some? then [LoadDefault(v.members).value] else []
  {
    assert [v][..0] == [];
  }

  /** An object with every field, also those that save leaves out. */
  function EveryField(tc: TextConversion, d: DriverConfig): seq<Member> {
    Build([Member("driverClsid", String(d.driverClsid)),
           Member("enableApplicationRouting", Boolean(d.enableApplicationRouting)),
           Member("waveRtMinimumFrames", Number(d.waveRtMinimumFrames as real)),
           Member("endpoints", Array(SavedEndpoints(tc, d.endpoints))),
           Member("applications", Array(SavedApplications(tc, d.applications)))])
  }

  /** Load honours any minimum frame count in a file, also those from 0 to 2 that save does not write. */
  lemma EveryFieldLoads(tc: TextConversion, base: DriverConfig, d: DriverConfig)
    requires Inverse(tc)
    ensures Load(tc, base, EveryField(tc, d)) ==
            DriverConfig(d.driverClsid, base.endpoints + CanonicalEndpoints(d.endpoints),
                         base.applications + CanonicalApplications(d.applications), d.waveRtMinimumFrames,
                         d.enableApplicationRouting)
  {
    EveryFieldFound(tc, d);
    EndpointsRoundTrip(tc, d.endpoints);
    ApplicationsRoundTrip(tc, d.applications);
  }

  lemma EveryFieldFound(tc: TextConversion, d: DriverConfig)
    ensures var o := EveryField(tc, d);
            && Find(o, "driverClsid") == Some(String(d.driverClsid))
            && Find(o, "enableApplicationRouting") == Some(Boolean(d.enableApplicationRouting))
            && Find(o, "waveRtMinimumFrames") == Some(Number(d.waveRtMinimumFrames as real))
            && Find(o, "endpoints") == Some(Array(SavedEndpoints(tc, d.endpoints)))
            && Find(o, "applications") == Some(Array(SavedApplications(tc, d.applications)))
  {
    var pairs := [Member("driverClsid", String(d.driverClsid)),
                  Member("enableApplicationRouting", Boolean(d.enableApplicationRouting)),
                  Member("waveRtMinimumFrames", Number(d.waveRtMinimumFrames as real)),
                  Member("endpoints", Array(SavedEndpoints(tc, d.endpoints))),
                  Member("applications", Array(SavedApplications(tc, d.applications)))];
    assert "driverClsid"[0] == 'd' && "enableApplicationRouting"[1] == 'n' && "waveRtMinimumFrames"[0] == 'w';
    assert "endpoints"[1] == 'n' && "endpoints"[2] == 'd' && "enableApplicationRouting"[2] == 'a' &&
           "applications"[0] == 'a';
    assert DistinctKeys(pairs);
    FindHeld(pairs, "driverClsid", pairs[0].value);
    FindHeld(pairs, "enableApplicationRouting", pairs[1].value);
    FindHeld(pairs, "waveRtMinimumFrames", pairs[2].value);
    FindHeld(pairs, "endpoints", pairs[3].value);
    FindHeld(pairs, "applications", pairs[4].value);
  }

  // Which configurations survive unchanged

  predicate Survives(d: DriverConfig) {
    && (forall i :: 0 <= i < |d.endpoints| ==> d.endpoints[i].attachPhysical || d.endpoints[i].physicalChannelBase == 0)
    && (forall i, j :: 0 <= i < |d.applications| && 0 <= j < |d.applications[i].defaults| ==>
        Loadable(d.applications[i].defaults[j]))
    && (d.waveRtMinimumFrames > 2 || d.waveRtMinimumFrames == 0)
  }

  lemma {:induction false} KeepAll(ds: seq<DefaultEndpointConfig>)
    ensures |Keep(ds)| <= |ds|
    ensures Keep(ds) == ds <==> forall j :: 0 <= j < |ds| ==> Loadable(ds[j])
    ensures forall j :: 0 <= j < |Keep(ds)| ==> Loadable(Keep(ds)[j])
  {
    if ds != [] {
      var n := |ds| - 1;
      KeepAll(ds[..n]);
      assert ds == ds[..n] + [ds[n]];
      if Loadable(ds[n]) {
        assert Keep(ds)[..|Keep(ds)| - 1] == Keep(ds[..n]);
        if Keep(ds) == ds {
          assert Keep(ds[..n]) == ds[..n];
        }
      }
    }
  }

  /** A configuration comes back unchanged if and only if: unattached endpoints have no channel base, every
      default is for render or capture in one of the three roles, and the minimum frame count is above two
      or zero. In particular a minimum frame count of 2, which the client honours, is lost. */
  lemma UnchangedExactlyWhen(tc: TextConversion, d: DriverConfig)
    requires Inverse(tc)
    ensures Load(tc, FRESH_DRIVER, Save(tc, d)) == d <==> Survives(d)
  {
    SaveThenLoad(tc, d);
    forall i | 0 <= i < |d.applications|
      ensures CanonicalApplication(d.applications[i]) == d.applications[i] <==>
              forall j :: 0 <= j < |d.applications[i].defaults| ==> Loadable(d.applications[i].defaults[j])
    {
      KeepAll(d.applications[i].defaults);
    }
    if Canonical(d) == d {
      forall i | 0 <= i < |d.endpoints|
        ensures d.endpoints[i].attachPhysical || d.endpoints[i].physicalChannelBase == 0
      {
        assert CanonicalEndpoints(d.endpoints)[i] == d.endpoints[i];
      }
      forall i | 0 <= i < |d.applications|
        ensures CanonicalApplication(d.applications[i]) == d.applications[i]
      {
        assert CanonicalApplications(d.applications)[i] == d.applications[i];
      }
    }
    if Survives(d) {
      assert CanonicalEndpoints(d.endpoints) == d.endpoints;
      assert CanonicalApplications(d.applications) == d.applications;
    }
  }

  /** Saving and loading a second time changes nothing more. */
  lemma CanonicalTwice(d: DriverConfig)
    ensures Canonical(Canonical(d)) == Canonical(d)
  {
    var c := Canonical(d);
    forall i | 0 <= i < |d.applications|
      ensures CanonicalApplications(c.applications)[i] == c.applications[i]
    {
      KeepAll(d.applications[i].defaults);
      KeepAll(c.applications[i].defaults);
    }
  }

  // ---------------------------------------------------------------------------------
  // Through the file
  // ---------------------------------------------------------------------------------

  /** Strings are bytes and integers are those of a C++ int. */
  ghost predicate Representable(d: DriverConfig) {
    && Bytes(d.driverClsid) && Int32(d.waveRtMinimumFrames)
    && (forall i :: 0 <= i < |d.endpoints| ==>
          Bytes(d.endpoints[i].id) && Int32(d.endpoints[i].channelCount) && Int32(d.endpoints[i].physicalChannelBase))
    && (forall i, j :: 0 <= i < |d.applications| && 0 <= j < |d.applications[i].defaults| ==>
        Bytes(d.applications[i].defaults[j].id))
  }

  lemma EndpointPairsPlain(tc: TextConversion, e: EndpointConfig)
    requires Inverse(tc) && Bytes(e.id) && Int32(e.channelCount) && Int32(e.physicalChannelBase)
    ensures forall i :: 0 <= i < |EndpointPairs(tc, e)| ==>
            Bytes(EndpointPairs(tc, e)[i].key) && Plain(EndpointPairs(tc, e)[i].value)
  {
    assert Bytes("id") && Bytes("description") && Bytes("type") && Bytes("channelCount");
    assert Bytes("attachPhysical") && Bytes("physicalChannelBase") && Bytes("recording") && Bytes("playback");
  }

  lemma EndpointPlain(tc: TextConversion, e: EndpointConfig)
    requires Inverse(tc) && Bytes(e.id) && Int32(e.channelCount) && Int32(e.physicalChannelBase)
    ensures Plain(Object(SaveEndpoint(tc, e)))
  {
    EndpointPairsPlain(tc, e);
    BuildPlain(EndpointPairs(tc, e));
  }

  lemma ApplicationPlain(tc: TextConversion, a: ApplicationConfig)
    requires Inverse(tc) && forall j :: 0 <= j < |a.defaults| ==> Bytes(a.defaults[j].id)
    ensures Plain(Object(SaveApplication(tc, a)))
  {
    DefaultsPlain(a.defaults);
    ApplicationPairsPlain(tc, a);
    BuildPlain(ApplicationPairs(tc, a));
  }

  lemma DefaultsPlain(ds: seq<DefaultEndpointConfig>)
    requires forall j :: 0 <= j < |ds| ==> Bytes(ds[j].id)
    ensures Plain(Array(SavedDefaults(ds)))
  {
    forall j | 0 <= j < |ds|
      ensures Plain(SavedDefaults(ds)[j])
    {
      DefaultPlain(ds[j]);
    }
  }

  lemma DefaultPlain(d: DefaultEndpointConfig)
    requires Bytes(d.id)
    ensures Plain(Object(SaveDefault(d)))
  {
    DefaultPairsPlain(d);
    BuildPlain(DefaultPairs(d));
  }

  lemma DefaultPairsPlain(d: DefaultEndpointConfig)
    requires Bytes(d.id)
    ensures forall i :: 0 <= i < |DefaultPairs(d)| ==>
              Bytes(DefaultPairs(d)[i].key) && Plain(DefaultPairs(d)[i].value)
  {
  }

  lemma ApplicationPairsPlain(tc: TextConversion, a: ApplicationConfig)
    requires Inverse(tc) && Plain(Array(SavedDefaults(a.defaults)))
    ensures forall i :: 0 <= i < |ApplicationPairs(tc, a)| ==>
            Bytes(ApplicationPairs(tc, a)[i].key) && Plain(ApplicationPairs(tc, a)[i].value)
  {
    assert Bytes("description") && Bytes("path") && Bytes("regexMatch") && Bytes("defaults");
  }

  lemma ListsPlain(tc: TextConversion, d: DriverConfig)
    requires Inverse(tc) && Representable(d)
    ensures Plain(Array(SavedEndpoints(tc, d.endpoints))) && Plain(Array(SavedApplications(tc, d.applications)))
  {
    forall i | 0 <= i < |d.endpoints|
      ensures Plain(SavedEndpoints(tc, d.endpoints)[i])
    {
      EndpointPlain(tc, d.endpoints[i]);
    }
    forall i | 0 <= i < |d.applications|
      ensures Plain(SavedApplications(tc, d.applications)[i])
    {
      ApplicationPlain(tc, d.applications[i]);
    }
  }

  lemma DriverKeyBytes()
    ensures Bytes("driverClsid") && Bytes("enableApplicationRouting") && Bytes("waveRtMinimumFrames")
    ensures Bytes("endpoints") && Bytes("applications")
  {
  }

  lemma SavePlain(tc: TextConversion, d: DriverConfig)
    requires Inverse(tc) && Representable(d)
    ensures Plain(Object(Save(tc, d)))
  {
    ListsPlain(tc, d);
    DriverKeyBytes();
    var lists := (if d.endpoints != [] then [Member("endpoints", Array(SavedEndpoints(tc, d.endpoints)))] else []) +
                 (if d.applications != [] then [Member("applications", Array(SavedApplications(tc, d.applications)))]
                  else []);
    assert forall i :: 0 <= i < |lists| ==> Bytes(lists[i].key) && Plain(lists[i].value);
    var pairs := DriverPairs(tc, d);
    assert pairs == pairs[..|pairs| - |lists|] + lists;
    hide SavedEndpoints, SavedApplications, Build;
    BuildPlain(pairs);
  }

  /** DriverConfig::fromFile on the text of a file. */
  function FromText(lib: Library, tc: TextConversion, text: string): DriverConfig {
    var parsed := ParseValue(lib, text);
    if parsed.Some? && parsed.value.0.Object? then Load(tc, FRESH_DRIVER, parsed.value.0.members) else FRESH_DRIVER
  }

  /** writeFile then fromFile: the prettified text of any configuration parses and loads to its canonical form. */
  lemma WriteThenRead(lib: Library, tc: TextConversion, d: DriverConfig)
    requires JsonRoundTrip.ReadsIntegers(lib) && Inverse(tc) && Representable(d)
    ensures FromText(lib, tc, Serialize(lib, Object(Save(tc, d)), true)) == Canonical(d)
  {
    SavePlain(tc, d);
    JsonRoundTrip.SerializeParses(lib, Object(Save(tc, d)), true);
    SaveThenLoad(tc, d);
  }
}
