/** The host's check of a desired configuration against the device's registration. */
module Validation {
  import opened Option
  import opened Wire
  import opened Registration

  datatype Error =
    | UnknownDeviceSetting(key: string)
    | UnknownChannel(channelId: string)
    | InvalidState(channelId: string, state: string)
    | UnknownProfile(channelId: string, profile: string)
    | UnknownSetting(channelId: string, key: string)
    | InvalidProtocol(channelId: string)
    | UnknownProtocol(channelId: string, protocol: string)
    | UnsupportedProtocol(channelId: string, protocol: string)
    | InvalidBody(channelId: string, protocol: string)
    | UnknownField(channelId: string, protocol: string, field: string)
    | MissingField(channelId: string, protocol: string, field: string)

  // The fields of each transport protocol; true marks a required one.
  const PROTOCOL_FIELDS: map<string, map<string, bool>> := map[
    "srtCaller" := map["address" := true, "port" := true, "minimumLatencyMilliseconds" := false, "streamId" := false,
        "encryption" := false],
    "srtListener" := map["port" := true, "minimumLatencyMilliseconds" := false, "streamId" := false,
        "encryption" := false],
    "ristSimpleSender" := map["address" := true, "port" := true, "minimumLatencyMilliseconds" := false],
    "ristSimpleReceiver" := map["port" := true, "minimumLatencyMilliseconds" := false],
    "zixiPushSender" := map["address" := true, "streamId" := false, "port" := false,
        "maximumLatencyMilliseconds" := false, "encryption" := false],
    "zixiPushReceiver" := map["port" := true, "streamId" := false, "maximumLatencyMilliseconds" := false,
        "encryption" := false],
    "zixiPullSender" := map["streamId" := true, "port" := true, "maximumLatencyMilliseconds" := false,
        "encryption" := false],
    "zixiPullReceiver" := map["streamId" := true, "address" := true, "port" := false,
        "maximumLatencyMilliseconds" := false, "encryption" := false],
    "rtp" := map["address" := true, "port" := true, "sourceAddressFilter" := false, "forwardErrorCorrection" := true]]

  const REGISTRATION_NAME: map<string, string> := map[
    "srtCaller" := "SRT_CALLER", "srtListener" := "SRT_LISTENER",
    "ristSimpleSender" := "RIST_SIMPLE_SENDER", "ristSimpleReceiver" := "RIST_SIMPLE_RECEIVER",
    "zixiPushSender" := "ZIXI_PUSH_SENDER", "zixiPushReceiver" := "ZIXI_PUSH_RECEIVER",
    "zixiPullSender" := "ZIXI_PULL_SENDER", "zixiPullReceiver" := "ZIXI_PULL_RECEIVER",
    "rtp" := "RTP"]

  // ----- what an acceptable configuration is -----

  // The body is written against the schema of its protocol: no other field, every required one.
  ghost predicate FitsSchema(schema: map<string, bool>, body: Body) {
    && body.Fields?
    && body.fields.Keys <= schema.Keys
    && forall f | f in schema && schema[f] :: f in body.fields
  }

  // A registration that lists no protocols allows all of them.
  ghost predicate ProtocolFits(bodies: map<string, Body>, registered: seq<string>) {
    forall key | key in bodies ::
      && key in REGISTRATION_NAME && key in PROTOCOL_FIELDS
      && (registered == [] || REGISTRATION_NAME[key] in registered)
      && FitsSchema(PROTOCOL_FIELDS[key], bodies[key])
  }

  ghost predicate SettingsFit(j: Json, t: Template) {
    j.Settings? ==>
      && (j.profile.Some? ==> HasId(t.profiles, j.profile.value))
      && (j.standard.Some? ==> forall kv | kv in j.standard.value :: HasId(t.settings, kv.id))
  }

  // The state may be omitted or empty.
  ghost predicate StateFits(j: Json) {
    j in {Null, Str(""), Str("ACTIVE"), Str("IDLE")}
  }

  ghost predicate ChannelFits(ch: Channel, t: Template) {
    && StateFits(Get(ch, "state"))
    && SettingsFit(Get(ch, "channelSettings"), t)
    && (Get(ch, "protocol") == Null || (Get(ch, "protocol").Protocol?
        && ProtocolFits(ch["protocol"].bodies, t.protocols)))
  }

  ghost predicate ChannelAccepted(ch: Channel, r: Registration) {
    exists j, t :: Decides(r, IdOf(ch), j) && 0 <= t < |r.templates| && r.templates[t].id == r.assignments[j].templateId
      && (forall u | t < u < |r.templates| :: r.templates[u].id != r.templates[t].id)
      && ChannelFits(ch, r.templates[t])
  }

  ghost predicate DeviceSettingsFit(settings: Option<seq<KeyValue>>, r: Registration) {
    settings.Some? ==> forall kv | kv in settings.value :: HasId(r.settings, kv.id)
  }

  ghost predicate Accepts(cfg: Config, r: Registration) {
    && DeviceSettingsFit(cfg.settings, r)
    && forall i | 0 <= i < |cfg.channels| :: ChannelAccepted(cfg.channels[i], r)
  }

  lemma AcceptedByItsTemplate(ch: Channel, r: Registration)
    ensures
      var t := TemplateOf(r.templates, r.assignments, IdOf(ch));
      ChannelAccepted(ch, r) <==> t.Some? && ChannelFits(ch, r.templates[t.value])
  {
    hide ChannelFits;
    TemplateOfMeans(r, IdOf(ch));
    var t := TemplateOf(r.templates, r.assignments, IdOf(ch));
    if ChannelAccepted(ch, r) {
      var j, u :| Decides(r, IdOf(ch), j) && 0 <= u < |r.templates| && r.templates[u].id == r.assignments[j].templateId
        && (forall v | u < v < |r.templates| :: r.templates[v].id != r.templates[u].id)
        && ChannelFits(ch, r.templates[u]);
      assert u == t.value;
    }
    if t.Some? && ChannelFits(ch, r.templates[t.value]) {
      var j :| Decides(r, IdOf(ch), j);
      assert r.templates[t.value].id == r.assignments[j].templateId;
    }
  }

  // ----- what an error message says -----

  // The named fault is really there.
  ghost predicate ProtocolFault(channelId: string, bodies: map<string, Body>, registered: seq<string>, e: Error) {
    match e
    case UnknownProtocol(c, p) => c == channelId && p in bodies && p !in REGISTRATION_NAME
    case UnsupportedProtocol(c, p) =>
      c == channelId && p in bodies && p in REGISTRATION_NAME && registered != [] && REGISTRATION_NAME[p] !in registered
    case InvalidBody(c, p) => c == channelId && p in bodies && bodies[p] == NotAnObject
    case UnknownField(c, p, f) =>
      c == channelId && p in bodies && bodies[p].Fields? && f in bodies[p].fields && p in PROTOCOL_FIELDS
          && f !in PROTOCOL_FIELDS[p]
    case MissingField(c, p, f) =>
      c == channelId && p in bodies && bodies[p].Fields? && f !in bodies[p].fields && p in PROTOCOL_FIELDS
      && f in PROTOCOL_FIELDS[p] && PROTOCOL_FIELDS[p][f]
    case _ => false
  }

  ghost predicate ChannelFault(ch: Channel, t: Template, e: Error) {
    match e
    case InvalidState(c, s) => c == IdOf(ch) && !StateFits(Get(ch, "state"))
    case UnknownProfile(c, p) => c == IdOf(ch) && Get(ch, "channelSettings").Settings?
        && ch["channelSettings"].profile == Some(p) && !HasId(t.profiles, p)
    case UnknownSetting(c, k) => c == IdOf(ch) && Get(ch, "channelSettings").Settings? && !HasId(t.settings, k)
    case InvalidProtocol(c) => c == IdOf(ch) && Get(ch, "protocol") != Null && !Get(ch, "protocol").Protocol?
    case _ => Get(ch, "protocol").Protocol? && ProtocolFault(IdOf(ch), ch["protocol"].bodies, t.protocols, e)
  }

  ghost predicate Fault(cfg: Config, r: Registration, e: Error) {
    match e
    case UnknownDeviceSetting(k) => !HasId(r.settings, k) && cfg.settings.Some? && exists kv ::
        kv in cfg.settings.value && kv.id == k
    case UnknownChannel(c) =>
      (exists ch :: ch in cfg.channels && IdOf(ch) == c) && forall j :: !Decides(r, c, j)
    case _ =>
      exists ch, t: nat :: ch in cfg.channels && t < |r.templates|
          && TemplateOf(r.templates, r.assignments, IdOf(ch)) == Some(t)
        && ChannelFault(ch, r.templates[t], e)
  }

  // ----- the validator -----

  lemma SchemasAreComplete()
    ensures REGISTRATION_NAME.Keys == PROTOCOL_FIELDS.Keys
  {
  }

  method ValidateBody(channelId: string, key: string, fields: map<string, Value>, schema: map<string, bool>)
    returns (err: Option<Error>)
    ensures err == None <==> FitsSchema(schema, Fields(fields))
    ensures err.Some? ==>
      match err.value
      case UnknownField(c, p, f) => c == channelId && p == key && f in fields && f !in schema
      case MissingField(c, p, f) => c == channelId && p == key && f !in fields && f in schema && schema[f]
      case _ => false
  {
    var names := fields.Keys;
    while names != {}
      invariant names <= fields.Keys && fields.Keys - names <= schema.Keys
    {
      var f :| f in names;
      if f !in schema {
        return Some(UnknownField(channelId, key, f));
      }
      names := names - {f};
    }
    var expected := schema.Keys;
    while expected != {}
      invariant expected <= schema.Keys
      invariant forall f | f in schema && f !in expected && schema[f] :: f in fields
    {
      var f :| f in expected;
      if schema[f] && f !in fields {
        return Some(MissingField(channelId, key, f));
      }
      expected := expected - {f};
    }
    err := None;
  }

  method ValidateProtocol(bodies: map<string, Body>, registered: seq<string>, channelId: string)
    returns (err: Option<Error>)
    ensures err == None <==> ProtocolFits(bodies, registered)
    ensures err.Some? ==> ProtocolFault(channelId, bodies, registered, err.value)
  {
    SchemasAreComplete();
    hide REGISTRATION_NAME, PROTOCOL_FIELDS, FitsSchema;
    var keys := bodies.Keys;
    while keys != {}
      invariant keys <= bodies.Keys
      invariant forall k | k in bodies && k !in keys ::
        && k in REGISTRATION_NAME && k in PROTOCOL_FIELDS && (registered == [] || REGISTRATION_NAME[k] in registered)
        && FitsSchema(PROTOCOL_FIELDS[k], bodies[k])
    {
      var key :| key in keys;
      if key !in REGISTRATION_NAME {
        return Some(UnknownProtocol(channelId, key));
      }
      if |registered| > 0 {
        var found := false;
        var i := 0;
        while i < |registered| && !found
          invariant i <= |registered|
          invariant found <==> exists j :: 0 <= j < i && registered[j] == REGISTRATION_NAME[key]
        {
          found := registered[i] == REGISTRATION_NAME[key];
          i := i + 1;
        }
        if !found {
          return Some(UnsupportedProtocol(channelId, key));
        }
      }
      BodyMustFit(PROTOCOL_FIELDS[key], bodies[key]);
      match bodies[key] {
        case NotAnObject => return Some(InvalidBody(channelId, key));
        case Fields(fields) =>
          err := ValidateBody(channelId, key, fields, PROTOCOL_FIELDS[key]);
          if err.Some? {
            return;
          }
      }
      keys := keys - {key};
    }
    err := None;
  }

  lemma BodyMustFit(schema: map<string, bool>, body: Body)
    ensures body == NotAnObject ==> !FitsSchema(schema, body)
  {
  }

  method Lists(items: seq<Item>, id: string) returns (found: bool)
    ensures found <==> HasId(items, id)
  {
    found := false;
    var i := 0;
    while i < |items|
      invariant i <= |items| && !found && forall j | 0 <= j < i :: items[j].id != id
    {
      if items[i].id == id {
        return true;
      }
      i := i + 1;
    }
  }

  // The first key that is not the id of a registered setting.
  method FirstUnknown(kvs: seq<KeyValue>, items: seq<Item>) returns (unknown: Option<string>)
    ensures unknown == None <==> forall kv | kv in kvs :: HasId(items, kv.id)
    ensures unknown.Some? ==> !HasId(items, unknown.value) && exists kv :: kv in kvs && kv.id == unknown.value
  {
    var i := 0;
    while i < |kvs|
      invariant i <= |kvs| && forall j | 0 <= j < i :: HasId(items, kvs[j].id)
    {
      var known := Lists(items, kvs[i].id);
      if !known {
        assert kvs[i] in kvs;
        return Some(kvs[i].id);
      }
      i := i + 1;
    }
    unknown := None;
  }

  method ValidateSettings(j: Json, t: Template, channelId: string) returns (err: Option<Error>)
    ensures err == None <==> SettingsFit(j, t)
    ensures err.Some? ==> j.Settings?
    ensures err.Some? ==>
      match err.value
      case UnknownProfile(c, p) => c == channelId && j.profile == Some(p) && !HasId(t.profiles, p)
      case UnknownSetting(c, k) => c == channelId && !HasId(t.settings, k)
      case _ => false
  {
    if !j.Settings? {
      return None;
    }
    if j.profile.Some? {
      var known := Lists(t.profiles, j.profile.value);
      if !known {
        return Some(UnknownProfile(channelId, j.profile.value));
      }
    }
    if j.standard.Some? {
      var unknown := FirstUnknown(j.standard.value, t.settings);
      if unknown.Some? {
        return Some(UnknownSetting(channelId, unknown.value));
      }
    }
    err := None;
  }

  method ValidateChannel(ch: Channel, t: Template) returns (err: Option<Error>)
    ensures err == None <==> ChannelFits(ch, t)
    ensures err.Some? ==> ChannelFault(ch, t, err.value)
  {
    hide SettingsFit, ProtocolFits, HasId;
    var id := IdOf(ch);
    var state := Get(ch, "state");
    if state != Null && state != Str("") && state != Str("ACTIVE") && state != Str("IDLE") {
      return Some(InvalidState(id, if Get(ch, "state").Str? then ch["state"].s else ""));
    }
    err := ValidateSettings(Get(ch, "channelSettings"), t, id);
    if err.Some? {
      return;
    }
    var p := Get(ch, "protocol");
    if p == Null {
      return None;
    }
    if !p.Protocol? {
      return Some(InvalidProtocol(id));
    }
    err := ValidateProtocol(p.bodies, t.protocols, id);
  }

  /** Accepts exactly the configurations that meet the declarative specification,
      and otherwise names a fault that is really there. */
  method ValidateConfiguration(cfg: Config, r: Registration) returns (err: Option<Error>)
    ensures err == None <==> Accepts(cfg, r)
    ensures err.Some? ==> Fault(cfg, r, err.value)
  {
    hide ChannelFits, ChannelAccepted, ChannelFault, TemplateOf, Decides, HasId;
    var regChannels := RegisteredChannels(r);
    if cfg.settings.Some? {
      var unknown := FirstUnknown(cfg.settings.value, r.settings);
      if unknown.Some? {
        return Some(UnknownDeviceSetting(unknown.value));
      }
    }
    var i := 0;
    while i < |cfg.channels|
      invariant i <= |cfg.channels| && forall k | 0 <= k < i :: ChannelAccepted(cfg.channels[k], r)
    {
      var ch := cfg.channels[i];
      AcceptedByItsTemplate(ch, r);
      TemplateOfMeans(r, IdOf(ch));
      if IdOf(ch) !in regChannels {
        return Some(UnknownChannel(IdOf(ch)));
      }
      err := ValidateChannel(ch, regChannels[IdOf(ch)]);
      if err.Some? {
        FaultOfChannel(cfg, r, ch, err.value);
        return;
      }
      i := i + 1;
    }
    err := None;
  }

  lemma FaultOfChannel(cfg: Config, r: Registration, ch: Channel, e: Error)
    requires ch in cfg.channels && TemplateOf(r.templates, r.assignments, IdOf(ch)).Some?
    requires ChannelFault(ch, r.templates[TemplateOf(r.templates, r.assignments, IdOf(ch)).value], e)
    ensures Fault(cfg, r, e)
  {
  }

  /** Every channel and setting id of an accepted configuration belongs to the
      template the client picks for the channel. */
  lemma AcceptedFitsClient(cfg: Config, r: Registration, ch: Channel, e: Resolved)
    requires Accepts(cfg, r) && DistinctChannels(r.assignments)
    requires ch in cfg.channels && e in ClientList(r.templates, r.assignments) && e.channelId == IdOf(ch)
    ensures ChannelFits(ch, e.template)
  {
    AcceptedByItsTemplate(ch, r);
    DistinctEntries(r.templates, r.assignments);
    HostAndClientAgree(r.templates, r.assignments, IdOf(ch));
    var list := ClientList(r.templates, r.assignments);
    var i :| 0 <= i < |list| && list[i] == e;
    assert LastEntry(list, IdOf(ch), i);
  }

  lemma AcceptedIsListed(cfg: Config, r: Registration, ch: Channel)
    requires Accepts(cfg, r) && ch in cfg.channels
    ensures exists e :: e in ClientList(r.templates, r.assignments) && e.channelId == IdOf(ch)
  {
    AcceptedByItsTemplate(ch, r);
    HostAndClientAgree(r.templates, r.assignments, IdOf(ch));
    var list := ClientList(r.templates, r.assignments);
    var i :| LastEntry(list, IdOf(ch), i);
    assert list[i] in list;
  }
}
