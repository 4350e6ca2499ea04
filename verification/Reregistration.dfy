/** Re-registration while connected: only the profiles of the templates may change. */
module Reregistration {
  import opened Option
  import opened Wire
  import opened Registration
  import opened Validation

  datatype Change = NoCurrent | Assignments | DeviceSettings | TemplateCount | TemplateId(i: nat) | ChannelType(i: nat)
      | TemplateSettings(i: nat) | Protocols(i: nat)

  predicate SameTemplate(a: Template, b: Template) {
    a.id == b.id && a.channelType == b.channelType && a.settings == b.settings && a.protocols == b.protocols
  }

  // Equal up to profiles, display names and the declared version.
  ghost predicate SameButProfiles(a: Registration, b: Registration) {
    && a.assignments == b.assignments && a.settings == b.settings
    && |a.templates| == |b.templates|
    && forall i | 0 <= i < |a.templates| :: SameTemplate(a.templates[i], b.templates[i])
  }

  // The old template with the new one's name and profiles is the new one.
  ghost predicate OnlyProfiles(a: Registration, b: Registration) {
    && b == a.(version := b.version, templates := b.templates, legacyChannels := b.legacyChannels)
    && |a.templates| == |b.templates|
    && forall i | 0 <= i < |a.templates| ::
      b.templates[i] == a.templates[i].(name := b.templates[i].name, profiles := b.templates[i].profiles)
  }

  lemma OnlyProfilesDiffer(a: Registration, b: Registration)
    ensures SameButProfiles(a, b) <==> OnlyProfiles(a, b)
  {
    if SameButProfiles(a, b) {
      forall i | 0 <= i < |a.templates|
        ensures b.templates[i] == a.templates[i].(name := b.templates[i].name, profiles := b.templates[i].profiles)
      {
        assert SameTemplate(a.templates[i], b.templates[i]);
      }
    }
    if OnlyProfiles(a, b) {
      forall i | 0 <= i < |a.templates| ensures SameTemplate(a.templates[i], b.templates[i]) {
        assert b.templates[i] == a.templates[i].(name := b.templates[i].name, profiles := b.templates[i].profiles);
      }
    }
  }

  method ValidateProfilesOnlyChange(cur: Option<Registration>, next: Registration) returns (change: Option<Change>)
    ensures change == None <==> cur.Some? && SameButProfiles(cur.value, next)
    ensures change == None <==> cur.Some? && OnlyProfiles(cur.value, next)
  {
    if cur.Some? {
      OnlyProfilesDiffer(cur.value, next);
    }
    hide OnlyProfiles;
    if cur == None {
      return Some(NoCurrent);
    }
    var c := cur.value;
    if c.assignments != next.assignments {
      return Some(Assignments);
    }
    if c.settings != next.settings {
      return Some(DeviceSettings);
    }
    if |c.templates| != |next.templates| {
      return Some(TemplateCount);
    }
    var i := 0;
    while i < |c.templates|
      invariant i <= |c.templates| && forall k | 0 <= k < i :: SameTemplate(c.templates[k], next.templates[k])
    {
      var ct, nt := c.templates[i], next.templates[i];
      if ct.id != nt.id {
        return Some(TemplateId(i));
      }
      if ct.channelType != nt.channelType {
        return Some(ChannelType(i));
      }
      if ct.settings != nt.settings {
        return Some(TemplateSettings(i));
      }
      if ct.protocols != nt.protocols {
        return Some(Protocols(i));
      }
      i := i + 1;
    }
    change := None;
  }

  // The registration after each of a sequence of Register calls, accepted or not.
  ghost function After(current: Registration, calls: seq<Registration>): Registration {
    if calls == [] then current
    else
      var before := After(current, calls[..|calls| - 1]);
      var next := calls[|calls| - 1];
      if SameButProfiles(before, next) then next else before
  }

  ghost predicate NamesNoProfile(cfg: Config) {
    forall ch: Channel | ch in cfg.channels :: Get(ch, "channelSettings").Settings? ==>
        ch["channelSettings"].profile == None
  }

  lemma SameTemplatesResolveAlike(a: seq<Template>, b: seq<Template>, assignments: seq<Assignment>, channelId: string)
    requires |a| == |b| && forall i | 0 <= i < |a| :: SameTemplate(a[i], b[i])
    ensures TemplateOf(a, assignments, channelId) == TemplateOf(b, assignments, channelId)
  {
    if assignments != [] {
      SameTemplatesIndexAlike(a, b, assignments[|assignments| - 1].templateId);
      SameTemplatesResolveAlike(a, b, assignments[..|assignments| - 1], channelId);
    }
  }

  lemma SameTemplatesIndexAlike(a: seq<Template>, b: seq<Template>, id: string)
    requires |a| == |b| && forall i | 0 <= i < |a| :: SameTemplate(a[i], b[i])
    ensures TemplateIndex(a, id) == TemplateIndex(b, id)
  {
    if a != [] {
      assert SameTemplate(a[|a| - 1], b[|a| - 1]);
      SameTemplatesIndexAlike(a[..|a| - 1], b[..|b| - 1], id);
    }
  }

  lemma SameVerdict(a: Registration, b: Registration, cfg: Config)
    requires SameButProfiles(a, b) && NamesNoProfile(cfg)
    ensures Accepts(cfg, a) <==> Accepts(cfg, b)
  {
    forall i | 0 <= i < |cfg.channels|
      ensures ChannelAccepted(cfg.channels[i], a) <==> ChannelAccepted(cfg.channels[i], b)
    {
      var ch := cfg.channels[i];
      AcceptedByItsTemplate(ch, a);
      AcceptedByItsTemplate(ch, b);
      SameTemplatesResolveAlike(a.templates, b.templates, a.assignments, IdOf(ch));
      var t := TemplateOf(a.templates, a.assignments, IdOf(ch));
      if t.Some? {
        assert SameTemplate(a.templates[t.value], b.templates[t.value]);
        FitsAlike(ch, a.templates[t.value], b.templates[t.value]);
      }
    }
  }

  lemma FitsAlike(ch: Channel, a: Template, b: Template)
    requires SameTemplate(a, b)
    requires Get(ch, "channelSettings").Settings? ==> ch["channelSettings"].profile == None
    ensures ChannelFits(ch, a) <==> ChannelFits(ch, b)
  {
  }

  /** After any sequence of Register calls everything but the profiles is as at connect,
      so a configuration that names no profile gets the same verdict as at connect. */
  lemma {:induction false} RegistrationsStayCompatible(first: Registration, calls: seq<Registration>, cfg: Config)
    ensures SameButProfiles(first, After(first, calls))
    ensures NamesNoProfile(cfg) ==> (Accepts(cfg, first) <==> Accepts(cfg, After(first, calls)))
  {
    if calls != [] {
      RegistrationsStayCompatible(first, calls[..|calls| - 1], cfg);
      var before, last := After(first, calls[..|calls| - 1]), After(first, calls);
      forall i | 0 <= i < |first.templates| ensures SameTemplate(first.templates[i], last.templates[i]) {
        assert SameTemplate(first.templates[i], before.templates[i]);
      }
    }
    if NamesNoProfile(cfg) {
      SameVerdict(first, After(first, calls), cfg);
    }
  }
}
