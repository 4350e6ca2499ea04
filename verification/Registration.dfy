/** Device registrations: channel templates, their assignment to channels, and re-registration. */
module Registration {
  import opened Option

  // `details` stands for everything about a setting or a profile but its id.
  datatype Item = Item(id: string, details: int)
  datatype Template = Template(id: string, name: string, channelType: string, settings: seq<Item>, profiles: seq<Item>,
      protocols: seq<string>)
  datatype Assignment = Assignment(channelId: string, templateId: string)

  // `legacyChannels` are the ids of the flat channel list of an older form, which only the host still looks at.
  datatype Registration = Registration(
    version: string, templates: seq<Template>, assignments: seq<Assignment>, settings: seq<Item>,
        legacyChannels: seq<string>)

  predicate HasId(items: seq<Item>, id: string) {
    exists i :: 0 <= i < |items| && items[i].id == id
  }

  // ----- which template a channel has -----

  // The last template with an id wins.
  function TemplateIndex(templates: seq<Template>, id: string): (t: Option<nat>)
    ensures t.Some? ==> t.value < |templates|
  {
    if templates == [] then None
    else if templates[|templates| - 1].id == id then Some(|templates| - 1)
    else TemplateIndex(templates[..|templates| - 1], id)
  }

  // The template of the last assignment of a channel that names a known template.
  function TemplateOf(templates: seq<Template>, assignments: seq<Assignment>, channelId: string): (t: Option<nat>)
    ensures t.Some? ==> t.value < |templates|
  {
    if assignments == [] then None
    else
      var a := assignments[|assignments| - 1];
      if a.channelId == channelId && TemplateIndex(templates, a.templateId).Some?
          then TemplateIndex(templates, a.templateId)
      else TemplateOf(templates, assignments[..|assignments| - 1], channelId)
  }

  lemma TemplateIndexIsLast(templates: seq<Template>, id: string)
    ensures
      match TemplateIndex(templates, id)
      case Some(t) => templates[t].id == id && forall u | t < u < |templates| :: templates[u].id != id
      case None => forall u | 0 <= u < |templates| :: templates[u].id != id
  {
  }

  predicate Known(templates: seq<Template>, id: string) {
    exists t :: 0 <= t < |templates| && templates[t].id == id
  }

  // The j-th assignment decides the channel's template: no later one of the channel names a known template.
  ghost predicate Decides(r: Registration, channelId: string, j: int) {
    && 0 <= j < |r.assignments| && r.assignments[j].channelId == channelId
        && Known(r.templates, r.assignments[j].templateId)
    && forall k | j < k < |r.assignments| && r.assignments[k].channelId == channelId ::
        !Known(r.templates, r.assignments[k].templateId)
  }

  /** A channel has a template exactly when some assignment of it names a known one;
      it is then the last template with the id in the last such assignment. */
  lemma {:induction false} TemplateOfMeans(r: Registration, channelId: string)
    ensures
      var t := TemplateOf(r.templates, r.assignments, channelId);
      && (t.Some? <==> exists j :: Decides(r, channelId, j))
      && (t.Some? ==> forall j | Decides(r, channelId, j) ::
            && r.templates[t.value].id == r.assignments[j].templateId
            && forall u | t.value < u < |r.templates| :: r.templates[u].id != r.assignments[j].templateId)
    decreases |r.assignments|
  {
    if r.assignments != [] {
      var n := |r.assignments| - 1;
      var a := r.assignments[n];
      var q := r.(assignments := r.assignments[..n]);
      TemplateIndexIsLast(r.templates, a.templateId);
      if a.channelId == channelId && TemplateIndex(r.templates, a.templateId).Some? {
        assert Known(r.templates, a.templateId);
        assert Decides(r, channelId, n);
      } else {
        assert a.channelId == channelId ==> !Known(r.templates, a.templateId);
        TemplateOfMeans(q, channelId);
        forall j ensures Decides(r, channelId, j) <==> Decides(q, channelId, j) {
          DecidesWithoutLast(r, channelId, j);
        }
      }
    }
  }

  lemma DecidesWithoutLast(r: Registration, channelId: string, j: int)
    requires r.assignments != []
    requires
      var a := r.assignments[|r.assignments| - 1];
      a.channelId == channelId ==> !Known(r.templates, a.templateId)
    ensures Decides(r, channelId, j) <==> Decides(r.(assignments := r.assignments[..|r.assignments| - 1]), channelId, j)
  {
    var q := r.(assignments := r.assignments[..|r.assignments| - 1]);
    assert forall k | 0 <= k < |q.assignments| :: q.assignments[k] == r.assignments[k];
  }

  // Both sides fill a map from template id to template in order.
  method IndexTemplates(templates: seq<Template>) returns (m: map<string, Template>)
    ensures forall id: string ::
      if TemplateIndex(templates, id).Some? then id in m
          && m[id] == templates[TemplateIndex(templates, id).value] else id !in m
  {
    m := map[];
    var i := 0;
    while i < |templates|
      invariant i <= |templates|
      invariant forall id: string ::
        var t := TemplateIndex(templates[..i], id);
        if t.Some? then id in m && m[id] == templates[t.value] else id !in m
    {
      assert templates[..i + 1][..i] == templates[..i];
      m := m[templates[i].id := templates[i]];
      i := i + 1;
    }
    assert templates[..i] == templates;
  }

  /** The host's view: a map from channel to template, later assignments overriding earlier ones. */
  method RegisteredChannels(r: Registration) returns (m: map<string, Template>)
    ensures forall c: string ::
      var t := TemplateOf(r.templates, r.assignments, c);
      if t.Some? then c in m && m[c] == r.templates[t.value] else c !in m
  {
    var byId := IndexTemplates(r.templates);
    m := map[];
    var i := 0;
    while i < |r.assignments|
      invariant i <= |r.assignments|
      invariant forall c: string ::
        var t := TemplateOf(r.templates, r.assignments[..i], c);
        if t.Some? then c in m && m[c] == r.templates[t.value] else c !in m
    {
      assert r.assignments[..i + 1][..i] == r.assignments[..i];
      var a := r.assignments[i];
      if a.templateId in byId {
        m := m[a.channelId := byId[a.templateId]];
      }
      i := i + 1;
    }
    assert r.assignments[..i] == r.assignments;
  }

  // ----- the client's view -----

  datatype Resolved = Resolved(channelId: string, template: Template)

  // One entry per assignment of a known template, in assignment order.
  function ClientList(templates: seq<Template>, assignments: seq<Assignment>): seq<Resolved> {
    if assignments == [] then []
    else
      var a := assignments[|assignments| - 1];
      var t := TemplateIndex(templates, a.templateId);
      ClientList(templates, assignments[..|assignments| - 1])
      + if t.Some? then [Resolved(a.channelId, templates[t.value])] else []
  }

  /** One entry per assignment of a known template, in the order of the assignments, with the last template
      of the id. */
  lemma {:induction false} ListedInOrder(templates: seq<Template>, a: seq<Assignment>, b: seq<Assignment>)
    ensures ClientList(templates, a + b) == ClientList(templates, a) + ClientList(templates, b)
    ensures |a| == 1 && !Known(templates, a[0].templateId) ==> ClientList(templates, a) == []
    ensures |a| == 1 ==> forall t | 0 <= t < |templates| && templates[t].id == a[0].templateId
      && (forall u | t < u < |templates| :: templates[u].id != a[0].templateId) ::
      ClientList(templates, a) == [Resolved(a[0].channelId, templates[t])]
  {
    if b == [] {
      assert a + b == a;
    } else {
      var n := |b| - 1;
      assert (a + b)[..|a + b| - 1] == a + b[..n];
      ListedInOrder(templates, a, b[..n]);
    }
    if |a| == 1 {
      assert a[..0] == [] && ClientList(templates, []) == [];
      TemplateIndexIsLast(templates, a[0].templateId);
    }
  }

  method ResolveChannels(r: Registration) returns (result: seq<Resolved>)
    ensures result == ClientList(r.templates, r.assignments)
  {
    var byId := IndexTemplates(r.templates);
    result := [];
    var i := 0;
    while i < |r.assignments|
      invariant i <= |r.assignments| && result == ClientList(r.templates, r.assignments[..i])
    {
      assert r.assignments[..i + 1][..i] == r.assignments[..i];
      var a := r.assignments[i];
      if a.templateId in byId {
        result := result + [Resolved(a.channelId, byId[a.templateId])];
      }
      i := i + 1;
    }
    assert r.assignments[..i] == r.assignments;
  }

  // The position of the last entry for a channel.
  ghost predicate LastEntry(list: seq<Resolved>, channelId: string, i: int) {
    0 <= i < |list| && list[i].channelId == channelId && forall k | i < k < |list| :: list[k].channelId != channelId
  }

  /** Host and client agree, whatever ids repeat: the host's template for a channel is that of
      the channel's last entry in the client's list, and the host knows exactly the channels listed. */
  lemma {:induction false} HostAndClientAgree(templates: seq<Template>, assignments: seq<Assignment>, channelId: string)
    ensures TemplateOf(templates, assignments, channelId).Some? ==>
      exists i :: LastEntry(ClientList(templates, assignments), channelId, i)
    ensures forall i | LastEntry(ClientList(templates, assignments), channelId, i) ::
      var t := TemplateOf(templates, assignments, channelId);
      t.Some? && ClientList(templates, assignments)[i].template == templates[t.value]
  {
    if assignments != [] {
      var n := |assignments| - 1;
      var a := assignments[n];
      HostAndClientAgree(templates, assignments[..n], channelId);
      var before, list := ClientList(templates, assignments[..n]), ClientList(templates, assignments);
      var t := TemplateIndex(templates, a.templateId);
      if t.Some? {
        assert list == before + [Resolved(a.channelId, templates[t.value])];
        LastEntryAppend(before, Resolved(a.channelId, templates[t.value]), channelId);
        if a.channelId == channelId {
          assert LastEntry(list, channelId, |before|);
        } else if i :| LastEntry(before, channelId, i) {
          assert LastEntry(list, channelId, i);
        }
      } else {
        assert list == before;
      }
    }
  }

  lemma LastEntryAppend(before: seq<Resolved>, e: Resolved, channelId: string)
    ensures forall i :: LastEntry(before + [e], channelId, i) <==>
      if e.channelId == channelId then i == |before| else LastEntry(before, channelId, i)
  {
    var list := before + [e];
    assert list[|before|] == e;
    assert forall k | 0 <= k < |before| :: list[k] == before[k];
  }

  ghost predicate DistinctChannels(assignments: seq<Assignment>) {
    forall i, j | 0 <= i < j < |assignments| :: assignments[i].channelId != assignments[j].channelId
  }

  predicate Mentions(assignments: seq<Assignment>, channelId: string) {
    exists k :: 0 <= k < |assignments| && assignments[k].channelId == channelId
  }

  // With distinct assignments every channel has one entry.
  lemma {:induction false} DistinctEntries(templates: seq<Template>, assignments: seq<Assignment>)
    requires DistinctChannels(assignments)
    ensures forall e | e in ClientList(templates, assignments) :: Mentions(assignments, e.channelId)
    ensures forall i, j | 0 <= i < j < |ClientList(templates, assignments)| ::
      ClientList(templates, assignments)[i].channelId != ClientList(templates, assignments)[j].channelId
  {
    if assignments != [] {
      var n := |assignments| - 1;
      var a := assignments[n];
      DistinctEntries(templates, assignments[..n]);
      var before, list := ClientList(templates, assignments[..n]), ClientList(templates, assignments);
      var t := TemplateIndex(templates, a.templateId);
      assert list == before + if t.Some? then [Resolved(a.channelId, templates[t.value])] else [];
      forall e | e in before ensures Mentions(assignments, e.channelId) && e.channelId != a.channelId {
        assert Mentions(assignments[..n], e.channelId);
        var k :| 0 <= k < n && assignments[..n][k].channelId == e.channelId;
        assert assignments[k].channelId == e.channelId;
      }
      if t.Some? {
        assert assignments[n].channelId == a.channelId;
        assert Mentions(assignments, a.channelId);
      }
    }
  }
}
