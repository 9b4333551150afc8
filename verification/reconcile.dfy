/** The passes of master/server/ServerManager.kt that walk every server or
    template: one round of the monitor (`checkDeadServers`,
    `ensureMinDynamicServers`), the static launch and the start-up cleanup. */
module Reconcile {
  import opened Wrappers
  import opened AssocList
  import opened Model
  import opened RedisStore
  import opened RedisWrapper
  import opened Orchestrator
  import opened Sublist

  /** Line 235: no state, or neither running nor restarting. */
  predicate Dead(docker: Containers, containerId: string) {
    containerId !in docker || (!docker[containerId].running && !docker[containerId].restarting)
  }

  /** The GONE message the sweep publishes for a dead server. */
  function GoneMessage(s: Server): Message {
    Message(ServersChannel, ServerUpdateState(s, Gone))
  }

  /** Lines 235-242 for one listed server: a dead one is removed and announced. */
  function SweepOne(st: ServerStore, docker: Containers, s: Server): (r: ServerStore)
    ensures r.up == st.up
    ensures !Dead(docker, s.containerId) ==> r == st
    ensures Dead(docker, s.containerId) && st.up ==>
      r.servers == Without(st.servers, {s.internalId}) && r.published == st.published + [GoneMessage(s)]
  {
    if Dead(docker, s.containerId) then ChangeStateOf(RemoveServer(st, s.internalId).0, s, Gone).0 else st
  }

  /** The forEach of lines 233-243 over the listing taken at line 231. */
  function Sweep(st: ServerStore, docker: Containers, servers: seq<Server>): (r: ServerStore)
    ensures r.up == st.up
    ensures !st.up ==> r == st
    decreases |servers|
  {
    if servers == [] then st
    else Sweep(SweepOne(st, docker, servers[0]), docker, servers[1..])
  }

  /** The ids of the dead servers of a listing. */
  function DeadIds(docker: Containers, servers: seq<Server>): set<string> {
    set s | s in servers && Dead(docker, s.containerId) :: s.internalId
  }

  lemma DeadIdsCons(docker: Containers, servers: seq<Server>)
    requires servers != []
    ensures DeadIds(docker, servers) ==
      (if Dead(docker, servers[0].containerId) then {servers[0].internalId} else {}) + DeadIds(docker, servers[1..])
  {
    var s := servers[0];
    forall x | x in DeadIds(docker, servers)
      ensures x in (if Dead(docker, s.containerId) then {s.internalId} else {}) + DeadIds(docker, servers[1..])
    {
      var y :| y in servers && Dead(docker, y.containerId) && y.internalId == x;
      if y != s {
        assert y in servers[1..];
      }
    }
  }

  /** One GONE per dead server, in listing order. */
  function GoneMessages(docker: Containers, servers: seq<Server>): (ms: seq<Message>)
    ensures |ms| <= |servers|
    decreases |servers|
  {
    if servers == [] then []
    else
      (if Dead(docker, servers[0].containerId) then [GoneMessage(servers[0])] else [])
      + GoneMessages(docker, servers[1..])
  }

  /** `checkDeadServers` (lines 230-244). */
  function CheckDeadServers(m: Manager, docker: Containers): (r: Manager)
    ensures r == m.(store := r.store)
    ensures r.store.up == m.store.up
  {
    m.(store := Sweep(m.store, docker, GetAllServers(m.store)))
  }

  /** The sweep publishes the GONE messages of the dead servers, in order. */
  lemma {:induction false} SweepPublishes(st: ServerStore, docker: Containers, servers: seq<Server>)
    requires st.up
    ensures Sweep(st, docker, servers).published == st.published + GoneMessages(docker, servers)
    decreases |servers|
  {
    if servers != [] {
      var next := SweepOne(st, docker, servers[0]);
      var head := if Dead(docker, servers[0].containerId) then [GoneMessage(servers[0])] else [];
      var tail := GoneMessages(docker, servers[1..]);
      assert next.up && next.published == st.published + head;
      assert GoneMessages(docker, servers) == head + tail;
      assert Sweep(st, docker, servers) == Sweep(next, docker, servers[1..]);
      SweepPublishes(next, docker, servers[1..]);
      assert (st.published + head) + tail == st.published + (head + tail);
    }
  }

  /** The sweep removes the dead servers' keys, and nothing else. */
  lemma {:induction false} SweepRemoves(st: ServerStore, docker: Containers, servers: seq<Server>)
    requires st.up
    ensures Sweep(st, docker, servers).servers == Without(st.servers, DeadIds(docker, servers))
    decreases |servers|
  {
    if servers == [] {
      WithoutNone(st.servers);
      assert DeadIds(docker, servers) == {};
    } else {
      var s := servers[0];
      var rest := servers[1..];
      var here: set<string> := if Dead(docker, s.containerId) then {s.internalId} else {};
      var next := SweepOne(st, docker, s);
      assert Sweep(st, docker, servers) == Sweep(next, docker, rest);
      if !Dead(docker, s.containerId) {
        WithoutNone(st.servers);
      }
      assert next.servers == Without(st.servers, here);
      SweepRemoves(next, docker, rest);
      WithoutWithout(st.servers, here, DeadIds(docker, rest));
      DeadIdsCons(docker, servers);
    }
  }

  /** A sweep over servers none of which is dead changes nothing. */
  lemma {:induction false} SweepNoDead(st: ServerStore, docker: Containers, servers: seq<Server>)
    requires forall s :: s in servers ==> !Dead(docker, s.containerId)
    ensures Sweep(st, docker, servers) == st
    decreases |servers|
  {
    if servers != [] {
      assert servers[0] in servers;
      SweepNoDead(st, docker, servers[1..]);
    }
  }

  /** In a valid store, the pass removes exactly the entries holding a dead
      server; undecodable entries and live servers stay. */
  lemma CheckDeadRemovesExactlyDead(m: Manager, docker: Containers, e: Entry<string, Wire<Server>>)
    requires ValidManager(m) && m.store.up
    ensures e in CheckDeadServers(m, docker).store.servers <==>
      e in m.store.servers && !(e.value.Encoded? && Dead(docker, e.value.value.containerId))
    ensures CheckDeadServers(m, docker).store.published == m.store.published + GoneMessages(docker, GetAllServers(m.store))
  {
    var servers := GetAllServers(m.store);
    var ids := DeadIds(docker, servers);
    SweepRemoves(m.store, docker, servers);
    SweepPublishes(m.store, docker, servers);
    if e in m.store.servers {
      var i :| 0 <= i < |m.store.servers| && m.store.servers[i] == e;
      if e.value.Encoded? && Dead(docker, e.value.value.containerId) {
        assert Stored(m.store, e.value.value);
        assert e.key in ids;
      }
      if e.key in ids {
        var s :| s in servers && Dead(docker, s.containerId) && s.internalId == e.key;
        var j :| 0 <= j < |m.store.servers| && m.store.servers[j].value == Encoded(s);
        assert m.store.servers[j].key == e.key;
        assert i == j;
      }
    }
  }

  /** A second pass with unchanged container states finds nothing to do. */
  lemma CheckDeadIdempotent(m: Manager, docker: Containers)
    requires ValidManager(m)
    ensures CheckDeadServers(CheckDeadServers(m, docker), docker) == CheckDeadServers(m, docker)
  {
    var r := CheckDeadServers(m, docker);
    if m.store.up {
      forall s | s in GetAllServers(r.store)
        ensures !Dead(docker, s.containerId)
      {
        var i :| 0 <= i < |r.store.servers| && r.store.servers[i].value == Encoded(s);
        CheckDeadRemovesExactlyDead(m, docker, r.store.servers[i]);
      }
      SweepNoDead(r.store, docker, GetAllServers(r.store));
    }
  }

  /** The pass publishes at most one message per listed server. */
  lemma CheckDeadPublishesOnePerDead(m: Manager, docker: Containers)
    requires m.store.up
    ensures |CheckDeadServers(m, docker).store.published| <= |m.store.published| + |GetAllServers(m.store)|
  {
    SweepPublishes(m.store, docker, GetAllServers(m.store));
  }

  /** Line 252: servers of the template, by name, whose container reports running. */
  function Running(docker: Containers, servers: seq<Server>, name: string): (n: nat)
    ensures n <= |servers|
    decreases |servers|
  {
    if servers == [] then 0
    else
      var s := servers[0];
      (if s.template.name == name && s.containerId in docker && docker[s.containerId].running then 1 else 0)
      + Running(docker, servers[1..], name)
  }

  /** Lines 254-258: how many creations the template is short of its minimum. */
  function Deficit(t: Template, queue: map<Template, nat>, docker: Containers, servers: seq<Server>): (k: nat)
    requires t.dynamic.Some?
    ensures k > 0 <==> Running(docker, servers, t.name) + Count(queue, t, 0) < t.dynamic.value.minServers
    ensures k > 0 ==> k == t.dynamic.value.minServers - Running(docker, servers, t.name) - Count(queue, t, 0)
  {
    var short := t.dynamic.value.minServers - Running(docker, servers, t.name) - Count(queue, t, 0);
    if short > 0 then short else 0
  }

  /** The outcome of a pass: the manager, the `createServer` calls made in
      order, and the exception that ended the pass early, if any. */
  datatype Pass = Pass(manager: Manager, calls: seq<Template>, failure: Option<CreateError>)

  /** `repeat(k) { createServer(t, ServerData()) }`: an exception ends the loop. */
  function Repeat(m: Manager, env: Env, t: Template, k: nat): (p: Pass)
    ensures forall i :: 0 <= i < |p.calls| ==> p.calls[i] == t
    ensures p.failure.None? ==> |p.calls| == k
    ensures |p.calls| <= k
    ensures p.manager.store == m.store && p.manager.serverIds == m.serverIds
    ensures forall u :: u != t ==> Count(p.manager.queue, u, 0) == Count(m.queue, u, 0)
    ensures Count(p.manager.queue, t, 0) == Count(m.queue, t, 0) + |p.calls|
    decreases k
  {
    if k == 0 then Pass(m, [], None)
    else
      var c := CreateServer(m, env, t, EmptyServerData);
      if c.result.Failure? then Pass(c.manager, [t], Some(c.result.error))
      else
        var rest := Repeat(c.manager, env, t, k - 1);
        Pass(rest.manager, [t] + rest.calls, rest.failure)
  }

  predicate IsProxy(t: Template) {
    t.serverType == Proxy
  }

  predicate NotProxy(t: Template) {
    !IsProxy(t)
  }

  function Proxies(ts: seq<Template>): seq<Template> {
    Select(ts, IsProxy)
  }

  function NonProxies(ts: seq<Template>): seq<Template> {
    Select(ts, NotProxy)
  }

  function Dynamic(ts: seq<Template>): seq<Template> {
    Select(ts, t => !IsStatic(t))
  }

  function Static(ts: seq<Template>): seq<Template> {
    Select(ts, IsStatic)
  }

  /** No template occurs twice. */
  predicate Distinct(ts: seq<Template>) {
    forall i, j :: 0 <= i < j < |ts| ==> ts[i] != ts[j]
  }

  lemma DistinctTail(ts: seq<Template>)
    requires ts != [] && Distinct(ts)
    ensures Distinct(ts[1..]) && ts[0] !in ts[1..]
  {
    forall i, j | 0 <= i < j < |ts[1..]|
      ensures ts[1..][i] != ts[1..][j]
    {
      assert ts[1..][i] == ts[i + 1] && ts[1..][j] == ts[j + 1];
    }
  }

  /** Filtering keeps templates distinct. */
  lemma {:induction false} FilterDistinct(ts: seq<Template>, keep: Template -> bool)
    requires Distinct(ts)
    ensures Distinct(Select(ts, keep))
    decreases |ts|
  {
    if ts != [] {
      DistinctTail(ts);
      FilterDistinct(ts[1..], keep);
      var rest := Select(ts[1..], keep);
      var r := Select(ts, keep);
      if keep(ts[0]) {
        assert r == [ts[0]] + rest;
        forall i, j | 0 <= i < j < |r|
          ensures r[i] != r[j]
        {
          assert r[j] == rest[j - 1];
          if i > 0 {
            assert r[i] == rest[i - 1];
          } else {
            assert r[j] in ts[1..];
          }
        }
      }
    }
  }

  /** Filtering keeps a proxies-first order. */
  lemma {:induction false} FilterKeepsOrder(ts: seq<Template>, keep: Template -> bool)
    requires ProxiesLead(ts)
    ensures ProxiesLead(Select(ts, keep))
    decreases |ts|
  {
    if ts != [] {
      var r := Select(ts, keep);
      if !IsProxy(ts[0]) {
        forall i | 0 <= i < |r|
          ensures !IsProxy(r[i])
        {
          assert r[i] in r;
          var k :| 0 <= k < |ts| && ts[k] == r[i];
        }
      } else {
        ProxiesLeadTail(ts);
        FilterKeepsOrder(ts[1..], keep);
        var rest := Select(ts[1..], keep);
        if keep(ts[0]) {
          assert r == [ts[0]] + rest;
          forall i, j | 0 <= i < j < |r| && IsProxy(r[j])
            ensures IsProxy(r[i])
          {
            if i > 0 {
              assert r[i] == rest[i - 1] && r[j] == rest[j - 1];
            }
          }
        } else {
          assert r == rest;
        }
      }
    }
  }

  /** No proxy comes after a template that is not a proxy. */
  predicate ProxiesLead(ts: seq<Template>) {
    forall i, j :: 0 <= i < j < |ts| && IsProxy(ts[j]) ==> IsProxy(ts[i])
  }

  /** Dropping the head keeps a proxies-first order. */
  lemma ProxiesLeadTail(ts: seq<Template>)
    requires ts != [] && ProxiesLead(ts)
    ensures ProxiesLead(ts[1..])
  {
    forall i, j | 0 <= i < j < |ts[1..]| && IsProxy(ts[1..][j])
      ensures IsProxy(ts[1..][i])
    {
      assert ts[1..][i] == ts[i + 1] && ts[1..][j] == ts[j + 1];
    }
  }

  /** After a run of proxies, any proxies-first list stays proxies first. */
  lemma ProxiesLeadAfterProxies(a: seq<Template>, b: seq<Template>)
    requires forall i :: 0 <= i < |a| ==> IsProxy(a[i])
    requires ProxiesLead(b)
    ensures ProxiesLead(a + b)
  {
    forall i, j | 0 <= i < j < |a + b| && IsProxy((a + b)[j])
      ensures IsProxy((a + b)[i])
    {
      if i >= |a| {
        assert (a + b)[i] == b[i - |a|] && (a + b)[j] == b[j - |a|];
      }
    }
  }

  /** A proxies-first list headed by a non-proxy holds no proxy at all. */
  lemma NoProxyAfterNonProxy(ts: seq<Template>, t: Template)
    requires ts != [] && ProxiesLead(ts) && !IsProxy(ts[0])
    requires t in ts
    ensures !IsProxy(t)
  {
  }

  /** A list without proxies is trivially proxies first. */
  lemma NoProxiesLead(ts: seq<Template>)
    requires forall i :: 0 <= i < |ts| ==> !IsProxy(ts[i])
    ensures ProxiesLead(ts)
  {
  }

  /** The proxies in front of the other templates keep a proxies-first
      order. */
  lemma PartitionLeads(ts: seq<Template>)
    ensures ProxiesLead(Proxies(ts) + NonProxies(ts))
  {
    var p := Proxies(ts);
    var q := NonProxies(ts);
    forall i | 0 <= i < |p|
      ensures IsProxy(p[i])
    {
      assert p[i] in p;
    }
    forall i | 0 <= i < |q|
      ensures !IsProxy(q[i])
    {
      assert q[i] in q;
    }
    NoProxiesLead(q);
    ProxiesLeadAfterProxies(p, q);
  }

  /** The proxies in front of the other templates split, at the number of
      proxies, into the two selections. */
  lemma PartitionSelects(ts: seq<Template>)
    ensures var r := Proxies(ts) + NonProxies(ts);
      exists n :: 0 <= n <= |r| && IsSelection(ts, IsProxy, r[..n]) && IsSelection(ts, NotProxy, r[n..])
  {
    var p := Proxies(ts);
    var q := NonProxies(ts);
    SelectIsSelection(ts, IsProxy);
    SelectIsSelection(ts, NotProxy);
    assert (p + q)[..|p|] == p && (p + q)[|p|..] == q;
    assert IsSelection(ts, IsProxy, (p + q)[..|p|]) && IsSelection(ts, NotProxy, (p + q)[|p|..]);
  }

  /** `sortedByDescending { it.type == PROXY }`: a stable sort on a boolean
      key puts the proxies first, each group in its original order. */
  function ProxiesFirst(ts: seq<Template>): (r: seq<Template>)
    ensures forall t :: t in r <==> t in ts
    ensures multiset(r) == multiset(ts)
    ensures ProxiesLead(r)
    ensures exists n :: 0 <= n <= |r| && IsSelection(ts, IsProxy, r[..n]) && IsSelection(ts, NotProxy, r[n..])
  {
    PartitionLeads(ts);
    PartitionSelects(ts);
    SelectSplit(ts, IsProxy, NotProxy);
    assert multiset(Proxies(ts) + NonProxies(ts)) == multiset(Proxies(ts)) + multiset(NonProxies(ts));
    Proxies(ts) + NonProxies(ts)
  }

  /** The forEach of lines 250-262 over the templates still to visit. */
  function EnsureEach(m: Manager, env: Env, docker: Containers, servers: seq<Server>, ts: seq<Template>): (p: Pass)
    requires forall i :: 0 <= i < |ts| ==> !IsStatic(ts[i])
    ensures forall i :: 0 <= i < |p.calls| ==> p.calls[i] in ts
    ensures p.manager.store == m.store && p.manager.serverIds == m.serverIds
    decreases |ts|
  {
    if ts == [] then Pass(m, [], None)
    else
      var t := ts[0];
      assert !IsStatic(t);
      var k := Deficit(t, m.queue, docker, servers);
      var here := Repeat(m, env, t, k);
      if here.failure.Some? then here
      else
        var rest := EnsureEach(here.manager, env, docker, servers, ts[1..]);
        assert forall i :: 0 <= i < |rest.calls| ==> rest.calls[i] in ts by {
          forall i | 0 <= i < |rest.calls|
            ensures rest.calls[i] in ts
          {
            assert rest.calls[i] in ts[1..];
          }
        }
        Pass(rest.manager, here.calls + rest.calls, rest.failure)
  }

  /** `ensureMinDynamicServers` (lines 246-263). `templates` is the registry's
      `listTemplates()`. */
  function EnsureMinDynamicServers(m: Manager, env: Env, docker: Containers, templates: seq<Template>): (p: Pass)
    ensures forall i :: 0 <= i < |p.calls| ==> p.calls[i] in templates && !IsStatic(p.calls[i])
    ensures p.manager.store == m.store && p.manager.serverIds == m.serverIds
  {
    var order := Dynamic(ProxiesFirst(templates));
    assert forall i :: 0 <= i < |order| ==> !IsStatic(order[i]) by {
      forall i | 0 <= i < |order|
        ensures !IsStatic(order[i])
      {
        assert order[i] in order;
      }
    }
    var p := EnsureEach(m, env, docker, GetAllServers(m.store), order);
    assert forall i :: 0 <= i < |p.calls| ==> p.calls[i] in order;
    p
  }

  /** How often `t` occurs in a call log. */
  function Occurrences(calls: seq<Template>, t: Template): nat
    decreases |calls|
  {
    if calls == [] then 0 else (if calls[0] == t then 1 else 0) + Occurrences(calls[1..], t)
  }

  lemma {:induction false} OccurrencesAppend(a: seq<Template>, b: seq<Template>, t: Template)
    ensures Occurrences(a + b, t) == Occurrences(a, t) + Occurrences(b, t)
    decreases |a|
  {
    if a == [] {
      assert a + b == b;
    } else {
      assert (a + b)[1..] == a[1..] + b;
      OccurrencesAppend(a[1..], b, t);
    }
  }

  lemma {:induction false} OccurrencesAbsent(calls: seq<Template>, t: Template)
    requires forall i :: 0 <= i < |calls| ==> calls[i] != t
    ensures Occurrences(calls, t) == 0
    decreases |calls|
  {
    if calls != [] {
      OccurrencesAbsent(calls[1..], t);
    }
  }

  lemma {:induction false} OccurrencesAll(calls: seq<Template>, t: Template)
    requires forall i :: 0 <= i < |calls| ==> calls[i] == t
    ensures Occurrences(calls, t) == |calls|
    decreases |calls|
  {
    if calls != [] {
      OccurrencesAll(calls[1..], t);
    }
  }

  /** A pass that runs to the end calls `createServer` for each visited
      template exactly as often as it was short at the start of the pass,
      provided the templates are distinct. */
  lemma {:induction false} EnsureEachCalls(m: Manager, env: Env, docker: Containers, servers: seq<Server>, ts: seq<Template>, t: Template)
    requires forall i :: 0 <= i < |ts| ==> !IsStatic(ts[i])
    requires Distinct(ts)
    requires EnsureEach(m, env, docker, servers, ts).failure.None?
    ensures t in ts ==> Occurrences(EnsureEach(m, env, docker, servers, ts).calls, t) == Deficit(t, m.queue, docker, servers)
    ensures t !in ts ==> Occurrences(EnsureEach(m, env, docker, servers, ts).calls, t) == 0
    decreases |ts|
  {
    if ts != [] {
      var u := ts[0];
      EnsureEachUnfold(m, env, docker, servers, ts);
      var here := Repeat(m, env, u, Deficit(u, m.queue, docker, servers));
      var rest := EnsureEach(here.manager, env, docker, servers, ts[1..]);
      DistinctTail(ts);
      EnsureEachCalls(here.manager, env, docker, servers, ts[1..], t);
      OccurrencesAppend(here.calls, rest.calls, t);
      if t == u {
        OccurrencesAll(here.calls, u);
      } else {
        OccurrencesAbsent(here.calls, t);
        if t in ts {
          assert t in ts[1..];
          DeficitFollowsCount(t, here.manager.queue, m.queue, docker, servers);
        }
      }
    }
  }

  /** A pass over a non-empty list that runs to the end: the head's loop
      runs to the end, then the pass over the tail does. */
  lemma EnsureEachUnfold(m: Manager, env: Env, docker: Containers, servers: seq<Server>, ts: seq<Template>)
    requires forall i :: 0 <= i < |ts| ==> !IsStatic(ts[i])
    requires ts != [] && EnsureEach(m, env, docker, servers, ts).failure.None?
    ensures Repeat(m, env, ts[0], Deficit(ts[0], m.queue, docker, servers)).failure.None?
    ensures
      var here := Repeat(m, env, ts[0], Deficit(ts[0], m.queue, docker, servers));
      EnsureEach(here.manager, env, docker, servers, ts[1..]).failure.None?
      && EnsureEach(m, env, docker, servers, ts).calls == here.calls + EnsureEach(here.manager, env, docker, servers, ts[1..]).calls
  {
    assert !IsStatic(ts[0]);
  }

  /** The deficit depends on the queue only through the template's count. */
  lemma DeficitFollowsCount(t: Template, q: map<Template, nat>, q': map<Template, nat>, docker: Containers, servers: seq<Server>)
    requires t.dynamic.Some? && Count(q, t, 0) == Count(q', t, 0)
    ensures Deficit(t, q, docker, servers) == Deficit(t, q', docker, servers)
  {
  }

  /** Sorting keeps distinct templates distinct. */
  lemma ProxiesFirstDistinct(ts: seq<Template>)
    requires Distinct(ts)
    ensures Distinct(ProxiesFirst(ts))
  {
    var p := Proxies(ts);
    var q := NonProxies(ts);
    FilterDistinct(ts, IsProxy);
    FilterDistinct(ts, NotProxy);
    var r := p + q;
    forall i, j | 0 <= i < j < |r|
      ensures r[i] != r[j]
    {
      if i < |p| && j >= |p| {
        assert r[i] in p && r[j] == q[j - |p|] && r[j] in q;
      } else if i >= |p| {
        assert r[i] == q[i - |p|] && r[j] == q[j - |p|];
      }
    }
  }

  /** A pass over distinct templates that runs to the end creates, for each
      dynamic template, exactly as many servers as it was short at the start
      of the pass, and none for any other template. */
  lemma EnsureMinCalls(m: Manager, env: Env, docker: Containers, templates: seq<Template>, t: Template)
    requires Distinct(templates)
    requires EnsureMinDynamicServers(m, env, docker, templates).failure.None?
    ensures t in templates && !IsStatic(t) ==>
      Occurrences(EnsureMinDynamicServers(m, env, docker, templates).calls, t) == Deficit(t, m.queue, docker, GetAllServers(m.store))
    ensures t !in templates || IsStatic(t) ==>
      Occurrences(EnsureMinDynamicServers(m, env, docker, templates).calls, t) == 0
  {
    var sorted := ProxiesFirst(templates);
    var order := Dynamic(sorted);
    assert forall i :: 0 <= i < |order| ==> !IsStatic(order[i]) by {
      forall i | 0 <= i < |order|
        ensures !IsStatic(order[i])
      {
        assert order[i] in order;
      }
    }
    ProxiesFirstDistinct(templates);
    FilterDistinct(sorted, u => !IsStatic(u));
    EnsureEachCalls(m, env, docker, GetAllServers(m.store), order, t);
  }

  /** Calls for proxies come before calls for any other template. */
  lemma {:induction false} EnsureEachOrder(m: Manager, env: Env, docker: Containers, servers: seq<Server>, ts: seq<Template>)
    requires forall i :: 0 <= i < |ts| ==> !IsStatic(ts[i])
    requires ProxiesLead(ts)
    ensures ProxiesLead(EnsureEach(m, env, docker, servers, ts).calls)
    decreases |ts|
  {
    if ts != [] {
      var u := ts[0];
      assert !IsStatic(u);
      var here := Repeat(m, env, u, Deficit(u, m.queue, docker, servers));
      var calls := EnsureEach(m, env, docker, servers, ts).calls;
      if !IsProxy(u) {
        forall i | 0 <= i < |calls|
          ensures !IsProxy(calls[i])
        {
          NoProxyAfterNonProxy(ts, calls[i]);
        }
        NoProxiesLead(calls);
      } else if here.failure.None? {
        var rest := EnsureEach(here.manager, env, docker, servers, ts[1..]);
        ProxiesLeadTail(ts);
        EnsureEachOrder(here.manager, env, docker, servers, ts[1..]);
        assert calls == here.calls + rest.calls;
        ProxiesLeadAfterProxies(here.calls, rest.calls);
      } else {
        ProxiesLeadAfterProxies(here.calls, []);
        assert here.calls + [] == here.calls;
      }
    }
  }

  /** The order of `EnsureMinDynamicServers`: calls for proxies come first. */
  lemma EnsureMinOrder(m: Manager, env: Env, docker: Containers, templates: seq<Template>)
    ensures ProxiesLead(EnsureMinDynamicServers(m, env, docker, templates).calls)
  {
    var sorted := ProxiesFirst(templates);
    var order := Dynamic(sorted);
    assert forall i :: 0 <= i < |order| ==> !IsStatic(order[i]) by {
      forall i | 0 <= i < |order|
        ensures !IsStatic(order[i])
      {
        assert order[i] in order;
      }
    }
    FilterKeepsOrder(sorted, t => !IsStatic(t));
    EnsureEachOrder(m, env, docker, GetAllServers(m.store), order);
  }

  /** `launchStaticServers` (lines 49-54): one creation per static template in
      registry order, with empty data; an exception ends the coroutine. */
  function LaunchEach(m: Manager, env: Env, ts: seq<Template>): (p: Pass)
    ensures p.failure.None? ==> p.calls == ts
    ensures p.failure.Some? ==> |p.calls| > 0 && p.calls <= ts
    ensures p.manager.store == m.store && p.manager.serverIds == m.serverIds
    decreases |ts|
  {
    if ts == [] then Pass(m, [], None)
    else
      var c := CreateServer(m, env, ts[0], EmptyServerData);
      if c.result.Failure? then Pass(c.manager, [ts[0]], Some(c.result.error))
      else
        var rest := LaunchEach(c.manager, env, ts[1..]);
        assert [ts[0]] + ts[1..] == ts;
        Pass(rest.manager, [ts[0]] + rest.calls, rest.failure)
  }

  function LaunchStaticServers(m: Manager, env: Env, templates: seq<Template>): (p: Pass)
    ensures forall i :: 0 <= i < |p.calls| ==> p.calls[i] in templates && IsStatic(p.calls[i])
    ensures p.failure.None? ==> p.calls == Static(templates)
  {
    var p := LaunchEach(m, env, Static(templates));
    assert forall i :: 0 <= i < |p.calls| ==> p.calls[i] in Static(templates) by {
      forall i | 0 <= i < |p.calls|
        ensures p.calls[i] in Static(templates)
      {
        assert p.calls <= Static(templates);
        assert p.calls[i] == Static(templates)[i];
      }
    }
    p
  }

  /** Lines 59-84 for one listed container: a blocking stop if it runs, and
      GONE if a record names it. */
  function CleanupOne(m: Manager, docker: Containers, containerId: string): (r: Manager)
    ensures r.store.servers == m.store.servers && r.store.up == m.store.up
    ensures r.queue == m.queue && r.serverIds == m.serverIds && r.minted == m.minted
    ensures r.requests == m.requests + (if containerId in docker && docker[containerId].running then [StopBlocking(containerId)] else [])
    ensures m.store.up ==> r.store.published == m.store.published + GoneFor(m.store, containerId)
  {
    var stopped := if containerId in docker && docker[containerId].running
      then m.(requests := m.requests + [StopBlocking(containerId)])
      else m;
    match GetServerByContainer(stopped.store, containerId)
    case None => stopped
    case Some(server) => stopped.(store := ChangeStateOf(stopped.store, server, Gone).0)
  }

  /** `cleanupCurrent` (lines 56-86) over the containers Docker lists. The
      records themselves stay in the store. */
  function CleanupCurrent(m: Manager, docker: Containers, containers: seq<string>): (r: Manager)
    ensures r.store.servers == m.store.servers && r.store.up == m.store.up
    ensures r.queue == m.queue && r.serverIds == m.serverIds && r.minted == m.minted
    ensures m.requests <= r.requests && |r.requests| <= |m.requests| + |containers|
    ensures forall i :: |m.requests| <= i < |r.requests| ==>
      r.requests[i].StopBlocking? && r.requests[i].containerId in containers
    decreases |containers|
  {
    if containers == [] then m
    else
      var next := CleanupOne(m, docker, containers[0]);
      var r := CleanupCurrent(next, docker, containers[1..]);
      assert forall i :: |m.requests| <= i < |r.requests| ==>
        r.requests[i].StopBlocking? && r.requests[i].containerId in containers by {
        forall i | |m.requests| <= i < |r.requests|
          ensures r.requests[i].StopBlocking? && r.requests[i].containerId in containers
        {
          if i >= |next.requests| {
            assert r.requests[i].containerId in containers[1..];
          } else {
            assert next.requests[i] == StopBlocking(containers[0]);
          }
        }
      }
      r
  }

  /** The GONE a container gets if a record names it. */
  function GoneFor(st: ServerStore, containerId: string): seq<Message> {
    match GetServerByContainer(st, containerId)
    case None => []
    case Some(server) => [Message(ServersChannel, ServerUpdateState(server, Gone))]
  }

  /** The containers that get a GONE, in listing order. */
  function GoneForContainers(st: ServerStore, containers: seq<string>): seq<Message>
    decreases |containers|
  {
    if containers == [] then [] else GoneFor(st, containers[0]) + GoneForContainers(st, containers[1..])
  }

  /** The cleanup announces every listed container a record names, in order. */
  lemma {:induction false} CleanupPublishes(m: Manager, docker: Containers, containers: seq<string>)
    requires m.store.up
    ensures CleanupCurrent(m, docker, containers).store.published == m.store.published + GoneForContainers(m.store, containers)
    decreases |containers|
  {
    if containers != [] {
      var next := CleanupOne(m, docker, containers[0]);
      var head := GoneFor(m.store, containers[0]);
      var tail := GoneForContainers(m.store, containers[1..]);
      assert next.store.up && next.store.published == m.store.published + head;
      assert GoneForContainers(m.store, containers) == head + tail;
      assert CleanupCurrent(m, docker, containers) == CleanupCurrent(next, docker, containers[1..]);
      GoneForStoreOnly(next.store, m.store, containers[1..]);
      CleanupPublishes(next, docker, containers[1..]);
      assert (m.store.published + head) + tail == m.store.published + (head + tail);
    }
  }

  /** The GONE list depends on the stored servers only. */
  lemma {:induction false} GoneForStoreOnly(a: ServerStore, b: ServerStore, containers: seq<string>)
    requires a.servers == b.servers && a.up == b.up
    ensures GoneForContainers(a, containers) == GoneForContainers(b, containers)
    decreases |containers|
  {
    if containers != [] {
      GoneForStoreOnly(a, b, containers[1..]);
    }
  }

  /** `clearState` (lines 43-47): both maps emptied, then the cleanup. */
  function ClearState(m: Manager, docker: Containers, containers: seq<string>): (r: Manager)
    ensures r.queue == map[] && r.serverIds == map[]
    ensures r.store.servers == m.store.servers
  {
    CleanupCurrent(m.(queue := map[], serverIds := map[]), docker, containers)
  }

  /** `startup` (lines 34-40) without the monitor loop: clear, launch the
      static servers, announce that the cloud has started. */
  function Startup(m: Manager, env: Env, docker: Containers, containers: seq<string>, templates: seq<Template>): (p: Pass)
    ensures forall i :: 0 <= i < |p.calls| ==> IsStatic(p.calls[i])
    ensures p.failure.None? ==> p.calls == Static(templates)
    ensures p.manager.serverIds == map[]
    ensures p.manager.store.up ==> (|p.manager.store.published| > 0
      && p.manager.store.published[|p.manager.store.published| - 1] == Message(CloudChannel, CloudStarted))
  {
    var cleared := ClearState(m, docker, containers);
    var launched := LaunchStaticServers(cleared, env, templates);
    var announced := Emit(launched.manager.store, CloudChannel, CloudStarted).0;
    Pass(launched.manager.(store := announced), launched.calls, launched.failure)
  }
}
