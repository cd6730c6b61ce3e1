/** Public tags in the Consul agent: consul/consul_service.go, and `SetServiceVisibility` of app/tap/broker_api.go. */
module Consul {
  import opened Decimal
  import opened Cluster

  const PUBLIC := "Public"

  datatype AgentService = AgentService(name: string, port: int, address: string, tags: seq<string>, tagOverride: bool)
  type Services = map<string, AgentService>

  datatype Param = Param(name: string, public: bool, port: int)

  function Others(tags: seq<string>): seq<string> {
    if tags == [] then []
    else Others(tags[..|tags|-1]) + (if tags[|tags|-1] == PUBLIC then [] else [tags[|tags|-1]])
  }

  function Tagged(s: AgentService, public: bool): AgentService {
    s.(tags := Others(s.tags) + (if public then [PUBLIC] else []), tagOverride := true)
  }

  predicate Matches(s: AgentService, p: Param) {
    s.name == p.name && s.port == p.port
  }

  predicate Found(services: Services, p: Param) {
    exists id :: id in services && Matches(services[id], p)
  }

  /** The agent has each pair of name and port once. */
  predicate UniqueServices(services: Services) {
    forall i, j :: i in services && j in services && i != j ==>
      services[i].name != services[j].name || services[i].port != services[j].port
  }

  /** The visibility that a list of parameters gives to a service: that of the last one that names it. */
  function LastFor(s: AgentService, ps: seq<Param>): Option<bool> {
    if ps == [] then None
    else if Matches(s, ps[|ps|-1]) then Some(ps[|ps|-1].public)
    else LastFor(s, ps[..|ps|-1])
  }

  /** The first parameter that names no service, or the length of the list. */
  function FirstMissing(services: Services, ps: seq<Param>): (n: nat)
    ensures n <= |ps|
  {
    if ps == [] then 0
    else
      var n := FirstMissing(services, ps[..|ps|-1]);
      if n < |ps| - 1 then n
      else if Found(services, ps[|ps|-1]) then |ps| else n
  }

  /** Every named service re-registered with its tags, all at once; the others as they were. */
  function TaggedAll(services: Services, ps: seq<Param>): Services {
    map id | id in services ::
      if LastFor(services[id], ps).Some? then Tagged(services[id], LastFor(services[id], ps).value) else services[id]
  }

  lemma OthersOfOne(t: string)
    ensures Others([t]) == if t == "Public" then [] else [t]
  {
    assert [t][..0] == [];
    assert Others([t]) == Others([t][..0]) + (if t == "Public" then [] else [t]);
  }

  /** List by list: only the public tag goes. */
  lemma {:induction false} OthersConcat(a: seq<string>, b: seq<string>)
    ensures Others(a + b) == Others(a) + Others(b) && Others([]) == []
    ensures forall t :: Others([t]) == if t == "Public" then [] else [t]
  {
    forall t ensures Others([t]) == if t == "Public" then [] else [t] {
      OthersOfOne(t);
    }
    if b == [] {
      assert a + b == a;
    } else {
      assert (a + b)[..|a + b|-1] == a + b[..|b|-1];
      OthersConcat(a, b[..|b|-1]);
    }
  }

  lemma {:induction false} OthersAgain(tags: seq<string>)
    ensures Others(Others(tags)) == Others(tags) && PUBLIC !in Others(tags)
  {
    if tags != [] {
      var init, last := Others(tags[..|tags|-1]), tags[|tags|-1];
      OthersAgain(tags[..|tags|-1]);
      if last != PUBLIC {
        assert (init + [last])[..|init|] == init;
      } else {
        assert init + [] == init;
      }
    }
  }

  /**
   * A re-registered service has the public tag exactly once when visible and never otherwise; the others keep their
   * order.
   */
  lemma TagsOf(s: AgentService, public: bool)
    ensures var tags := Tagged(s, public).tags;
            && Others(tags) == Others(s.tags)
            && multiset(tags)["Public"] == (if public then 1 else 0)
            && (public ==> tags[|tags|-1] == "Public")
    ensures Tagged(s, public).name == s.name && Tagged(s, public).port == s.port
    ensures Tagged(s, public).address == s.address && Tagged(s, public).tagOverride
  {
    OthersAgain(s.tags);
    OthersPublic(Others(s.tags));
    assert Others(s.tags) + [] == Others(s.tags);
  }

  lemma OthersPublic(tags: seq<string>)
    requires PUBLIC !in tags && Others(tags) == tags
    ensures Others(tags + [PUBLIC]) == tags && multiset(tags + [PUBLIC])[PUBLIC] == 1
  {
    assert (tags + [PUBLIC])[..|tags|] == tags && tags + [] == tags;
  }

  /** Of two re-registrations the later counts. */
  lemma TaggedTwice(s: AgentService, first: bool, public: bool)
    ensures Tagged(Tagged(s, first), public) == Tagged(s, public)
  {
    TagsOf(s, first);
  }

  /** Only tags change, so that the same parameters name the same services. */
  lemma SameNames(services: Services, ps: seq<Param>)
    ensures var now := TaggedAll(services, ps);
            && now.Keys == services.Keys
            && (forall id :: id in services ==> now[id].name == services[id].name && now[id].port == services[id].port)
            && (UniqueServices(services) ==> UniqueServices(now))
            && forall p :: Found(now, p) <==> Found(services, p)
  {
    var now := TaggedAll(services, ps);
    forall p ensures Found(now, p) <==> Found(services, p) {
      if Found(now, p) {
        var id :| id in now && Matches(now[id], p);
        assert Matches(services[id], p);
      }
      if Found(services, p) {
        var id :| id in services && Matches(services[id], p);
        assert Matches(now[id], p);
      }
    }
  }

  /** Parameter `i` is the last with the service's name and port. */
  predicate LastNames(s: AgentService, ps: seq<Param>, i: int) {
    && 0 <= i < |ps| && ps[i].name == s.name && ps[i].port == s.port
    && forall j :: i < j < |ps| ==> ps[j].name != s.name || ps[j].port != s.port
  }

  /** A complete update: nobody comes or goes, and of each service the last parameter that names it decides. */
  lemma UpdateMeaning(before: Services, after: Services, ps: seq<Param>, id: string)
    requires Effect(before, after, ps, Updated) && id in before
    ensures after.Keys == before.Keys
    ensures forall i :: LastNames(before[id], ps, i) ==>
                          after[id] == before[id].(tags := after[id].tags, tagOverride := true) &&
                          after[id].tags == Others(before[id].tags) + if ps[i].public then ["Public"] else []
    ensures (forall i :: 0 <= i < |ps| ==> ps[i].name != before[id].name || ps[i].port != before[id].port) ==>
              after[id] == before[id]
  {
    LastForMeaning(before[id], ps);
  }

  /** The last parameter with the service's name and port decides; without one the service is left alone. */
  lemma {:induction false} LastForMeaning(s: AgentService, ps: seq<Param>)
    ensures LastFor(s, ps).None? <==> forall i :: 0 <= i < |ps| ==> ps[i].name != s.name || ps[i].port != s.port
    ensures forall i :: 0 <= i < |ps| && ps[i].name == s.name && ps[i].port == s.port &&
                        (forall j :: i < j < |ps| ==> ps[j].name != s.name || ps[j].port != s.port) ==>
                          LastFor(s, ps) == Some(ps[i].public)
  {
    if ps != [] {
      var n := |ps| - 1;
      LastForMeaning(s, ps[..n]);
      assert forall i :: 0 <= i < n ==> ps[..n][i] == ps[i];
    }
  }

  lemma {:induction false} LastForSame(s: AgentService, t: AgentService, ps: seq<Param>)
    requires s.name == t.name && s.port == t.port
    ensures LastFor(s, ps) == LastFor(t, ps)
  {
    if ps != [] {
      LastForSame(s, t, ps[..|ps|-1]);
    }
  }

  lemma {:induction false} LastForLonger(s: AgentService, ps: seq<Param>, qs: seq<Param>)
    requires ps <= qs && LastFor(s, ps).Some?
    ensures LastFor(s, qs).Some?
    decreases |qs|
  {
    if |ps| < |qs| {
      assert ps <= qs[..|qs|-1];
      LastForLonger(s, ps, qs[..|qs|-1]);
    } else {
      assert ps == qs;
    }
  }

  /** Setting tags for a list and then for a longer one is setting them for the longer one. */
  lemma TaggedLonger(services: Services, ps: seq<Param>, qs: seq<Param>)
    requires ps <= qs
    ensures TaggedAll(TaggedAll(services, ps), qs) == TaggedAll(services, qs)
  {
    var now := TaggedAll(services, ps);
    forall id | id in services ensures TaggedAll(now, qs)[id] == TaggedAll(services, qs)[id] {
      LastForSame(services[id], now[id], qs);
      if LastFor(services[id], ps).Some? {
        LastForLonger(services[id], ps, qs);
        TaggedTwice(services[id], LastFor(services[id], ps).value, LastFor(services[id], qs).value);
      }
    }
  }

  /** One parameter, on the services that the earlier ones left. */
  lemma TaggedOneMore(services: Services, ps: seq<Param>, p: Param, id: string)
    requires UniqueServices(services) && id in services && Matches(services[id], p)
    ensures var now := TaggedAll(services, ps);
            now[id := Tagged(now[id], p.public)] == TaggedAll(services, ps + [p])
  {
    var now, later := TaggedAll(services, ps), TaggedAll(services, ps + [p]);
    forall k | k in services ensures (if k == id then Tagged(now[id], p.public) else now[k]) == later[k] {
      assert (ps + [p])[..|ps|] == ps;
      if k == id && LastFor(services[id], ps).Some? {
        TaggedTwice(services[id], LastFor(services[id], ps).value, p.public);
      }
    }
  }

  lemma {:induction false} FirstMissingMeaning(services: Services, ps: seq<Param>)
    ensures var n := FirstMissing(services, ps);
            && (forall i :: 0 <= i < n ==> Found(services, ps[i]))
            && (n < |ps| ==> !Found(services, ps[n]))
  {
    if ps != [] {
      var init := ps[..|ps|-1];
      FirstMissingMeaning(services, init);
      assert forall i :: 0 <= i < |init| ==> init[i] == ps[i];
    }
  }

  /** It is the only such position. */
  lemma MissingAt(services: Services, ps: seq<Param>, n: nat)
    requires n <= |ps| && (forall i :: 0 <= i < n ==> Found(services, ps[i])) && (n < |ps| ==> !Found(services, ps[n]))
    ensures FirstMissing(services, ps) == n
  {
    FirstMissingMeaning(services, ps);
  }

  predicate AllPublic(ps: seq<Param>, public: bool) {
    forall i :: 0 <= i < |ps| ==> ps[i].public == public
  }

  lemma {:induction false} LastForPublic(s: AgentService, ps: seq<Param>, public: bool)
    requires AllPublic(ps, public)
    ensures LastFor(s, ps).Some? ==> LastFor(s, ps).value == public
  {
    if ps != [] {
      LastForPublic(s, ps[..|ps|-1], public);
    }
  }

  /** With one visibility for all: setting tags for a list again, or for a part of it, changes nothing more. */
  lemma TaggedShorter(services: Services, ps: seq<Param>, qs: seq<Param>, public: bool)
    requires qs <= ps && AllPublic(ps, public)
    ensures TaggedAll(TaggedAll(services, ps), qs) == TaggedAll(services, ps)
  {
    var now := TaggedAll(services, ps);
    forall id | id in services ensures TaggedAll(now, qs)[id] == now[id] {
      LastForSame(services[id], now[id], qs);
      LastForPublic(services[id], ps, public);
      LastForPublic(services[id], qs, public);
      if LastFor(services[id], qs).Some? {
        LastForLonger(services[id], qs, ps);
        TaggedTwice(services[id], public, public);
      }
    }
  }

  // ---------------------------------------------------------------- the calls

  datatype Outcome = Updated | NotFound | CallFailed

  /**
   * The effect of an update: every named service re-registered, up to the first parameter that names none; when a
   * call to the agent fails, up to some earlier one.
   */
  ghost predicate Effect(before: Services, after: Services, ps: seq<Param>, r: Outcome) {
    var n := FirstMissing(before, ps);
    match r
    case Updated => n == |ps| && after == TaggedAll(before, ps)
    case NotFound => n < |ps| && after == TaggedAll(before, ps[..n])
    case CallFailed => exists m: nat :: m <= n && after == TaggedAll(before, ps[..m])
  }

  class Agent {
    var services: Services
    /** The replies still to come; a call beyond the script is done. */
    var replies: seq<Reply>

    constructor (services: Services, replies: seq<Reply>)
      ensures this.services == services && this.replies == replies
    {
      this.services, this.replies := services, replies;
    }

    method NextReply() returns (r: Reply)
      modifies this`replies
      ensures AllDone(old(replies)) ==> AllDone(replies) && r.Done?
    {
      r := if replies == [] then Done else replies[0];
      replies := if replies == [] then [] else replies[1..];
    }

    method ServiceRegister(id: string, s: AgentService) returns (ok: bool)
      modifies this
      ensures AllDone(old(replies)) ==> AllDone(replies) && ok
      ensures services == old(services)[id := s] || (!ok && services == old(services))
    {
      var reply := NextReply();
      if !reply.Refused? {
        services := services[id := s];
      }
      return reply.Done?;
    }
  }

  /** The loop over the services runs in an arbitrary order and stops at the first that matches. */
  method PrepareUpdatedService(services: Services, p: Param) returns (id: Option<string>)
    ensures id.Some? <==> Found(services, p)
    ensures id.Some? ==> id.value in services && Matches(services[id.value], p)
    ensures id.Some? ==> services[id.value].name == p.name && services[id.value].port == p.port
    ensures id.None? ==> forall k :: k in services ==> services[k].name != p.name || services[k].port != p.port
  {
    var left := services.Keys;
    while left != {}
      invariant left <= services.Keys
      invariant forall k :: k in services.Keys - left ==> !Matches(services[k], p)
    {
      var k :| k in left;
      if Matches(services[k], p) {
        return Some(k);
      }
      left := left - {k};
    }
    return None;
  }

  method UpdatedTags(existing: seq<string>, public: bool) returns (tags: seq<string>)
    ensures tags == Others(existing) + if public then ["Public"] else []
  {
    tags := [];
    for i := 0 to |existing|
      invariant tags == Others(existing[..i])
    {
      assert existing[..i+1][..i] == existing[..i];
      if existing[i] != PUBLIC {
        tags := tags + [existing[i]];
      }
    }
    assert existing[..|existing|] == existing;
    if public {
      tags := tags + [PUBLIC];
    }
  }

  /** One turn of the loop: one service that the parameter names is re-registered, whichever the loop came to first. */
  method UpdateOne(agent: Agent, param: Param) returns (r: Outcome, ghost id: string)
    modifies agent
    ensures r.Updated? ==> id in old(agent.services) && Matches(old(agent.services)[id], param) &&
                           agent.services == Retagged(old(agent.services), id, param.public)
    ensures r.NotFound? ==> !Found(agent.services, param) && agent.services == old(agent.services)
    ensures r.CallFailed? ==>
              || agent.services == old(agent.services)
              || (id in old(agent.services) && Matches(old(agent.services)[id], param) &&
                  agent.services == Retagged(old(agent.services), id, param.public))
    ensures AllDone(old(agent.replies)) ==> AllDone(agent.replies) && !r.CallFailed?
  {
    id := "";
    var reply := agent.NextReply();
    if !reply.Done? {
      return CallFailed, id;
    }
    if |agent.services| == 0 {
      NoneFound(agent.services, param);
      return NotFound, id;
    }
    var found := PrepareUpdatedService(agent.services, param);
    if found.None? {
      return NotFound, id;
    }
    id := found.value;
    var s := agent.services[found.value];
    var tags := UpdatedTags(s.tags, param.public);
    var ok := agent.ServiceRegister(found.value, s.(tags := tags, tagOverride := true));
    return if ok then Updated else CallFailed, id;
  }

  /**
   * The code's loop, for any services: when several share a name and a port, some one of them is updated per parameter.
   */
  method UpdateServiceTag(agent: Agent, params: seq<Param>) returns (r: Outcome)
    modifies agent
    ensures exists ids: seq<string> :: EffectBy(old(agent.services), agent.services, params, ids, r)
    ensures UniqueServices(old(agent.services)) ==> Effect(old(agent.services), agent.services, params, r)
    ensures AllDone(old(agent.replies)) ==> AllDone(agent.replies) && !r.CallFailed?
  {
    ghost var before, ids: seq<string> := agent.services, [];
    for i := 0 to |params|
      invariant |ids| == i && Named(before, params, ids) && agent.services == Applied(before, params, ids)
      invariant AllDone(old(agent.replies)) ==> AllDone(agent.replies)
    {
      ghost var id;
      r, id := UpdateOne(agent, params[i]);
      AppliedSame(before, params, ids);
      if r.Updated? || (r.CallFailed? && agent.services != Applied(before, params, ids)) {
        OneMore(before, params, ids, id);
        ids := ids + [id];
      }
      if !r.Updated? {
        Stopped(before, agent.services, params, ids, r);
        return;
      }
    }
    r := Updated;
    Stopped(before, agent.services, params, ids, r);
  }

  /** One service re-registered. */
  function Retagged(services: Services, id: string, public: bool): Services
    requires id in services
  {
    services[id := Tagged(services[id], public)]
  }

  /** The services that were chosen are named by the parameters, one by one. */
  predicate Named(services: Services, ps: seq<Param>, ids: seq<string>) {
    |ids| <= |ps| && forall i :: 0 <= i < |ids| ==> ids[i] in services && Matches(services[ids[i]], ps[i])
  }

  /** One re-registration after the other, of the chosen services. */
  function Applied(services: Services, ps: seq<Param>, ids: seq<string>): (r: Services)
    requires Named(services, ps, ids)
    ensures r.Keys == services.Keys
  {
    if ids == [] then services
    else Retagged(Applied(services, ps, ids[..|ids|-1]), ids[|ids|-1], ps[|ids|-1].public)
  }

  /** The effect of an update by the services that it chose: one for each parameter up to where it stopped. */
  ghost predicate EffectBy(before: Services, after: Services, ps: seq<Param>, ids: seq<string>, r: Outcome) {
    var n := FirstMissing(before, ps);
    && Named(before, ps, ids) && after == Applied(before, ps, ids)
    && match r
       case Updated => |ids| == n == |ps|
       case NotFound => |ids| == n < |ps|
       case CallFailed => |ids| <= n
  }

  lemma NamedIsFound(services: Services, ps: seq<Param>, ids: seq<string>)
    requires Named(services, ps, ids)
    ensures |ids| <= FirstMissing(services, ps)
  {
    FirstMissingMeaning(services, ps);
    assert forall i :: 0 <= i < |ids| ==> Found(services, ps[i]);
  }

  /** Re-registrations keep what parameters look at. */
  lemma {:induction false} AppliedSame(services: Services, ps: seq<Param>, ids: seq<string>)
    requires Named(services, ps, ids)
    ensures var now := Applied(services, ps, ids);
            && (forall id :: id in services ==> now[id].name == services[id].name && now[id].port == services[id].port)
            && forall p :: Found(now, p) <==> Found(services, p)
  {
    var now := Applied(services, ps, ids);
    if ids != [] {
      AppliedSame(services, ps, ids[..|ids|-1]);
    }
    forall p ensures Found(now, p) <==> Found(services, p) {
      assert forall id :: id in services ==> (Matches(now[id], p) <==> Matches(services[id], p));
    }
  }

  /** One more service that the next parameter names. */
  lemma OneMore(services: Services, ps: seq<Param>, ids: seq<string>, id: string)
    requires Named(services, ps, ids) && |ids| < |ps|
    requires id in services && Matches(Applied(services, ps, ids)[id], ps[|ids|])
    ensures Named(services, ps, ids + [id])
    ensures Applied(services, ps, ids + [id]) == Retagged(Applied(services, ps, ids), id, ps[|ids|].public)
  {
    AppliedSame(services, ps, ids);
    assert (ids + [id])[..|ids|] == ids;
  }

  lemma Stopped(before: Services, after: Services, ps: seq<Param>, ids: seq<string>, r: Outcome)
    requires Named(before, ps, ids) && after == Applied(before, ps, ids)
    requires r.Updated? ==> |ids| == |ps|
    requires r.NotFound? ==> |ids| < |ps| && !Found(before, ps[|ids|])
    ensures exists chosen: seq<string> :: EffectBy(before, after, ps, chosen, r)
    ensures UniqueServices(before) ==> Effect(before, after, ps, r)
  {
    NamedIsFound(before, ps, ids);
    FirstMissingMeaning(before, ps);
    assert EffectBy(before, after, ps, ids, r);
    EffectOfChoice(before, after, ps, ids, r);
  }

  /** When no two services share name and port there is no choice. */
  lemma EffectOfChoice(before: Services, after: Services, ps: seq<Param>, ids: seq<string>, r: Outcome)
    requires EffectBy(before, after, ps, ids, r)
    ensures UniqueServices(before) ==> Effect(before, after, ps, r)
  {
    if UniqueServices(before) {
      AppliedUnique(before, ps, ids);
      assert ps[..|ps|] == ps;
    }
  }

  lemma {:induction false} AppliedUnique(services: Services, ps: seq<Param>, ids: seq<string>)
    requires UniqueServices(services) && Named(services, ps, ids)
    ensures Applied(services, ps, ids) == TaggedAll(services, ps[..|ids|])
  {
    if ids == [] {
      NothingTagged(services);
      assert ps[..0] == [];
    } else {
      var n := |ids| - 1;
      AppliedUnique(services, ps, ids[..n]);
      TakeSnoc(ps, n);
      TaggedOneMore(services, ps[..n], ps[n], ids[n]);
    }
  }

  lemma TakeSnoc(ps: seq<Param>, n: nat)
    requires n < |ps|
    ensures ps[..n] + [ps[n]] == ps[..n+1]
  {
  }

  lemma NothingTagged(services: Services)
    ensures TaggedAll(services, []) == services
  {
  }

  lemma NoneFound(services: Services, p: Param)
    requires |services| == 0
    ensures !Found(services, p)
  {
    assert services.Keys == {};
  }

  // ---------------------------------------------------------------- the handler

  datatype Port = Port(name: string, udp: bool, nodePort: int)
  datatype Svc = Svc(name: string, ports: seq<Port>)

  /** `getConsulServiceName`: the port's name distinguishes the ports of a service with several. */
  function ConsulName(p: Port, svc: Svc): string {
    svc.name + (if |svc.ports| > 1 && p.name != "" then "-" + p.name else "")
  }

  function PortParams(svc: Svc, n: nat, public: bool): seq<Param>
    requires n <= |svc.ports|
  {
    if n == 0 then []
    else
      var p := svc.ports[n-1];
      PortParams(svc, n - 1, public) + (if p.udp then [] else [Param(ConsulName(p, svc), public, p.nodePort)])
  }

  /** The parameters of all ports but those of UDP, service by service. */
  function AllParams(svcs: seq<Svc>, public: bool): seq<Param> {
    if svcs == [] then []
    else
      var last := svcs[|svcs|-1];
      AllParams(svcs[..|svcs|-1], public) + PortParams(last, |last.ports|, public)
  }

  lemma {:induction false} PortParamsPublic(svc: Svc, n: nat, public: bool)
    requires n <= |svc.ports|
    ensures AllPublic(PortParams(svc, n, public), public)
  {
    if n > 0 {
      PortParamsPublic(svc, n - 1, public);
    }
  }

  lemma {:induction false} AllParamsPublic(svcs: seq<Svc>, public: bool)
    ensures AllPublic(AllParams(svcs, public), public)
  {
    if svcs != [] {
      AllParamsPublic(svcs[..|svcs|-1], public);
      PortParamsPublic(svcs[|svcs|-1], |svcs[|svcs|-1].ports|, public);
    }
  }

  lemma {:induction false} AllParamsGrow(svcs: seq<Svc>, n: nat, public: bool)
    requires n <= |svcs|
    ensures AllParams(svcs[..n], public) <= AllParams(svcs, public)
    decreases |svcs|
  {
    if n == |svcs| {
      assert svcs[..n] == svcs;
    } else {
      assert svcs[..|svcs|-1][..n] == svcs[..n];
      AllParamsGrow(svcs[..|svcs|-1], n, public);
      assert AllParams(svcs[..n], public) <= AllParams(svcs[..|svcs|-1], public) <= AllParams(svcs, public);
    }
  }

  lemma MissingSame(services: Services, ps: seq<Param>, qs: seq<Param>)
    ensures FirstMissing(TaggedAll(services, ps), qs) == FirstMissing(services, qs)
  {
    SameNames(services, ps);
    FirstMissingMeaning(services, qs);
    MissingAt(TaggedAll(services, ps), qs, FirstMissing(services, qs));
  }

  lemma MissingInPrefix(services: Services, ps: seq<Param>, qs: seq<Param>)
    requires ps <= qs
    ensures FirstMissing(services, ps) < |ps| ==> FirstMissing(services, qs) == FirstMissing(services, ps)
    ensures FirstMissing(services, ps) == |ps| ==> FirstMissing(services, qs) >= |ps|
  {
    FirstMissingMeaning(services, ps);
    FirstMissingMeaning(services, qs);
    assert forall i :: 0 <= i < |ps| ==> qs[i] == ps[i];
    if FirstMissing(services, ps) < |ps| {
      MissingAt(services, qs, FirstMissing(services, ps));
    }
  }

  /** Updating for a list and then for a longer one has the effect of one update for the longer one. */
  lemma GrowingEffect(before: Services, mid: Services, after: Services, ps: seq<Param>, qs: seq<Param>, public: bool,
                      r: Outcome)
    requires ps <= qs && AllPublic(qs, public) && Effect(before, mid, ps, Updated) && Effect(mid, after, qs, r)
    ensures Effect(before, after, qs, r)
  {
    MissingSame(before, ps, qs);
    MissingInPrefix(before, ps, qs);
    var n := FirstMissing(before, qs);
    match r
    case Updated => TaggedLonger(before, ps, qs);
    case NotFound =>
      assert ps <= qs[..n];
      TaggedLonger(before, ps, qs[..n]);
    case CallFailed =>
      var m: nat :| m <= n && after == TaggedAll(mid, qs[..m]);
      if m <= |ps| {
        assert qs[..m] <= ps;
        TaggedShorter(before, ps, qs[..m], public);
        assert ps == qs[..|ps|];
      } else {
        assert ps <= qs[..m];
        TaggedLonger(before, ps, qs[..m]);
      }
  }

  /** An update that stops within a prefix of the parameters stops there for all of them. */
  lemma PrefixEffect(before: Services, after: Services, ps: seq<Param>, qs: seq<Param>, r: Outcome)
    requires ps <= qs && Effect(before, after, ps, r) && !r.Updated?
    ensures Effect(before, after, qs, r)
  {
    MissingInPrefix(before, ps, qs);
    var n := FirstMissing(before, ps);
    if r.NotFound? {
      assert ps[..n] == qs[..n];
    } else {
      var m: nat :| m <= n && after == TaggedAll(before, ps[..m]);
      assert ps[..m] == qs[..m];
    }
  }

  /** How many ports before port `k` of service `i` are not UDP. */
  function Place(svcs: seq<Svc>, i: nat, k: nat): nat
    requires i < |svcs| && k <= |svcs[i].ports|
    decreases i, k
  {
    if k > 0 then Place(svcs, i, k - 1) + (if svcs[i].ports[k-1].udp then 0 else 1)
    else if i > 0 then Place(svcs, i - 1, |svcs[i-1].ports|)
    else 0
  }

  /** There is one parameter for each port that is not UDP, in their order, and no other. */
  ghost predicate ParamsOf(ps: seq<Param>, svcs: seq<Svc>, public: bool) {
    && |ps| == (if svcs == [] then 0 else Place(svcs, |svcs| - 1, |svcs[|svcs|-1].ports|))
    && forall i, k :: 0 <= i < |svcs| && 0 <= k < |svcs[i].ports| && !svcs[i].ports[k].udp ==>
         var n, p := Place(svcs, i, k), svcs[i].ports[k];
         && n < |ps| && ps[n].public == public && ps[n].port == p.nodePort
         && ps[n].name == if |svcs[i].ports| == 1 || p.name == "" then svcs[i].name else svcs[i].name + "-" + p.name
  }

  /** The parameters up to port `k` of service `i`. */
  function ParamsTo(svcs: seq<Svc>, i: nat, k: nat, public: bool): seq<Param>
    requires i < |svcs| && k <= |svcs[i].ports|
  {
    AllParams(svcs[..i], public) + PortParams(svcs[i], k, public)
  }

  lemma {:induction false} ParamsAtPlace(svcs: seq<Svc>, i: nat, k: nat, public: bool)
    requires i < |svcs| && k <= |svcs[i].ports|
    ensures |ParamsTo(svcs, i, k, public)| == Place(svcs, i, k)
    ensures ParamsTo(svcs, i, k, public) <= AllParams(svcs, public)
    decreases i, k
  {
    if k > 0 {
      ParamsAtPlace(svcs, i, k - 1, public);
    } else if i > 0 {
      ParamsAtPlace(svcs, i - 1, |svcs[i-1].ports|, public);
      ServiceBefore(svcs, i, public);
    } else {
      assert svcs[..0] == [];
    }
    ParamsToGrow(svcs, i, k, public);
  }

  lemma ServiceBefore(svcs: seq<Svc>, i: nat, public: bool)
    requires 0 < i < |svcs|
    ensures ParamsTo(svcs, i, 0, public) == ParamsTo(svcs, i - 1, |svcs[i-1].ports|, public)
  {
    assert svcs[..i][..i-1] == svcs[..i-1];
    assert ParamsTo(svcs, i, 0, public) == AllParams(svcs[..i], public);
  }

  lemma ParamsToGrow(svcs: seq<Svc>, i: nat, k: nat, public: bool)
    requires i < |svcs| && k <= |svcs[i].ports|
    ensures ParamsTo(svcs, i, k, public) <= AllParams(svcs, public)
  {
    AllParamsGrow(svcs, i + 1, public);
    assert svcs[..i+1][..i] == svcs[..i];
    PortParamsGrow(svcs[i], k, |svcs[i].ports|, public);
  }

  lemma {:induction false} PortParamsGrow(svc: Svc, k: nat, n: nat, public: bool)
    requires k <= n <= |svc.ports|
    ensures PortParams(svc, k, public) <= PortParams(svc, n, public)
  {
    if k < n {
      PortParamsGrow(svc, k, n - 1, public);
    }
  }

  lemma AllParamsMeaning(svcs: seq<Svc>, public: bool)
    ensures ParamsOf(AllParams(svcs, public), svcs, public)
  {
    var ps := AllParams(svcs, public);
    if svcs != [] {
      var i := |svcs| - 1;
      ParamsAtPlace(svcs, i, |svcs[i].ports|, public);
    }
    forall i, k | 0 <= i < |svcs| && 0 <= k < |svcs[i].ports| && !svcs[i].ports[k].udp
      ensures var n := Place(svcs, i, k);
              n < |ps| && ps[n] == Param(ConsulName(svcs[i].ports[k], svcs[i]), public, svcs[i].ports[k].nodePort)
    {
      ParamsAtPlace(svcs, i, k, public);
      ParamsAtPlace(svcs, i, k + 1, public);
    }
  }

  method AddParams(consulData: seq<Param>, svc: Svc, public: bool) returns (r: seq<Param>)
    ensures r == consulData + PortParams(svc, |svc.ports|, public)
  {
    r := consulData;
    for k := 0 to |svc.ports|
      invariant r == consulData + PortParams(svc, k, public)
    {
      if !svc.ports[k].udp {
        r := r + [Param(ConsulName(svc.ports[k], svc), public, svc.ports[k].nodePort)];
      }
    }
  }

  lemma AllParamsStep(svcs: seq<Svc>, i: nat, public: bool)
    requires i < |svcs|
    ensures AllParams(svcs[..i+1], public) ==
            AllParams(svcs[..i], public) + PortParams(svcs[i], |svcs[i].ports|, public)
    ensures AllParams(svcs[..i+1], public) <= AllParams(svcs, public)
    ensures AllPublic(AllParams(svcs[..i+1], public), public)
  {
    assert svcs[..i+1][..i] == svcs[..i];
    AllParamsPublic(svcs[..i+1], public);
    AllParamsGrow(svcs, i + 1, public);
  }

  /**
   * The handler calls the agent once per service, each time with the parameters of all services so far. It leaves
   * the agent as one update with the full list does, also when a service is not found or a call fails.
   */
  method SetServiceVisibility(agent: Agent, svcs: seq<Svc>, public: bool) returns (r: Outcome)
    requires UniqueServices(agent.services)
    modifies agent
    ensures Effect(old(agent.services), agent.services, AllParams(svcs, public), r)
    ensures ParamsOf(AllParams(svcs, public), svcs, public)
    ensures AllDone(old(agent.replies)) ==> AllDone(agent.replies) && !r.CallFailed?
  {
    AllParamsMeaning(svcs, public);
    ghost var before := agent.services;
    var consulData: seq<Param> := [];
    NothingTagged(before);
    for i := 0 to |svcs|
      invariant consulData == AllParams(svcs[..i], public)
      invariant Effect(before, agent.services, consulData, Updated)
      invariant AllDone(old(agent.replies)) ==> AllDone(agent.replies)
    {
      ghost var mid, sofar := agent.services, consulData;
      consulData := AddParams(consulData, svcs[i], public);
      AllParamsStep(svcs, i, public);
      SameNames(before, sofar);
      r := UpdateServiceTag(agent, consulData);
      GrowingEffect(before, mid, agent.services, sofar, consulData, public, r);
      if !r.Updated? {
        PrefixEffect(before, agent.services, consulData, AllParams(svcs, public), r);
        return;
      }
    }
    assert svcs[..|svcs|] == svcs;
    return Updated;
  }
}
