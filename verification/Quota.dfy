/** Clusters on demand, under a quota: `GetOrCreateCluster` of k8s/k8screator_rest_api_impl.go. */
module Quota {
  import opened Decimal
  import Sets

  // ---------------------------------------------------------------- one call

  /** What a GET of the organization's cluster answers; a found cluster may not serve its API yet. */
  datatype Seen = Working | NotWorking | Pending | Missing | Broken

  /** What a PUT answers; without a reply the cluster may or may not have been created. */
  datatype PutReply = Accepted | Conflict | OtherStatus | NoReply(done: bool)

  /** The answers that one turn of the loop may ask for. */
  datatype Round = Round(seen: Seen, count: Option<nat>, put: PutReply)

  datatype Outcome = Ready | QuotaExceeded | NoList | NoPut | ConflictError | NotThere | GetFailed | StillWaiting

  /** The calls that change something. */
  datatype Call = Put(count: nat) | CreateSecret

  /** What the loop comes to, and the changing calls it makes, given the answers to come. */
  function Run(rounds: seq<Round>, quota: int, wasCreated: bool): (Outcome, seq<Call>) {
    if rounds == [] then (StillWaiting, [])
    else
      var r, rest := rounds[0], rounds[1..];
      match r.seen
      case Working => (Ready, if wasCreated then [CreateSecret] else [])
      case NotWorking => Run(rest, quota, wasCreated)
      case Pending => Run(rest, quota, wasCreated)
      case Broken => (GetFailed, [])
      case Missing =>
        if wasCreated then (NotThere, [])
        else if r.count.None? then (NoList, [])
        else if r.count.value >= quota then (QuotaExceeded, [])
        else
          match r.put
          case NoReply(_) => (NoPut, [Put(r.count.value)])
          case Conflict => (ConflictError, [Put(r.count.value)])
          case _ => var later := Run(rest, quota, true); (later.0, [Put(r.count.value)] + later.1)
  }

  predicate NoPuts(calls: seq<Call>) {
    forall i :: 0 <= i < |calls| ==> !calls[i].Put?
  }

  /**
   * A call issues at most one PUT, before anything else it changes, and only when it has just counted fewer
   * clusters than the quota; the registry's secret is created exactly when the call sent a PUT and then saw the
   * cluster working.
   */
  lemma {:induction false} OnePut(rounds: seq<Round>, quota: int, wasCreated: bool)
    ensures var r := Run(rounds, quota, wasCreated);
            && (wasCreated ==> NoPuts(r.1) && |r.1| <= 1)
            && (!wasCreated && r.1 != [] ==> r.1[0].Put? && r.1[0].count < quota && NoPuts(r.1[1..]))
            && |r.1| <= 2
            && (CreateSecret in r.1 <==> r.0.Ready? && (wasCreated || r.1 != []))
  {
    if rounds != [] {
      OnePut(rounds[1..], quota, wasCreated);
      OnePut(rounds[1..], quota, true);
      var later, r := Run(rounds[1..], quota, true).1, Run(rounds, quota, wasCreated).1;
      if rounds[0].seen.Missing? && r != [] {
        assert r == [r[0]] + r[1..] && r[0] != CreateSecret && (r[1..] == later || r[1..] == []);
      }
    }
  }

  /** The reply to the PUT that the call sends, if it sends one. */
  function Sent(rounds: seq<Round>, quota: int): Option<PutReply> {
    if rounds == [] || rounds[0].seen.Working? || rounds[0].seen.Broken? then None
    else if rounds[0].seen.Missing? then
      if rounds[0].count.Some? && rounds[0].count.value < quota then Some(rounds[0].put) else None
    else Sent(rounds[1..], quota)
  }

  /** The PUT made the cluster: it was accepted, or done with its reply lost. */
  predicate MadeCluster(sent: Option<PutReply>) {
    sent.Some? && (sent.value.Accepted? || (sent.value.NoReply? && sent.value.done))
  }

  /**
   * The secret is no sign that the call made the cluster: it is created without that exactly when the PUT was
   * answered with a status that is neither a success nor a conflict, and someone else's cluster is then found working.
   */
  lemma {:induction false} SecretWithoutCluster(rounds: seq<Round>, quota: int)
    ensures var r, sent := Run(rounds, quota, false), Sent(rounds, quota);
            && (CreateSecret in r.1 <==> r.0.Ready? && sent.Some?)
            && (CreateSecret in r.1 && !MadeCluster(sent) <==> r.0.Ready? && sent == Some(OtherStatus))
            && (MadeCluster(sent) && CreateSecret !in r.1 <==> MadeCluster(sent) && !r.0.Ready?)
  {
    OnePut(rounds, quota, false);
    if rounds != [] {
      if rounds[0].seen.Missing? {
        OnePut(rounds[1..], quota, true);
      } else {
        SecretWithoutCluster(rounds[1..], quota);
      }
    }
  }

  // ---------------------------------------------------------------- answer by answer

  /** The turns from `j` on before `k` find a cluster that does not work yet or is still being made. */
  predicate Waited(rounds: seq<Round>, j: nat, k: nat) {
    k <= |rounds| && forall i :: j <= i < k ==> rounds[i].seen.NotWorking? || rounds[i].seen.Pending?
  }

  /** Turn `k` is the first from `j` on that decides something. */
  predicate Decides(rounds: seq<Round>, j: nat, k: nat) {
    j <= k < |rounds| && Waited(rounds, j, k) && !rounds[k].seen.NotWorking? && !rounds[k].seen.Pending?
  }

  /** While the cluster only lets itself be waited for, nothing is done. */
  lemma {:induction false} RunWaits(rounds: seq<Round>, quota: int, wasCreated: bool, k: nat)
    requires Waited(rounds, 0, k)
    ensures Run(rounds, quota, wasCreated) == Run(rounds[k..], quota, wasCreated)
  {
    if k > 0 {
      assert forall i :: 0 <= i < |rounds| - 1 ==> rounds[1..][i] == rounds[i+1];
      RunWaits(rounds[1..], quota, wasCreated, k - 1);
      assert rounds[1..][k-1..] == rounds[k..];
    } else {
      assert rounds[0..] == rounds;
    }
  }

  /** A call without a cluster of its own making, by the first turn that decides. */
  lemma RunMeaning(rounds: seq<Round>, quota: int, k: nat)
    requires Decides(rounds, 0, k) || (k == |rounds| && Waited(rounds, 0, k))
    ensures k == |rounds| ==> Run(rounds, quota, false) == (StillWaiting, [])
    ensures k < |rounds| && rounds[k].seen.Working? ==> Run(rounds, quota, false) == (Ready, [])
    ensures k < |rounds| && rounds[k].seen.Broken? ==> Run(rounds, quota, false) == (GetFailed, [])
    ensures k < |rounds| && rounds[k].seen.Missing? && rounds[k].count.None? ==>
              Run(rounds, quota, false) == (NoList, [])
    ensures k < |rounds| && rounds[k].seen.Missing? && rounds[k].count.Some? ==>
              var n := rounds[k].count.value;
              && (Run(rounds, quota, false).0.QuotaExceeded? <==> n >= quota)
              && (n >= quota ==> Run(rounds, quota, false).1 == [])
              && (n < quota ==> Run(rounds, quota, false).1 != [] && Run(rounds, quota, false).1[0] == Put(n))
              && (n < quota && rounds[k].put.NoReply? ==> Run(rounds, quota, false) == (NoPut, [Put(n)]))
              && (n < quota && rounds[k].put.Conflict? ==> Run(rounds, quota, false) == (ConflictError, [Put(n)]))
  {
    RunWaits(rounds, quota, false, k);
    if k < |rounds| {
      assert rounds[k..][0] == rounds[k];
      NoSecondQuota(rounds[k..][1..], quota);
    }
  }

  lemma {:induction false} NoSecondQuota(rounds: seq<Round>, quota: int)
    ensures !Run(rounds, quota, true).0.QuotaExceeded?
  {
    if rounds != [] {
      NoSecondQuota(rounds[1..], quota);
    }
  }

  /** After its PUT the call waits on, and the next turn `m` that decides ends it. */
  lemma AfterPut(rounds: seq<Round>, quota: int, k: nat, m: nat)
    requires Decides(rounds, 0, k) && rounds[k].seen.Missing? && rounds[k].count.Some? && rounds[k].count.value < quota
    requires rounds[k].put.Accepted? || rounds[k].put.OtherStatus?
    requires Decides(rounds, k + 1, m) || (m == |rounds| && Waited(rounds, k + 1, m))
    ensures var put := Put(rounds[k].count.value);
            Run(rounds, quota, false) ==
            if m == |rounds| then (StillWaiting, [put])
            else if rounds[m].seen.Working? then (Ready, [put, CreateSecret])
            else if rounds[m].seen.Broken? then (GetFailed, [put])
            else (NotThere, [put])
  {
    RunWaits(rounds, quota, false, k);
    var rest := rounds[k+1..];
    assert rounds[k..][0] == rounds[k] && rounds[k..][1..] == rest;
    assert Waited(rest, 0, m - k - 1);
    RunWaits(rest, quota, true, m - k - 1);
    assert rest[m-k-1..] == rounds[m..];
    assert m < |rounds| ==> rounds[m..][0] == rounds[m];
    var put, later := Put(rounds[k].count.value), Run(rest, quota, true);
    assert Run(rounds, quota, false) == (later.0, [put] + later.1);
    assert m == |rounds| ==> rounds[m..] == [];
    assert later.1 == [] ==> [put] + later.1 == [put];
    assert later.1 == [CreateSecret] ==> [put] + later.1 == [put, CreateSecret];
  }

  class Creator {
    var rounds: seq<Round>
    var calls: seq<Call>

    constructor (rounds: seq<Round>)
      ensures this.rounds == rounds && calls == []
    {
      this.rounds, calls := rounds, [];
    }

    method PostCluster(count: Option<nat>, put: PutReply, quota: int) returns (r: Option<PutReply>, exceeded: bool)
      modifies this`calls
      ensures r.None? <==> count.None? || count.value >= quota
      ensures r.Some? ==> r.value == put && calls == old(calls) + [Put(count.value)]
      ensures r.None? ==> calls == old(calls) && (exceeded <==> count.Some?)
    {
      if count.None? {
        return None, false;
      }
      if count.value >= quota {
        return None, true;
      }
      calls := calls + [Put(count.value)];
      return Some(put), false;
    }

    /** The loop, up to the end of the given answers. */
    method GetOrCreateCluster(quota: int) returns (outcome: Outcome)
      modifies this
      ensures outcome == Run(old(rounds), quota, false).0
      ensures calls == old(calls) + Run(old(rounds), quota, false).1
    {
      var wasCreated := false;
      ghost var goal := Run(rounds, quota, false);
      ghost var made: seq<Call> := [];
      while rounds != []
        invariant calls == old(calls) + made
        invariant goal.0 == Run(rounds, quota, wasCreated).0 && goal.1 == made + Run(rounds, quota, wasCreated).1
      {
        var r := rounds[0];
        rounds := rounds[1..];
        if r.seen.Working? {
          if wasCreated {
            calls := calls + [CreateSecret];
          }
          return Ready;
        } else if r.seen.Missing? {
          if wasCreated {
            return NotThere;
          }
          var put, exceeded := PostCluster(r.count, r.put, quota);
          if put.None? {
            return if exceeded then QuotaExceeded else NoList;
          }
          made := made + [Put(r.count.value)];
          if put.value.NoReply? {
            return NoPut;
          }
          if put.value.Conflict? {
            return ConflictError;
          }
          wasCreated := true;
        } else if r.seen.Broken? {
          return GetFailed;
        }
      }
      return StillWaiting;
    }
  }

  // ---------------------------------------------------------------- any number of callers

  /** Before a GET; before the count; between the count and the PUT. */
  datatype Pc = AtGet(created: bool) | AtCount | AtPut

  datatype Caller = Caller(org: string, pc: Pc, puts: nat)

  /** The clusters, and the calls in flight. */
  datatype Cloud = Cloud(clusters: set<string>, callers: map<nat, Caller>)

  datatype Step =
    | Start(q: nat, org: string)
    | Get(q: nat, seen: Seen)
    | Count(q: nat, ok: bool)
    | Post(q: nat, reply: PutReply)
    | Delete(org: string)

  function Move(c: Cloud, q: nat, pc: Pc): Cloud
    requires q in c.callers
  {
    c.(callers := c.callers[q := c.callers[q].(pc := pc)])
  }

  function End(c: Cloud, q: nat): Cloud {
    c.(callers := c.callers - {q})
  }

  function GetStep(c: Cloud, q: nat, seen: Seen): Cloud
    requires q in c.callers && c.callers[q].pc.AtGet?
  {
    match seen
    case Working => End(c, q)
    case NotWorking => c
    case Pending => c
    case Broken => End(c, q)
    case Missing => if c.callers[q].pc.created then End(c, q) else Move(c, q, AtCount)
  }

  function PostStep(c: Cloud, q: nat, reply: PutReply): Cloud
    requires q in c.callers && c.callers[q].pc.AtPut?
  {
    var caller := c.callers[q];
    var made := c.(clusters := c.clusters + {caller.org});
    match reply
    case Accepted => made.(callers := c.callers[q := Caller(caller.org, AtGet(true), caller.puts + 1)])
    case OtherStatus => c.(callers := c.callers[q := Caller(caller.org, AtGet(true), caller.puts + 1)])
    case Conflict => End(c, q)
    case NoReply(done) => End(if done then made else c, q)
  }

  /** One step, with at most `n` callers at a time; a step that is not possible changes nothing. */
  function Apply(c: Cloud, quota: nat, n: nat, step: Step): Cloud {
    match step
    case Start(q, org) => if q in c.callers || |c.callers| >= n then c
        else c.(callers := c.callers[q := Caller(org, AtGet(false), 0)])
    case Get(q, seen) => if q in c.callers && c.callers[q].pc.AtGet? then GetStep(c, q, seen) else c
    case Count(q, ok) =>
      if q in c.callers && c.callers[q].pc.AtCount? then
        if ok && |c.clusters| < quota then Move(c, q, AtPut) else End(c, q)
      else c
    case Post(q, reply) => if q in c.callers && c.callers[q].pc.AtPut? then PostStep(c, q, reply) else c
    case Delete(org) => c.(clusters := c.clusters - {org})
  }

  function After(c: Cloud, quota: nat, n: nat, steps: seq<Step>): Cloud {
    if steps == [] then c else Apply(After(c, quota, n, steps[..|steps|-1]), quota, n, steps[|steps|-1])
  }

  /** The callers that have passed the quota check and not yet sent their PUT. */
  function Past(c: Cloud): set<nat> {
    set q | q in c.callers && c.callers[q].pc.AtPut?
  }

  ghost predicate Inv(c: Cloud, n: nat, max: nat) {
    && |c.callers| <= n
    && |c.clusters| + |Past(c)| <= max
    && forall q :: q in c.callers ==> c.callers[q].puts == if c.callers[q].pc == AtGet(true) then 1 else 0
  }

  lemma PastLoses(c: Cloud, d: Cloud, q: nat)
    requires q in Past(c) && Past(d) == Past(c) - {q}
    ensures |Past(d)| == |Past(c)| - 1
  {
  }

  lemma CountKeeps(c: Cloud, quota: nat, n: nat, max: nat, q: nat)
    requires Inv(c, n, max) && quota >= 1 && max >= quota + n - 1
    requires q in c.callers && c.callers[q].pc.AtCount? && |c.clusters| < quota
    ensures Inv(Move(c, q, AtPut), n, max)
  {
    var d := Move(c, q, AtPut);
    assert Past(d) <= c.callers.Keys;
    Sets.SubsetSize(Past(d), c.callers.Keys);
    assert d.callers.Keys == c.callers.Keys;
    assert |d.callers| == |d.callers.Keys| == |c.callers.Keys| == |c.callers|;
  }

  lemma EndKeeps(c: Cloud, n: nat, max: nat, q: nat)
    requires Inv(c, n, max) && q in c.callers
    ensures Inv(End(c, q), n, max)
  {
    var d := End(c, q);
    assert Past(d) == Past(c) - {q};
    assert d.callers.Keys == c.callers.Keys - {q};
    assert |d.callers| == |d.callers.Keys| && |c.callers| == |c.callers.Keys|;
  }

  lemma OneMore(clusters: set<string>, org: string)
    ensures |clusters + {org}| <= |clusters| + 1
  {
  }

  /** A caller leaves the PUT behind, and at most one cluster comes into being. */
  lemma PostKeeps(c: Cloud, n: nat, max: nat, q: nat, reply: PutReply)
    requires Inv(c, n, max) && q in c.callers && c.callers[q].pc.AtPut?
    ensures Inv(PostStep(c, q, reply), n, max)
  {
    var d := PostStep(c, q, reply);
    OneMore(c.clusters, c.callers[q].org);
    PastLoses(c, d, q);
    SameSize(c, d, q);
  }

  lemma SameSize(c: Cloud, d: Cloud, q: nat)
    requires q in c.callers && (d.callers.Keys == c.callers.Keys || d.callers.Keys == c.callers.Keys - {q})
    ensures |d.callers| <= |c.callers|
  {
    assert |d.callers| == |d.callers.Keys| && |c.callers| == |c.callers.Keys|;
  }

  lemma StartKeeps(c: Cloud, quota: nat, n: nat, max: nat, q: nat, org: string)
    requires Inv(c, n, max)
    ensures Inv(Apply(c, quota, n, Start(q, org)), n, max)
  {
    var d := Apply(c, quota, n, Start(q, org));
    assert Past(d) == Past(c);
    if d != c {
      assert d.callers.Keys == c.callers.Keys + {q};
      assert |d.callers| == |d.callers.Keys| && |c.callers| == |c.callers.Keys|;
    }
  }

  lemma GetKeeps(c: Cloud, n: nat, max: nat, q: nat, seen: Seen)
    requires Inv(c, n, max) && q in c.callers && c.callers[q].pc.AtGet?
    ensures Inv(GetStep(c, q, seen), n, max)
  {
    var d := GetStep(c, q, seen);
    if seen.Missing? && !c.callers[q].pc.created {
      assert Past(d) == Past(c);
      assert d.callers.Keys == c.callers.Keys;
      assert |d.callers| == |d.callers.Keys| && |c.callers| == |c.callers.Keys|;
    } else if d != c {
      EndKeeps(c, n, max, q);
    }
  }

  lemma StepKeeps(c: Cloud, quota: nat, n: nat, max: nat, step: Step)
    requires Inv(c, n, max) && quota >= 1 && max >= quota + n - 1
    ensures Inv(Apply(c, quota, n, step), n, max)
  {
    match step
    case Start(q, org) => StartKeeps(c, quota, n, max, q, org);
    case Get(q, seen) => if q in c.callers && c.callers[q].pc.AtGet? { GetKeeps(c, n, max, q, seen); }
    case Count(q, ok) =>
      if q in c.callers && c.callers[q].pc.AtCount? {
        if ok && |c.clusters| < quota { CountKeeps(c, quota, n, max, q); } else { EndKeeps(c, n, max, q); }
      }
    case Post(q, reply) => if q in c.callers && c.callers[q].pc.AtPut? { PostKeeps(c, n, max, q, reply); }
    case Delete(org) =>
      Sets.SubsetSize(c.clusters - {org}, c.clusters);
      assert Past(Apply(c, quota, n, step)) == Past(c);
  }

  /**
   * In every interleaving of at most `n` callers, whatever the GETs and PUTs answer, and with clusters removed at
   * any time: the clusters and the callers past the check are never more than quota + n - 1 together (or than
   * there were at the start), and each caller has sent at most one PUT.
   */
  lemma {:induction false} QuotaBound(clusters: set<string>, quota: nat, n: nat, steps: seq<Step>)
    requires quota >= 1 && n >= 1
    ensures var c := After(Cloud(clusters, map[]), quota, n, steps);
            var max := if |clusters| > quota + n - 1 then |clusters| else quota + n - 1;
            Inv(c, n, max) && |c.clusters| + |Past(c)| <= max && forall q :: q in c.callers ==> c.callers[q].puts <= 1
  {
    var max := if |clusters| > quota + n - 1 then |clusters| else quota + n - 1;
    if steps == [] {
      assert Past(Cloud(clusters, map[])) == {};
    } else {
      QuotaBound(clusters, quota, n, steps[..|steps|-1]);
      StepKeeps(After(Cloud(clusters, map[]), quota, n, steps[..|steps|-1]), quota, n, max, steps[|steps|-1]);
    }
  }

  /** Used by one caller at a time, the check keeps the quota. */
  lemma SequentialKeepsQuota(clusters: set<string>, quota: nat, steps: seq<Step>)
    requires quota >= 1 && |clusters| <= quota
    ensures |After(Cloud(clusters, map[]), quota, 1, steps).clusters| <= quota
  {
    QuotaBound(clusters, quota, 1, steps);
  }

  // ---------------------------------------------------------------- the bound is reached

  predicate Distinct(orgs: seq<string>) {
    forall i, j :: 0 <= i < j < |orgs| ==> orgs[i] != orgs[j]
  }

  function Range(n: nat): (r: set<nat>)
    ensures |r| == n && forall q :: q in r <==> 0 <= q < n
  {
    if n == 0 then {} else Range(n - 1) + {n - 1}
  }

  /** The first `k` callers stand between the check and the PUT. */
  function Waiting(orgs: seq<string>, k: nat): map<nat, Caller>
    requires k <= |orgs|
  {
    map q: nat | q in Range(k) :: Caller(orgs[q], AtPut, 0)
  }

  lemma Then(c: Cloud, quota: nat, n: nat, steps: seq<Step>, step: Step)
    ensures After(c, quota, n, steps + [step]) == Apply(After(c, quota, n, steps), quota, n, step)
  {
    assert (steps + [step])[..|steps|] == steps;
  }

  /** A caller that starts, misses its cluster, and counts below the quota. */
  lemma PassOne(c: Cloud, quota: nat, n: nat, q: nat, org: string)
    requires q !in c.callers && |c.callers| < n && |c.clusters| < quota
    ensures After(c, quota, n, [Start(q, org)] + [Get(q, Missing)] + [Count(q, true)]) ==
            c.(callers := c.callers[q := Caller(org, AtPut, 0)])
  {
    var s1 := [Start(q, org)];
    assert [] + s1 == s1;
    Then(c, quota, n, [], Start(q, org));
    Then(c, quota, n, s1, Get(q, Missing));
    Then(c, quota, n, s1 + [Get(q, Missing)], Count(q, true));
    UpdateTwice(c.callers, q, Caller(org, AtGet(false), 0), Caller(org, AtCount, 0));
    UpdateTwice(c.callers, q, Caller(org, AtCount, 0), Caller(org, AtPut, 0));
  }

  lemma UpdateTwice(m: map<nat, Caller>, q: nat, x: Caller, y: Caller)
    ensures m[q := x][q := y] == m[q := y]
  {
  }

  lemma WaitingSnoc(orgs: seq<string>, k: nat)
    requires k < |orgs|
    ensures k !in Waiting(orgs, k) && |Waiting(orgs, k)| == k
    ensures Waiting(orgs, k + 1) == Waiting(orgs, k)[k := Caller(orgs[k], AtPut, 0)]
  {
    var w := Waiting(orgs, k);
    assert w.Keys == Range(k) && |w| == |w.Keys|;
  }

  lemma {:induction false} AllPassTheCheck(clusters: set<string>, quota: nat, orgs: seq<string>, k: nat)
    returns (steps: seq<Step>)
    requires |clusters| < quota && k <= |orgs|
    ensures After(Cloud(clusters, map[]), quota, |orgs|, steps) == Cloud(clusters, Waiting(orgs, k))
  {
    steps := [];
    if k == 0 {
      assert Waiting(orgs, 0) == map[];
    } else {
      var before := AllPassTheCheck(clusters, quota, orgs, k - 1);
      var q := k - 1;
      WaitingSnoc(orgs, q);
      var more := [Start(q, orgs[q])] + [Get(q, Missing)] + [Count(q, true)];
      PassOne(Cloud(clusters, Waiting(orgs, q)), quota, |orgs|, q, orgs[q]);
      AfterConcat(Cloud(clusters, map[]), quota, |orgs|, before, more);
      steps := before + more;
    }
  }

  function Orgs(orgs: seq<string>, k: nat): set<string>
    requires k <= |orgs|
  {
    if k == 0 then {} else Orgs(orgs, k - 1) + {orgs[k-1]}
  }

  lemma {:induction false} NewOrg(orgs: seq<string>, k: nat, x: string)
    requires k <= |orgs| && forall i :: 0 <= i < k ==> orgs[i] != x
    ensures x !in Orgs(orgs, k)
  {
    if k > 0 {
      NewOrg(orgs, k - 1, x);
    }
  }

  lemma {:induction false} OrgsSize(orgs: seq<string>, k: nat)
    requires k <= |orgs| && Distinct(orgs)
    ensures |Orgs(orgs, k)| == k
  {
    if k > 0 {
      OrgsSize(orgs, k - 1);
      OrgsGrow(orgs, k - 1);
    }
  }

  lemma OrgsGrow(orgs: seq<string>, k: nat)
    requires k < |orgs| && Distinct(orgs)
    ensures |Orgs(orgs, k + 1)| == |Orgs(orgs, k)| + 1
  {
    NewOrg(orgs, k, orgs[k]);
    OneLarger(Orgs(orgs, k), orgs[k]);
  }

  lemma OneLarger(s: set<string>, x: string)
    requires x !in s
    ensures |s + {x}| == |s| + 1
  {
  }

  /** The callers from `k` on have still to post. */
  predicate StillToPost(c: Cloud, orgs: seq<string>, k: nat) {
    forall q :: k <= q < |orgs| ==> q in c.callers && c.callers[q] == Caller(orgs[q], AtPut, 0)
  }

  lemma PostOne(c: Cloud, quota: nat, n: nat, orgs: seq<string>, k: nat)
    requires k < |orgs| && StillToPost(c, orgs, k)
    ensures var d := Apply(c, quota, n, Post(k, Accepted));
            d.clusters == c.clusters + {orgs[k]} && StillToPost(d, orgs, k + 1)
  {
  }

  lemma UnionAssoc(a: set<string>, b: set<string>, c: set<string>)
    ensures (a + b) + c == a + (b + c)
  {
  }

  lemma {:induction false} AllPost(c: Cloud, quota: nat, orgs: seq<string>, k: nat) returns (steps: seq<Step>)
    requires k <= |orgs| && StillToPost(c, orgs, 0)
    ensures var d := After(c, quota, |orgs|, steps); d.clusters == c.clusters + Orgs(orgs, k) && StillToPost(d, orgs, k)
  {
    if k == 0 {
      steps := [];
      assert c.clusters + {} == c.clusters;
    } else {
      var before := AllPost(c, quota, orgs, k - 1);
      steps := PostOneMore(c, quota, orgs, k - 1, before);
    }
  }

  lemma PostOneMore(c: Cloud, quota: nat, orgs: seq<string>, k: nat, before: seq<Step>) returns (steps: seq<Step>)
    requires k < |orgs|
    requires var d := After(c, quota, |orgs|, before);
             d.clusters == c.clusters + Orgs(orgs, k) && StillToPost(d, orgs, k)
    ensures var d := After(c, quota, |orgs|, steps);
            d.clusters == c.clusters + Orgs(orgs, k + 1) && StillToPost(d, orgs, k + 1)
  {
    var d := After(c, quota, |orgs|, before);
    var step := Post(k, Accepted);
    steps := before + [step];
    Then(c, quota, |orgs|, before, step);
    PostOne(d, quota, |orgs|, orgs, k);
    UnionAssoc(c.clusters, Orgs(orgs, k), {orgs[k]});
  }

  lemma {:induction false} AfterConcat(c: Cloud, quota: nat, n: nat, a: seq<Step>, b: seq<Step>)
    ensures After(c, quota, n, a + b) == After(After(c, quota, n, a), quota, n, b)
    decreases |b|
  {
    if b == [] {
      assert a + b == a;
    } else {
      assert (a + b)[..|a + b|-1] == a + b[..|b|-1];
      AfterConcat(c, quota, n, a, b[..|b|-1]);
    }
  }

  /** The bound is exact: with n callers for new organizations, quota + n - 1 clusters can come to exist. */
  lemma BoundIsReached(clusters: set<string>, quota: nat, orgs: seq<string>) returns (steps: seq<Step>)
    requires |clusters| == quota - 1 && Distinct(orgs) && forall o :: o in orgs ==> o !in clusters
    ensures |After(Cloud(clusters, map[]), quota, |orgs|, steps).clusters| == quota + |orgs| - 1
  {
    var c, n := Cloud(clusters, map[]), |orgs|;
    var first := AllPassTheCheck(clusters, quota, orgs, n);
    var d := Cloud(clusters, Waiting(orgs, n));
    var second := AllPost(d, quota, orgs, n);
    AfterConcat(c, quota, n, first, second);
    steps := first + second;
    OrgsSize(orgs, n);
    forall x | x in clusters ensures x !in Orgs(orgs, n) {
      NewOrg(orgs, n, x);
    }
    assert |clusters + Orgs(orgs, n)| == |clusters| + |Orgs(orgs, n)|;
  }

  // ---------------------------------------------------------------- one call by itself

  /** Every count that succeeded found `n` clusters. */
  predicate Counted(rounds: seq<Round>, n: nat) {
    forall i :: 0 <= i < |rounds| && rounds[i].seen.Missing? && rounds[i].count.Some? ==> rounds[i].count.value == n
  }

  /** The caller made a cluster or not, it is still waiting or gone, and nothing else changed. */
  predicate Called(c: Cloud, d: Cloud, q: nat, org: string, made: bool, waiting: bool) {
    && d.clusters == c.clusters + (if made then {org} else {})
    && d.callers - {q} == c.callers - {q} && (q in d.callers <==> waiting)
  }

  /** Steps of this caller only. */
  predicate OwnSteps(steps: seq<Step>, q: nat) {
    forall i :: 0 <= i < |steps| ==> !steps[i].Start? && !steps[i].Delete? && steps[i].q == q
  }

  lemma AfterFirst(c: Cloud, quota: nat, n: nat, a: Step, rest: seq<Step>)
    ensures After(c, quota, n, [a] + rest) == After(Apply(c, quota, n, a), quota, n, rest)
  {
    Then(c, quota, n, [], a);
    assert [] + [a] == [a];
    AfterConcat(c, quota, n, [a], rest);
  }

  /** A call of the code is a run of the caller: the same cluster made, and at an end for the same answers. */
  lemma {:induction false} CallIsRun(c: Cloud, quota: nat, n: nat, q: nat, rounds: seq<Round>)
    returns (steps: seq<Step>)
    requires q in c.callers && c.callers[q].pc == AtGet(false) && Counted(rounds, |c.clusters|)
    ensures OwnSteps(steps, q)
    ensures Called(c, After(c, quota, n, steps), q, c.callers[q].org, MadeCluster(Sent(rounds, quota)),
                   Run(rounds, quota, false).0.StillWaiting?)
    decreases |rounds|
  {
    if rounds == [] {
      steps := [];
      NothingAdded(c);
    } else {
      var r, rest := rounds[0], rounds[1..];
      var get := Get(q, r.seen);
      var d := Apply(c, quota, n, get);
      NothingAdded(c);
      if r.seen.NotWorking? || r.seen.Pending? {
        assert forall i :: 0 <= i < |rest| ==> rest[i] == rounds[i+1];
        var more := CallIsRun(c, quota, n, q, rest);
        AfterFirst(c, quota, n, get, more);
        steps := [get] + more;
      } else if r.seen.Missing? {
        var more := CountAndPut(d, quota, n, q, rounds);
        AfterFirst(c, quota, n, get, more);
        steps := [get] + more;
      } else {
        AfterFirst(c, quota, n, get, []);
        assert [get] + [] == [get];
        steps := [get];
      }
    }
  }

  lemma NothingAdded(c: Cloud)
    ensures c.clusters + {} == c.clusters
  {
  }

  lemma CountAndPut(c: Cloud, quota: nat, n: nat, q: nat, rounds: seq<Round>) returns (steps: seq<Step>)
    requires q in c.callers && c.callers[q].pc.AtCount?
    requires rounds != [] && rounds[0].seen.Missing? && Counted(rounds, |c.clusters|)
    ensures OwnSteps(steps, q)
    ensures Called(c, After(c, quota, n, steps), q, c.callers[q].org, MadeCluster(Sent(rounds, quota)),
                   Run(rounds, quota, false).0.StillWaiting?)
  {
    var r, rest := rounds[0], rounds[1..];
    var count := Count(q, r.count.Some?);
    var d := Apply(c, quota, n, count);
    NothingAdded(c);
    if r.count.None? || r.count.value >= quota {
      AfterFirst(c, quota, n, count, []);
      assert [count] + [] == [count];
      steps := [count];
    } else {
      var more := PutAndWait(d, quota, n, q, r.put, rest);
      AfterFirst(c, quota, n, count, more);
      steps := [count] + more;
    }
  }

  lemma PutAndWait(c: Cloud, quota: nat, n: nat, q: nat, put: PutReply, rest: seq<Round>) returns (steps: seq<Step>)
    requires q in c.callers && c.callers[q].pc.AtPut?
    ensures OwnSteps(steps, q)
    ensures Called(c, After(c, quota, n, steps), q, c.callers[q].org, MadeCluster(Some(put)),
                   (put.Accepted? || put.OtherStatus?) && Run(rest, quota, true).0.StillWaiting?)
  {
    var post := Post(q, put);
    var d := Apply(c, quota, n, post);
    NothingAdded(c);
    if put.Accepted? || put.OtherStatus? {
      var more := Waits(d, quota, n, q, rest);
      AfterFirst(c, quota, n, post, more);
      steps := [post] + more;
    } else {
      AfterFirst(c, quota, n, post, []);
      assert [post] + [] == [post];
      steps := [post];
    }
  }

  /** After its PUT the caller makes no cluster any more. */
  lemma {:induction false} Waits(c: Cloud, quota: nat, n: nat, q: nat, rounds: seq<Round>) returns (steps: seq<Step>)
    requires q in c.callers && c.callers[q].pc == AtGet(true)
    ensures OwnSteps(steps, q)
    ensures Called(c, After(c, quota, n, steps), q, c.callers[q].org, false, Run(rounds, quota, true).0.StillWaiting?)
    decreases |rounds|
  {
    NothingAdded(c);
    if rounds == [] {
      steps := [];
    } else {
      var get := Get(q, rounds[0].seen);
      if rounds[0].seen.NotWorking? || rounds[0].seen.Pending? {
        var more := Waits(c, quota, n, q, rounds[1..]);
        AfterFirst(c, quota, n, get, more);
        steps := [get] + more;
      } else {
        AfterFirst(c, quota, n, get, []);
        assert [get] + [] == [get];
        steps := [get];
      }
    }
  }
}
