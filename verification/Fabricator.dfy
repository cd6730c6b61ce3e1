/** Creating and deleting the objects of a service instance: k8s/k8sfabricator.go. */
module Fabricator {
  import opened Text
  import opened Decimal
  import opened Cluster
  import opened State

  datatype Component = Component(
    secrets: seq<Object>, claims: seq<Object>, statefulSets: seq<Object>, deployments: seq<Object>,
    services: seq<Object>, serviceAccounts: seq<Object>
  )

  /** The extra user parameter: absent, not valid JSON, or a variable (which may have an empty name). */
  datatype Parameters = NoParameters | BadJson | Variable(env: EnvVar)

  /** One of the six blocks of `FabricateService`. */
  datatype Stage = Stage(header: string, item: string, objects: seq<Object>)

  datatype Outcome = Fabricated | NoClient | BadParameters | CreateFailed(stage: nat, index: nat)

  const FAILED := "FAILED"
  const FAB_OK := "IN_PROGRESS_FAB_OK"

  /** The C-identifier form of a parameter name: `_` doubled, then `-` to `_`. */
  function EscapedName(name: string): string {
    ReplaceAll(ReplaceAll(name, "_", "__"), "-", "_")
  }

  function ExtraEnv(parameters: Parameters, space: string): seq<EnvVar> {
    var tap := [EnvVar("TAP_K8S", "true", NoSource)];
    if parameters.Variable? && parameters.env.name != "" then
      tap + [parameters.env.(name := EscapedName(parameters.env.name + "_" + space))]
    else tap
  }

  function WithEnv(o: Object, extra: seq<EnvVar>): Object {
    o.(containers := seq(|o.containers|, i requires 0 <= i < |o.containers| =>
        o.containers[i].(env := o.containers[i].env + extra)))
  }

  function AllWithEnv(os: seq<Object>, extra: seq<EnvVar>): (r: seq<Object>)
    ensures |r| == |os| && forall i :: 0 <= i < |os| ==> r[i] == WithEnv(os[i], extra)
  {
    seq(|os|, i requires 0 <= i < |os| => WithEnv(os[i], extra))
  }

  function Stages(c: Component, extra: seq<EnvVar>): (s: seq<Stage>)
    ensures |s| == 6
  {
    [
      Stage("IN_PROGRESS_CREATING_SECRETS", "IN_PROGRESS_CREATING_SECRET", c.secrets),
      Stage("IN_PROGRESS_CREATING_PERSIST_VOL_CLAIMS", "IN_PROGRESS_CREATING_PERSIST_VOL_CLAIM", c.claims),
      Stage("IN_PROGRESS_CREATING_STATEFULSETS", "IN_PROGRESS_CREATING_STATEFULSET", AllWithEnv(c.statefulSets, extra)),
      Stage("IN_PROGRESS_CREATING_DEPLOYMENTS", "IN_PROGRESS_CREATING_DEPLOYMENT", AllWithEnv(c.deployments, extra)),
      Stage("IN_PROGRESS_CREATING_SVCS", "IN_PROGRESS_CREATING_SVC", c.services),
      Stage("IN_PROGRESS_CREATING_ACCS", "IN_PROGRESS_CREATING_ACC", c.serviceAccounts)
    ]
  }

  /** The objects of the first `k` stages, in order. */
  function Items(stages: seq<Stage>): seq<Object> {
    if stages == [] then [] else Items(stages[..|stages|-1]) + stages[|stages|-1].objects
  }

  /** The reports of a stage before its `n`-th object, header included. */
  function StageReports(s: Stage, n: nat): (r: seq<string>)
    ensures |r| == n + 1
  {
    if n == 0 then [s.header] else StageReports(s, n - 1) + [s.item + Itoa(n - 1)]
  }

  function Reports(stages: seq<Stage>): seq<string> {
    if stages == [] then []
        else Reports(stages[..|stages|-1]) + StageReports(stages[|stages|-1], |stages[|stages|-1].objects|)
  }

  /** The whole schedule of a component: the reports of the six stages and the closing one. */
  function Schedule(stages: seq<Stage>): seq<string> {
    Reports(stages) + [FAB_OK]
  }

  /** The reports up to and including that of object `m` of stage `k`. */
  function ReportsTo(stages: seq<Stage>, k: nat, m: nat): seq<string>
    requires k < |stages|
  {
    Reports(stages[..k]) + StageReports(stages[k], m + 1)
  }

  /** The objects before object `m` of stage `k`. */
  function ItemsTo(stages: seq<Stage>, k: nat, m: nat): seq<Object>
    requires k < |stages| && m <= |stages[k].objects|
  {
    Items(stages[..k]) + stages[k].objects[..m]
  }

  /** The reports are these states of one instance; only the last is an error, and only if `failed`. */
  ghost predicate Says(rs: seq<Report>, guid: string, states: seq<string>, failed: bool) {
    && |rs| == |states|
    && (forall i :: 0 <= i < |rs| ==>
          rs[i].guid == guid && rs[i].event.state == states[i] && (rs[i].event.failed <==> failed && i == |rs| - 1))
  }

  ghost predicate Grew(before: seq<Report>, after: seq<Report>, guid: string, states: seq<string>, failed: bool) {
    |before| <= |after| && after[..|before|] == before && Says(after[|before|..], guid, states, failed)
  }

  lemma GrewSnoc(before: seq<Report>, mid: seq<Report>, after: seq<Report>, guid: string, states: seq<string>, e: Event)
    requires Grew(before, mid, guid, states, false) && after == mid + [Report(guid, e)]
    ensures Grew(before, after, guid, states + [e.state], e.failed)
  {
    assert after[..|before|] == mid[..|before|];
    assert after[|before|..] == mid[|before|..] + [Report(guid, e)];
  }

  /** One more report of an instance. */
  method File(ss: StateService, id: string, state: string, failed: bool, ghost start: seq<Report>,
              ghost states: seq<string>)
    requires ss.Valid() && Grew(start, ss.log, id, states, false)
    modifies ss`records, ss`log
    ensures ss.Valid() && Grew(start, ss.log, id, states + [state], failed)
  {
    ghost var mid := ss.log;
    ss.ReportProgress(id, state, failed);
    GrewSnoc(start, mid, ss.log, id, states, Event(ss.now, state, failed));
  }

  lemma {:induction false} AddAllConcat(objects: Objects, a: seq<Object>, b: seq<Object>)
    ensures AddAll(objects, a + b) == AddAll(AddAll(objects, a), b)
  {
    if b == [] {
      assert a + b == a;
    } else {
      assert (a + b)[..|a + b|-1] == a + b[..|b|-1];
      AddAllConcat(objects, a, b[..|b|-1]);
    }
  }

  predicate DistinctKeys(os: seq<Object>) {
    forall i, j :: 0 <= i < j < |os| ==> os[i].Key() != os[j].Key()
  }

  /** The objects `os` were created, none of them over an existing one. */
  ghost predicate Added(before: Objects, after: Objects, os: seq<Object>) {
    after == AddAll(before, os) && DistinctKeys(os) && forall o :: o in os ==> o.Key() !in before
  }

  /** All of these objects can be created: their names are distinct and new. */
  ghost predicate CanAdd(objects: Objects, os: seq<Object>) {
    DistinctKeys(os) && forall o :: o in os ==> o.Key() !in objects
  }

  lemma CanAddAfter(objects: Objects, a: seq<Object>, b: seq<Object>)
    requires CanAdd(objects, a + b)
    ensures CanAdd(AddAll(objects, a), b)
  {
    AddAllKeys(objects, a);
    var all := a + b;
    forall o | o in b ensures o.Key() !in AddAll(objects, a) {
      var j :| 0 <= j < |b| && b[j] == o;
      assert all[|a|+j] == o && o in all;
      forall c | c in a ensures c.Key() != o.Key() {
        var i :| 0 <= i < |a| && a[i] == c;
        assert all[i] == c;
      }
    }
    forall i, j | 0 <= i < j < |b| ensures b[i].Key() != b[j].Key() {
      assert all[|a|+i] == b[i] && all[|a|+j] == b[j];
    }
  }

  lemma CanAddPrefix(objects: Objects, os: seq<Object>, all: seq<Object>)
    requires os <= all && CanAdd(objects, all)
    ensures CanAdd(objects, os)
  {
    assert forall i :: 0 <= i < |os| ==> os[i] == all[i];
  }

  /** The keys after the creation are the old ones and those of the created objects. */
  lemma {:induction false} AddAllKeys(objects: Objects, os: seq<Object>)
    ensures objects.Keys <= AddAll(objects, os).Keys
    ensures forall o :: o in os ==> o.Key() in AddAll(objects, os)
    ensures forall k :: k in AddAll(objects, os) ==> k in objects || exists o :: o in os && o.Key() == k
  {
    if os != [] {
      var init, last := os[..|os|-1], os[|os|-1];
      AddAllKeys(objects, init);
      assert os == init + [last];
    }
  }

  lemma AddedSnoc(before: Objects, os: seq<Object>, n: nat)
    requires n < |os| && Added(before, AddAll(before, os[..n]), os[..n]) && os[n].Key() !in AddAll(before, os[..n])
    ensures Added(before, AddAll(before, os[..n])[os[n].Key() := os[n]], os[..n+1])
  {
    assert os[..n+1][..n] == os[..n] && os[..n+1] == os[..n] + [os[n]];
    AddAllKeys(before, os[..n]);
    forall i | 0 <= i < n ensures os[i].Key() != os[n].Key() {
      assert os[i] == os[..n][i] && os[..n][i] in os[..n];
    }
    assert forall i, j :: 0 <= i < j < n ==> os[..n][i].Key() != os[..n][j].Key();
  }

  lemma AddedConcat(a: Objects, b: Objects, c: Objects, os: seq<Object>, more: seq<Object>)
    requires Added(a, b, os) && Added(b, c, more)
    ensures Added(a, c, os + more)
  {
    AddAllConcat(a, os, more);
    AddAllKeys(a, os);
    var all := os + more;
    forall i, j | 0 <= i < j < |all| ensures all[i].Key() != all[j].Key() {
      if i < |os| <= j {
        assert os[i] in os && more[j-|os|] in more;
      }
    }
  }

  /** One block: its header, and for each object a report and a create call; it stops at the first error. */
  method CreateStage(api: Api, ss: StateService, id: string, s: Stage) returns (ok: bool, n: nat)
    requires api.Valid() && ss.Valid()
    modifies api, ss`records, ss`log
    ensures api.Valid() && ss.Valid() && n <= |s.objects|
    ensures ok ==> n == |s.objects| && Added(old(api.objects), api.objects, s.objects)
    ensures ok ==> Grew(old(ss.log), ss.log, id, StageReports(s, n), false)
    ensures !ok ==> n < |s.objects| && Grew(old(ss.log), ss.log, id, StageReports(s, n + 1) + [FAILED], true)
    ensures !ok ==>
              || Added(old(api.objects), api.objects, s.objects[..n])
              || Added(old(api.objects), api.objects, s.objects[..n+1])
    ensures AllDone(old(api.script)) ==> AllDone(api.script) && (CanAdd(old(api.objects), s.objects) ==> ok)
  {
    ghost var start := ss.log;
    File(ss, id, s.header, false, start, []);
    assert [] + [s.header] == StageReports(s, 0);
    n := 0;
    while n < |s.objects|
      invariant n <= |s.objects| && api.Valid() && ss.Valid()
      invariant Added(old(api.objects), api.objects, s.objects[..n])
      invariant Grew(old(ss.log), ss.log, id, StageReports(s, n), false)
      invariant AllDone(old(api.script)) ==> AllDone(api.script)
    {
      File(ss, id, s.item + Itoa(n), false, start, StageReports(s, n));
      ghost var now := api.objects;
      var created := api.Create(s.objects[n]);
      if api.objects != now {
        AddedSnoc(old(api.objects), s.objects, n);
      }
      if !created {
        if AllDone(old(api.script)) && CanAdd(old(api.objects), s.objects) {
          NextCanBeAdded(old(api.objects), s.objects, n);
          assert false;
        }
        File(ss, id, FAILED, true, start, StageReports(s, n + 1));
        return false, n;
      }
      n := n + 1;
    }
    assert s.objects[..n] == s.objects;
    return true, n;
  }

  lemma NextCanBeAdded(objects: Objects, os: seq<Object>, n: nat)
    requires n < |os| && CanAdd(objects, os)
    ensures os[n].Key() !in AddAll(objects, os[..n])
  {
    assert os == os[..n] + os[n..];
    CanAddAfter(objects, os[..n], os[n..]);
    assert os[n..][0] == os[n];
  }

  lemma GrewConcat(a: seq<Report>, b: seq<Report>, c: seq<Report>, guid: string, s: seq<string>, t: seq<string>,
                   failed: bool)
    requires Grew(a, b, guid, s, false) && Grew(b, c, guid, t, failed) && t != []
    ensures Grew(a, c, guid, s + t, failed)
  {
    assert c[..|a|] == b[..|a|];
    assert c[|a|..] == b[|a|..] + c[|b|..];
  }

  /** The state of the cluster and the log after the first `k` stages. */
  ghost predicate StagesDone(stages: seq<Stage>, k: nat, id: string, objects: Objects, now: Objects, start: seq<Report>,
                             log: seq<Report>)
  {
    && k <= |stages|
    && Added(objects, now, Items(stages[..k]))
    && Grew(start, log, id, Reports(stages[..k]), false)
  }

  /** What a run over the blocks has created and reported, with the place of the failed creation, if any. */
  ghost predicate Ran(stages: seq<Stage>, id: string, objects: Objects, now: Objects, start: seq<Report>,
                      log: seq<Report>,
                      failure: Option<(nat, nat)>)
  {
    if failure.None? then Added(objects, now, Items(stages)) && Grew(start, log, id, Reports(stages), false)
    else
      var k, m := failure.value.0, failure.value.1;
      && k < |stages| && m < |stages[k].objects|
      && Grew(start, log, id, ReportsTo(stages, k, m) + [FAILED], true)
      && (Added(objects, now, ItemsTo(stages, k, m)) || Added(objects, now, ItemsTo(stages, k, m + 1)))
  }

  /** The blocks in order, up to the first failed creation. */
  method CreateStages(api: Api, ss: StateService, id: string, stages: seq<Stage>) returns (failure: Option<(nat, nat)>)
    requires api.Valid() && ss.Valid()
    modifies api, ss`records, ss`log
    ensures api.Valid() && ss.Valid()
    ensures Ran(stages, id, old(api.objects), api.objects, old(ss.log), ss.log, failure)
    ensures AllDone(old(api.script)) ==> AllDone(api.script)
    ensures AllDone(old(api.script)) && failure.Some? ==> !CanAdd(old(api.objects), Items(stages))
  {
    ghost var objects, start := api.objects, ss.log;
    assert stages[..0] == [];
    for k := 0 to |stages|
      invariant api.Valid() && ss.Valid()
      invariant StagesDone(stages, k, id, objects, api.objects, start, ss.log)
      invariant AllDone(old(api.script)) ==> AllDone(api.script)
    {
      ghost var before, mid := api.objects, ss.log;
      var ok, n := CreateStage(api, ss, id, stages[k]);
      if !ok {
        StageFailed(stages, k, n, id, objects, before, api.objects, start, mid, ss.log);
        if CanAdd(objects, Items(stages)) {
          StageCanBeAdded(objects, stages, k);
        }
        return Some((k, n));
      }
      NextStage(stages, k, id, objects, before, api.objects, start, mid, ss.log);
    }
    assert stages[..|stages|] == stages;
    return None;
  }

  // ---------------------------------------------------------------- what is created and reported, piece by piece

  /** A container's variables: its own, `TAP_K8S`, and then the user's, if it has a name. */
  predicate Vars(env: seq<EnvVar>, given: seq<EnvVar>, parameters: Parameters, space: string) {
    var n := |given|;
    && n < |env| && env[..n] == given && env[n] == EnvVar("TAP_K8S", "true", NoSource)
    && if parameters.Variable? && parameters.env.name != "" then
         && |env| == n + 2 && env[n+1].value == parameters.env.value && env[n+1].from == parameters.env.from
         && env[n+1].name == Escaped(parameters.env.name + "_" + space)
       else |env| == n + 1
  }

  /** A workload as it was given, but for what its containers got. */
  predicate WithVars(o: Object, given: Object, parameters: Parameters, space: string) {
    && o.kind == given.kind && o.name == given.name && o.labels == given.labels && o.data == given.data
    && |o.containers| == |given.containers|
    && forall i :: 0 <= i < |o.containers| ==>
         && o.containers[i].name == given.containers[i].name
         && Vars(o.containers[i].env, given.containers[i].env, parameters, space)
  }

  predicate AllWithVars(os: seq<Object>, given: seq<Object>, parameters: Parameters, space: string) {
    |os| == |given| && forall i :: 0 <= i < |os| ==> WithVars(os[i], given[i], parameters, space)
  }

  /** The objects of a component in the order of their creation. */
  ghost predicate MadeFrom(os: seq<Object>, c: Component, parameters: Parameters, space: string) {
    exists sets: seq<Object>, deployments: seq<Object> ::
      && os == c.secrets + (c.claims + (sets + (deployments + (c.services + c.serviceAccounts))))
      && AllWithVars(sets, c.statefulSets, parameters, space)
      && AllWithVars(deployments, c.deployments, parameters, space)
  }

  /** The reports of one kind of objects: a header, and one with its number for each. */
  function Block(header: string, item: string, n: nat): seq<string> {
    [header] + seq(n, i requires 0 <= i < n => item + Itoa(i))
  }

  /** All reports of a component's creation. */
  function AllReports(c: Component): seq<string> {
    Block("IN_PROGRESS_CREATING_SECRETS", "IN_PROGRESS_CREATING_SECRET", |c.secrets|) +
    (Block("IN_PROGRESS_CREATING_PERSIST_VOL_CLAIMS", "IN_PROGRESS_CREATING_PERSIST_VOL_CLAIM", |c.claims|) +
     (Block("IN_PROGRESS_CREATING_STATEFULSETS", "IN_PROGRESS_CREATING_STATEFULSET", |c.statefulSets|) +
      (Block("IN_PROGRESS_CREATING_DEPLOYMENTS", "IN_PROGRESS_CREATING_DEPLOYMENT", |c.deployments|) +
       (Block("IN_PROGRESS_CREATING_SVCS", "IN_PROGRESS_CREATING_SVC", |c.services|) +
        (Block("IN_PROGRESS_CREATING_ACCS", "IN_PROGRESS_CREATING_ACC", |c.serviceAccounts|) +
         ["IN_PROGRESS_FAB_OK"])))))
  }

  lemma {:induction false} BlockReports(s: Stage, n: nat)
    ensures StageReports(s, n) == Block(s.header, s.item, n)
  {
    if n > 0 {
      BlockReports(s, n - 1);
      assert seq(n, i requires 0 <= i < n => s.item + Itoa(i)) ==
             seq(n - 1, i requires 0 <= i < n - 1 => s.item + Itoa(i)) + [s.item + Itoa(n - 1)];
    }
  }

  lemma ItemsSnoc(stages: seq<Stage>, k: nat)
    requires k < |stages|
    ensures Items(stages[..k+1]) == Items(stages[..k]) + stages[k].objects
  {
    assert stages[..k+1][..k] == stages[..k];
  }

  lemma SixParts<T>(a: seq<T>, b: seq<T>, c: seq<T>, d: seq<T>, e: seq<T>, f: seq<T>, g: seq<T>)
    ensures [] + (a + (b + c)) + (d + (e + f)) == a + (b + (c + (d + (e + f))))
    ensures [] + (a + (b + c)) + (d + (e + f)) + g == a + (b + (c + (d + (e + (f + g)))))
  {
  }

  lemma ThreeParts<T>(x: seq<T>, a: seq<T>, b: seq<T>, c: seq<T>)
    ensures x + a + b + c == x + (a + (b + c))
  {
  }

  lemma ThreeStages(stages: seq<Stage>, k: nat)
    requires k + 3 <= |stages|
    ensures Items(stages[..k+3]) ==
            Items(stages[..k]) + (stages[k].objects + (stages[k+1].objects + stages[k+2].objects))
  {
    ItemsSnoc(stages, k);
    ItemsSnoc(stages, k + 1);
    ItemsSnoc(stages, k + 2);
    ThreeParts(Items(stages[..k]), stages[k].objects, stages[k+1].objects, stages[k+2].objects);
  }

  lemma SixStages(stages: seq<Stage>)
    requires |stages| == 6
    ensures Items(stages) == stages[0].objects + (stages[1].objects + (stages[2].objects + (stages[3].objects +
                             (stages[4].objects + stages[5].objects))))
  {
    assert stages[..0] == [] && stages[..6] == stages;
    ThreeStages(stages, 0);
    ThreeStages(stages, 3);
    SixParts(stages[0].objects, stages[1].objects, stages[2].objects, stages[3].objects, stages[4].objects,
             stages[5].objects, []);
  }

  function BlockOf(s: Stage): seq<string> {
    Block(s.header, s.item, |s.objects|)
  }

  lemma ReportsSnoc(stages: seq<Stage>, k: nat)
    requires k < |stages|
    ensures Reports(stages[..k+1]) == Reports(stages[..k]) + BlockOf(stages[k])
  {
    assert stages[..k+1][..k] == stages[..k];
    BlockReports(stages[k], |stages[k].objects|);
  }

  lemma ThreeBlocks(stages: seq<Stage>, k: nat)
    requires k + 3 <= |stages|
    ensures Reports(stages[..k+3]) ==
            Reports(stages[..k]) + (BlockOf(stages[k]) + (BlockOf(stages[k+1]) + BlockOf(stages[k+2])))
  {
    ReportsSnoc(stages, k);
    ReportsSnoc(stages, k + 1);
    ReportsSnoc(stages, k + 2);
    ThreeParts(Reports(stages[..k]), BlockOf(stages[k]), BlockOf(stages[k+1]), BlockOf(stages[k+2]));
  }

  lemma SixBlocks(stages: seq<Stage>, end: seq<string>)
    requires |stages| == 6
    ensures Reports(stages) + end ==
            BlockOf(stages[0]) + (BlockOf(stages[1]) + (BlockOf(stages[2]) + (BlockOf(stages[3]) +
            (BlockOf(stages[4]) + (BlockOf(stages[5]) + end)))))
  {
    assert stages[..0] == [] && stages[..6] == stages;
    ThreeBlocks(stages, 0);
    ThreeBlocks(stages, 3);
    SixParts(BlockOf(stages[0]), BlockOf(stages[1]), BlockOf(stages[2]), BlockOf(stages[3]), BlockOf(stages[4]),
             BlockOf(stages[5]), end);
  }

  lemma VarsGiven(env: seq<EnvVar>, parameters: Parameters, space: string)
    ensures Vars(env + ExtraEnv(parameters, space), env, parameters, space)
  {
    var all := env + ExtraEnv(parameters, space);
    assert all[..|env|] == env;
    if parameters.Variable? {
      EscapedByCharacter(parameters.env.name + "_" + space);
    }
  }

  lemma WorkloadsGiven(os: seq<Object>, parameters: Parameters, space: string)
    ensures AllWithVars(AllWithEnv(os, ExtraEnv(parameters, space)), os, parameters, space)
  {
    forall i | 0 <= i < |os| ensures WithVars(WithEnv(os[i], ExtraEnv(parameters, space)), os[i], parameters, space) {
      forall j | 0 <= j < |os[i].containers|
        ensures Vars(os[i].containers[j].env + ExtraEnv(parameters, space), os[i].containers[j].env, parameters, space)
      {
        VarsGiven(os[i].containers[j].env, parameters, space);
      }
    }
  }

  /** What the stages of a component come to: its objects in their order, and its reports. */
  lemma StagesMean(c: Component, parameters: Parameters, space: string)
    ensures var stages := Stages(c, ExtraEnv(parameters, space));
            MadeFrom(Items(stages), c, parameters, space) && Schedule(stages) == AllReports(c)
  {
    var extra := ExtraEnv(parameters, space);
    var stages := Stages(c, extra);
    SixStages(stages);
    SixBlocks(stages, [FAB_OK]);
    WorkloadsGiven(c.statefulSets, parameters, space);
    WorkloadsGiven(c.deployments, parameters, space);
    var sets, deployments := AllWithEnv(c.statefulSets, extra), AllWithEnv(c.deployments, extra);
    assert Items(stages) == c.secrets + (c.claims + (sets + (deployments + (c.services + c.serviceAccounts))));
  }

  method FabricateService(api: Api, ss: StateService, hasClient: bool, space: string, id: string,
                          parameters: Parameters,
                          component: Component) returns (r: Outcome)
    requires api.Valid() && ss.Valid()
    modifies api, ss`records, ss`log
    ensures api.Valid() && ss.Valid()
    ensures r.NoClient? || r.BadParameters? ==> api.objects == old(api.objects) && ss.log == old(ss.log)
    ensures r.NoClient? <==> !hasClient
    ensures r.BadParameters? <==> hasClient && parameters.BadJson?
    ensures AllDone(old(api.script)) ==> AllDone(api.script)
    ensures AllDone(old(api.script)) && r.CreateFailed? ==>
              !CanAdd(old(api.objects), Items(Stages(component, ExtraEnv(parameters, space))))
    ensures var stages := Stages(component, ExtraEnv(parameters, space));
            && (r.Fabricated? ==>
                  && Added(old(api.objects), api.objects, Items(stages))
                  && Grew(old(ss.log), ss.log, id, Schedule(stages), false))
            && (r.CreateFailed? ==>
                Ran(stages, id, old(api.objects), api.objects, old(ss.log), ss.log, Some((r.stage, r.index))))
  {
    StagesMean(component, parameters, space);
    if !hasClient {
      return NoClient;
    }
    if parameters.BadJson? {
      return BadParameters;
    }
    var stages := Stages(component, ExtraEnv(parameters, space));
    ghost var start := ss.log;
    var failure := CreateStages(api, ss, id, stages);
    if failure.Some? {
      return CreateFailed(failure.value.0, failure.value.1);
    }
    File(ss, id, FAB_OK, false, start, Reports(stages));
    return Fabricated;
  }

  lemma NextStage(stages: seq<Stage>, k: nat, id: string, objects: Objects, before: Objects, now: Objects,
                  start: seq<Report>, mid: seq<Report>, log: seq<Report>)
    requires k < |stages| && StagesDone(stages, k, id, objects, before, start, mid)
    requires Added(before, now, stages[k].objects)
    requires Grew(mid, log, id, StageReports(stages[k], |stages[k].objects|), false)
    ensures StagesDone(stages, k + 1, id, objects, now, start, log)
  {
    assert stages[..k+1][..k] == stages[..k];
    AddedConcat(objects, before, now, Items(stages[..k]), stages[k].objects);
    GrewConcat(start, mid, log, id, Reports(stages[..k]), StageReports(stages[k], |stages[k].objects|), false);
  }

  lemma StageCanBeAdded(objects: Objects, stages: seq<Stage>, k: nat)
    requires k < |stages| && CanAdd(objects, Items(stages))
    ensures CanAdd(AddAll(objects, Items(stages[..k])), stages[k].objects)
  {
    StagesGrow(stages, k + 1);
    assert stages[..k+1][..k] == stages[..k];
    CanAddPrefix(objects, Items(stages[..k+1]), Items(stages));
    CanAddAfter(objects, Items(stages[..k]), stages[k].objects);
  }

  lemma StageFailed(stages: seq<Stage>, k: nat, n: nat, id: string, objects: Objects, before: Objects, now: Objects,
                    start: seq<Report>, mid: seq<Report>, log: seq<Report>)
    requires k < |stages| && n < |stages[k].objects| && StagesDone(stages, k, id, objects, before, start, mid)
    requires Added(before, now, stages[k].objects[..n]) || Added(before, now, stages[k].objects[..n+1])
    requires Grew(mid, log, id, StageReports(stages[k], n + 1) + [FAILED], true)
    ensures Grew(start, log, id, ReportsTo(stages, k, n) + [FAILED], true)
    ensures Added(objects, now, ItemsTo(stages, k, n)) || Added(objects, now, ItemsTo(stages, k, n + 1))
  {
    if Added(before, now, stages[k].objects[..n]) {
      AddedConcat(objects, before, now, Items(stages[..k]), stages[k].objects[..n]);
    } else {
      AddedConcat(objects, before, now, Items(stages[..k]), stages[k].objects[..n+1]);
    }
    GrewConcat(start, mid, log, id, Reports(stages[..k]), StageReports(stages[k], n + 1) + [FAILED], true);
    assert Reports(stages[..k]) + (StageReports(stages[k], n + 1) + [FAILED]) == ReportsTo(stages, k, n) + [FAILED];
  }

  // ---------------------------------------------------------------- deletion

  const DELETION_ORDER := [ServiceAccount, Service, StatefulSet, Deployment, Cluster.Secret, Claim]

  /** The objects of some kinds that belong to an instance. */
  function Owned(objects: Objects, kinds: set<Kind>, id: string): set<(Kind, string)> {
    set k | k in objects && k.0 in kinds && objects[k].Labelled(SERVICE_ID_LABEL, id)
  }

  /** The objects lost some of those that belong to the instance, and nothing else. */
  predicate OnlyLost(before: Objects, after: Objects, id: string) {
    after.Keys <= before.Keys && Without(after, id) == Without(before, id) &&
        forall k :: k in after ==> after[k] == before[k]
  }

  /** What is left of the instance's objects of a kind is among the listed ones still to be deleted. */
  ghost predicate Pending(before: Objects, now: Objects, kind: Kind, id: string, list: seq<Object>, i: nat) {
    && i <= |list| && OnlyLost(before, now, id)
    && forall k :: k in now && k.0 == kind && now[k].Labelled(SERVICE_ID_LABEL, id) ==> now[k] in list[i..]
  }

  /** One block: list the kind by label, and delete what was listed; it stops at the first error. */
  method DeleteKind(api: Api, kind: Kind, id: string) returns (ok: bool)
    requires api.Valid()
    modifies api
    ensures api.Valid() && OnlyLost(old(api.objects), api.objects, id)
    ensures ok ==> Owned(api.objects, {kind}, id) == {}
    ensures forall k :: k in old(api.objects) && k.0 != kind ==> k in api.objects
    ensures AllDone(old(api.script)) ==> AllDone(api.script) && ok
  {
    var items := api.List(kind, SERVICE_ID_LABEL, id);
    if items.None? {
      return false;
    }
    var list := items.value;
    ghost var before := api.objects;
    assert list[0..] == list;
    for i := 0 to |list|
      invariant api.Valid() && Pending(before, api.objects, kind, id, list, i)
      invariant forall j :: i <= j < |list| ==> list[j].Key() in api.objects
      invariant forall k :: k in before && k.0 != kind ==> k in api.objects
      invariant AllDone(old(api.script)) ==> AllDone(api.script)
    {
      ghost var now := api.objects;
      var deleted := api.Delete(kind, list[i].name);
      DeleteStep(before, now, api.objects, kind, id, list, i);
      if !deleted {
        return false;
      }
    }
    return true;
  }

  lemma DeleteStep(before: Objects, now: Objects, after: Objects, kind: Kind, id: string, list: seq<Object>, i: nat)
    requires i < |list| && Pending(before, now, kind, id, list, i) && Consistent(now)
    requires list[i].kind == kind && list[i].Key() in before && before[list[i].Key()] == list[i]
    requires list[i].Labelled(SERVICE_ID_LABEL, id)
    requires after == now || after == now - {(kind, list[i].name)}
    ensures OnlyLost(before, after, id)
    ensures (kind, list[i].name) in now && after == now - {(kind, list[i].name)} ==>
              Pending(before, after, kind, id, list, i + 1)
  {
    var key := (kind, list[i].name);
    if key in now {
      LoseOne(before, now, key, id);
    } else {
      assert now - {key} == now;
    }
    assert list[i..] == [list[i]] + list[i+1..];
  }

  lemma LoseOne(before: Objects, now: Objects, k: (Kind, string), id: string)
    requires OnlyLost(before, now, id) && k in now && now[k].Labelled(SERVICE_ID_LABEL, id)
    ensures OnlyLost(before, now - {k}, id)
  {
    assert Without(now - {k}, id) == Without(now, id);
  }

  method DeleteAllByServiceId(api: Api, hasClient: bool, id: string) returns (ok: bool)
    requires api.Valid()
    modifies api
    ensures api.Valid() && OnlyLost(old(api.objects), api.objects, id)
    ensures ok ==> api.objects == Without(old(api.objects), id)
    ensures forall k :: k in api.objects ==> k in old(api.objects) && api.objects[k] == old(api.objects)[k]
    ensures forall k :: k in old(api.objects) && !old(api.objects)[k].Labelled("service_id", id) ==> k in api.objects
    ensures ok ==> forall k :: k in api.objects ==> !api.objects[k].Labelled("service_id", id)
    ensures !ok ==> api.objects == old(api.objects) || exists i :: StoppedAt(old(api.objects), api.objects, id, i)
    ensures AllDone(old(api.script)) ==> AllDone(api.script) && (ok <==> hasClient)
  {
    if !hasClient {
      return false;
    }
    ghost var before := api.objects;
    var order := DELETION_ORDER;
    NothingYet(before, id);
    for i := 0 to |order|
      invariant api.Valid() && Reached(before, api.objects, id, i)
      invariant AllDone(old(api.script)) ==> AllDone(api.script)
    {
      ghost var now := api.objects;
      var deleted := DeleteKind(api, order[i], id);
      OneKind(before, now, api.objects, id, i);
      OthersStay(before, api.objects, id);
      if !deleted {
        return false;
      }
    }
    OthersStay(before, api.objects, id);
    AllKindsGone(before, api.objects, id);
    return true;
  }

  /** The kinds before the `i`-th are gone, the others are all there. */
  predicate Reached(before: Objects, now: Objects, id: string, i: nat) {
    && i <= |DELETION_ORDER| && OnlyLost(before, now, id)
    && (forall j :: 0 <= j < i ==> Owned(now, {DELETION_ORDER[j]}, id) == {})
    && (forall k :: k in before && k.0 in DELETION_ORDER[i..] ==> k in now)
  }

  lemma OthersStay(before: Objects, after: Objects, id: string)
    requires OnlyLost(before, after, id)
    ensures forall k :: k in before && !before[k].Labelled("service_id", id) ==> k in after
  {
    forall k | k in before && !before[k].Labelled("service_id", id) ensures k in after {
      assert k in Without(before, id);
    }
  }

  lemma NothingYet(before: Objects, id: string)
    ensures Reached(before, before, id, 0)
  {
  }

  lemma OneKind(before: Objects, now: Objects, after: Objects, id: string, i: nat)
    requires i < |DELETION_ORDER| && Reached(before, now, id, i) && OnlyLost(now, after, id)
    requires forall k :: k in now && k.0 != DELETION_ORDER[i] ==> k in after
    ensures OnlyLost(before, after, id) && StoppedAt(before, after, id, i)
    ensures Owned(after, {DELETION_ORDER[i]}, id) == {} ==> Reached(before, after, id, i + 1)
  {
    StillLost(before, now, after, id);
    forall j | 0 <= j < i ensures Owned(after, {DELETION_ORDER[j]}, id) == {} {
      assert Owned(after, {DELETION_ORDER[j]}, id) <= Owned(now, {DELETION_ORDER[j]}, id);
    }
    forall k | k in before && k.0 in DELETION_ORDER[i+1..] ensures k in after {
      OtherKind(k.0, i);
    }
    StopsThere(before, after, id, i);
  }

  lemma OtherKind(kind: Kind, i: nat)
    requires i < |DELETION_ORDER| && kind in DELETION_ORDER[i+1..]
    ensures kind in DELETION_ORDER[i..] && kind != DELETION_ORDER[i]
  {
  }

  /** The call that failed was about the `i`-th kind: those before it are gone, those behind it all there. */
  predicate StoppedAt(before: Objects, after: Objects, id: string, i: int) {
    var order := [ServiceAccount, Service, StatefulSet, Deployment, Cluster.Secret, Claim];
    && 0 <= i < |order|
    && (forall k :: k in after && k.0 in order[..i] ==> !after[k].Labelled("service_id", id))
    && (forall k :: k in before && k.0 in order[i+1..] ==> k in after)
  }

  lemma StopsThere(before: Objects, after: Objects, id: string, i: nat)
    requires i < |DELETION_ORDER|
    requires forall j :: 0 <= j < i ==> Owned(after, {DELETION_ORDER[j]}, id) == {}
    requires forall k :: k in before && k.0 in DELETION_ORDER[i+1..] ==> k in after
    ensures StoppedAt(before, after, id, i)
  {
    forall k | k in after && k.0 in DELETION_ORDER[..i] ensures !after[k].Labelled("service_id", id) {
      var j :| 0 <= j < i && DELETION_ORDER[j] == k.0;
      assert k !in Owned(after, {DELETION_ORDER[j]}, id);
    }
  }

  lemma StillLost(a: Objects, b: Objects, c: Objects, id: string)
    requires OnlyLost(a, b, id) && OnlyLost(b, c, id)
    ensures OnlyLost(a, c, id)
  {
  }

  /** The six blocks cover all kinds. */
  lemma AllKindsGone(before: Objects, after: Objects, id: string)
    requires OnlyLost(before, after, id)
    requires forall j :: 0 <= j < |DELETION_ORDER| ==> Owned(after, {DELETION_ORDER[j]}, id) == {}
    ensures after == Without(before, id)
  {
    forall k | k in after ensures !after[k].Labelled(SERVICE_ID_LABEL, id) {
      var kinds := DELETION_ORDER;
      var j := match k.0
        case ServiceAccount => 0
        case Service => 1
        case StatefulSet => 2
        case Deployment => 3
        case Secret => 4
        case Claim => 5;
      assert kinds[j] == k.0;
      assert k !in Owned(after, {kinds[j]}, id);
    }
    assert Without(after, id) == after;
  }

  // ---------------------------------------------------------------- the schedule

  lemma {:induction false} StageReportsGrow(s: Stage, m: nat, n: nat)
    requires m <= n
    ensures StageReports(s, m) <= StageReports(s, n)
  {
    if m < n {
      StageReportsGrow(s, m, n - 1);
      assert StageReports(s, n)[..m+1] == StageReports(s, n - 1)[..m+1];
    }
  }

  lemma {:induction false} StagesGrow(stages: seq<Stage>, k: nat)
    requires k <= |stages|
    ensures Reports(stages[..k]) <= Reports(stages) && Items(stages[..k]) <= Items(stages)
    ensures |Reports(stages)| == |stages| + |Items(stages)|
    decreases |stages|
  {
    if k == |stages| {
      assert stages[..k] == stages;
      if stages != [] {
        StagesGrow(stages[..|stages|-1], 0);
      }
    } else {
      var init := stages[..|stages|-1];
      assert init[..k] == stages[..k];
      StagesGrow(init, k);
      PrefixTrans(Reports(stages[..k]), Reports(init), Reports(stages));
      PrefixTrans(Items(stages[..k]), Items(init), Items(stages));
    }
  }

  lemma PrefixTrans<T>(a: seq<T>, b: seq<T>, c: seq<T>)
    requires a <= b && b <= c
    ensures a <= c
  {
    assert a == b[..|a|] == c[..|a|];
  }

  /**
   * A run that fails at object `m` of stage `k` files a prefix of the schedule fixed by the component's sizes
   * before its FAILED: one report per header met and one per object tried, of which the last was not created.
   */
  lemma FailureFollowsSchedule(stages: seq<Stage>, k: nat, m: nat)
    requires k < |stages| && m < |stages[k].objects|
    ensures ReportsTo(stages, k, m) <= Schedule(stages) && ItemsTo(stages, k, m) <= Items(stages)
    ensures |ReportsTo(stages, k, m)| == (k + 1) + (|ItemsTo(stages, k, m)| + 1)
    ensures |Schedule(stages)| == |stages| + |Items(stages)| + 1
  {
    var s := stages[k];
    StagesGrow(stages, k + 1);
    StagesGrow(stages[..k], 0);
    assert stages[..k+1][..k] == stages[..k];
    StageReportsGrow(s, m + 1, |s.objects|);
    ConcatPrefix(Reports(stages[..k]), StageReports(s, m + 1), StageReports(s, |s.objects|));
    ConcatPrefix(Items(stages[..k]), s.objects[..m], s.objects);
    PrefixTrans(ReportsTo(stages, k, m), Reports(stages[..k+1]), Reports(stages));
    PrefixTrans(ReportsTo(stages, k, m), Reports(stages), Schedule(stages));
    PrefixTrans(ItemsTo(stages, k, m), Items(stages[..k+1]), Items(stages));
  }

  lemma ConcatPrefix<T>(a: seq<T>, b: seq<T>, c: seq<T>)
    requires b <= c
    ensures a + b <= a + c
  {
    assert (a + c)[..|a| + |b|] == a + c[..|b|];
  }

  // ---------------------------------------------------------------- compensation

  predicate AllOwned(os: seq<Object>, id: string) {
    forall i :: 0 <= i < |os| ==> os[i].Labelled(SERVICE_ID_LABEL, id)
  }

  /** No object of the instance exists. */
  predicate NoneOwned(objects: Objects, id: string) {
    forall k :: k in objects ==> !objects[k].Labelled(SERVICE_ID_LABEL, id)
  }

  /** Deleting what belongs to an instance undoes any creation of its objects. */
  lemma {:induction false} DeletionUndoesCreation(objects: Objects, os: seq<Object>, id: string)
    requires NoneOwned(objects, id) && AllOwned(os, id)
    requires forall o :: o in os ==> o.Key() !in objects
    ensures Without(AddAll(objects, os), id) == objects
  {
    if os == [] {
      assert Without(objects, id) == objects;
    } else {
      var init, last := os[..|os|-1], os[|os|-1];
      DeletionUndoesCreation(objects, init, id);
      assert last in os && last.Labelled(SERVICE_ID_LABEL, id);
      var now := AddAll(objects, init);
      assert Without(now[last.Key() := last], id) == Without(now, id) - {last.Key()};
    }
  }

  predicate ComponentOwned(c: Component, id: string) {
    && AllOwned(c.secrets, id) && AllOwned(c.claims, id) && AllOwned(c.statefulSets, id)
    && AllOwned(c.deployments, id) && AllOwned(c.services, id) && AllOwned(c.serviceAccounts, id)
  }

  lemma {:induction false} ItemsOwned(stages: seq<Stage>, id: string)
    requires forall k :: 0 <= k < |stages| ==> AllOwned(stages[k].objects, id)
    ensures AllOwned(Items(stages), id)
  {
    if stages != [] {
      ItemsOwned(stages[..|stages|-1], id);
    }
  }

  lemma OwnedPrefix(os: seq<Object>, n: nat, id: string)
    requires n <= |os| && AllOwned(os, id)
    ensures AllOwned(os[..n], id)
  {
  }

  lemma StagesOwned(c: Component, extra: seq<EnvVar>, id: string)
    requires ComponentOwned(c, id)
    ensures AllOwned(Items(Stages(c, extra)), id)
    ensures forall k, m :: 0 <= k < 6 && 0 <= m <= |Stages(c, extra)[k].objects| ==>
              AllOwned(ItemsTo(Stages(c, extra), k, m), id)
  {
    var stages := Stages(c, extra);
    assert forall k :: 0 <= k < 6 ==> AllOwned(stages[k].objects, id);
    ItemsOwned(stages, id);
    forall k, m | 0 <= k < 6 && 0 <= m <= |stages[k].objects| ensures AllOwned(ItemsTo(stages, k, m), id) {
      ItemsOwned(stages[..k], id);
      OwnedPrefix(stages[k].objects, m, id);
    }
  }

  /**
   * Provisioning stopped at any point (or not at all) and then deleted, with any number of failing attempts:
   * once an attempt succeeds the six kinds are as before, and until then no other instance's object changed.
   */
  method FabricateThenDelete(api: Api, ss: StateService, hasClient: bool, space: string, id: string,
                             parameters: Parameters, component: Component, attempts: nat) returns (restored: bool)
    requires api.Valid() && ss.Valid()
    requires ComponentOwned(component, id) && NoneOwned(api.objects, id)
    modifies api, ss`records, ss`log
    ensures api.Valid() && Without(api.objects, id) == old(api.objects)
    ensures restored ==> api.objects == old(api.objects)
    ensures AllDone(old(api.script)) && attempts > 0 ==> restored
  {
    ghost var before := api.objects;
    var r := FabricateService(api, ss, hasClient, space, id, parameters, component);
    StagesOwned(component, ExtraEnv(parameters, space), id);
    FabricatedThenWithout(before, api.objects, Stages(component, ExtraEnv(parameters, space)), r, id);
    restored := false;
    var i := 0;
    while i < attempts && !restored
      invariant api.Valid() && Without(api.objects, id) == before
      invariant restored ==> api.objects == before
      invariant AllDone(old(api.script)) ==> AllDone(api.script) && (i > 0 ==> restored)
    {
      restored := DeleteAllByServiceId(api, true, id);
      i := i + 1;
    }
  }

  lemma FabricatedThenWithout(before: Objects, after: Objects, stages: seq<Stage>, r: Outcome, id: string)
    requires |stages| == 6 && NoneOwned(before, id) && AllOwned(Items(stages), id)
    requires forall k, m :: 0 <= k < 6 && 0 <= m <= |stages[k].objects| ==> AllOwned(ItemsTo(stages, k, m), id)
    requires r.NoClient? || r.BadParameters? ==> after == before
    requires r.Fabricated? ==> Added(before, after, Items(stages))
    requires r.CreateFailed? ==>
               && r.stage < 6 && r.index < |stages[r.stage].objects|
               && (Added(before, after, ItemsTo(stages, r.stage, r.index)) ||
                   Added(before, after, ItemsTo(stages, r.stage, r.index + 1)))
    ensures Without(after, id) == before
  {
    match r
    case NoClient => DeletionUndoesCreation(before, [], id);
    case BadParameters => DeletionUndoesCreation(before, [], id);
    case Fabricated => DeletionUndoesCreation(before, Items(stages), id);
    case CreateFailed(k, m) =>
      if Added(before, after, ItemsTo(stages, k, m)) {
        DeletionUndoesCreation(before, ItemsTo(stages, k, m), id);
      } else {
        DeletionUndoesCreation(before, ItemsTo(stages, k, m + 1), id);
      }
  }

  // ---------------------------------------------------------------- parameter names

  function Escaped(s: string): string {
    if s == "" then ""
    else (if s[0] == '_' then "__" else if s[0] == '-' then "_" else [s[0]]) + Escaped(s[1..])
  }

  lemma {:induction false} EscapedByCharacter(s: string)
    ensures EscapedName(s) == Escaped(s) && '-' !in Escaped(s)
  {
    if s != "" {
      var t := ReplaceAll(s[1..], "_", "__");
      EscapedByCharacter(s[1..]);
      var h := if s[0] == '_' then "__" else [s[0]];
      ReplaceOneChar(s, "_", "__");
      assert (h + t)[0] == h[0] && (h + t)[1..] == h[1..] + t;
      ReplaceOneChar(h + t, "-", "_");
      if s[0] == '_' {
        assert (h[1..] + t)[1..] == t;
        ReplaceOneChar(h[1..] + t, "-", "_");
      } else {
        assert h[1..] + t == t;
      }
    }
  }

  lemma {:induction false} EscapedConcat(a: string, b: string)
    ensures Escaped(a + b) == Escaped(a) + Escaped(b)
  {
    if a == "" {
      assert a + b == b;
    } else {
      assert (a + b)[0] == a[0] && (a + b)[1..] == a[1..] + b;
      EscapedConcat(a[1..], b);
    }
  }

  /** Text by text: an underscore becomes two, a dash becomes one underscore, and any other character stays. */
  lemma EscapeRules(a: string, b: string, c: char)
    ensures EscapedName(a + b) == EscapedName(a) + EscapedName(b) && EscapedName("") == ""
    ensures EscapedName([c]) == if c == '_' then "__" else if c == '-' then "_" else [c]
  {
    EscapedByCharacter(a + b);
    EscapedByCharacter(a);
    EscapedByCharacter(b);
    EscapedByCharacter([c]);
    EscapedConcat(a, b);
    assert [c][1..] == "";
  }

  lemma ReplaceOneChar(s: string, k: string, v: string)
    requires s != "" && |k| == 1
    ensures ReplaceAll(s, k, v) == (if s[0] == k[0] then v else [s[0]]) + ReplaceAll(s[1..], k, v)
  {
    if s[0] == k[0] {
      assert s[..1] == k;
    } else {
      assert !(k <= s);
    }
  }

  /** Reads an escaped name back: two underscores are one, a single one is a dash. */
  function Unescaped(t: string): string {
    if t == "" then ""
    else if t[0] == '_' && |t| > 1 && t[1] == '_' then "_" + Unescaped(t[2..])
    else if t[0] == '_' then "-" + Unescaped(t[1..])
    else [t[0]] + Unescaped(t[1..])
  }

  predicate DashThenSeparator(s: string) {
    exists i :: 0 <= i < |s| - 1 && s[i] == '-' && (s[i+1] == '-' || s[i+1] == '_')
  }

  /**
   * Exactly the names in which no dash stands right before a separator are read back from their escape, so
   * on those names the escape is injective.
   */
  lemma {:induction false} EscapeReadsBackIff(s: string)
    ensures Unescaped(EscapedName(s)) == s <==> !DashThenSeparator(s)
  {
    EscapedByCharacter(s);
    if s != "" {
      EscapeReadsBackIff(s[1..]);
      EscapedByCharacter(s[1..]);
      DashThere(s);
      var e := Escaped(s[1..]);
      if s[0] == '_' {
        assert ("__" + e)[2..] == e;
      } else {
        assert ([s[0]] + e)[1..] == e && ("_" + e)[1..] == e;
        EscapeStart(s[1..]);
      }
    }
  }

  lemma EscapeStart(s: string)
    ensures Escaped(s) != "" && Escaped(s)[0] == '_' <==> s != "" && (s[0] == '_' || s[0] == '-')
  {
  }

  lemma DashThere(s: string)
    requires s != ""
    ensures DashThenSeparator(s) <==>
              (|s| > 1 && s[0] == '-' && (s[1] == '-' || s[1] == '_')) || DashThenSeparator(s[1..])
  {
    if DashThenSeparator(s) {
      var i :| 0 <= i < |s| - 1 && s[i] == '-' && (s[i+1] == '-' || s[i+1] == '_');
      assert i > 0 ==> s[1..][i-1] == '-' && s[1..][i] == s[i+1];
    }
    if DashThenSeparator(s[1..]) {
      var i :| 0 <= i < |s[1..]| - 1 && s[1..][i] == '-' && (s[1..][i+1] == '-' || s[1..][i+1] == '_');
      assert s[i+1] == '-' && s[i+2] == s[1..][i+1];
    }
  }

  /** A dash put before a name in normal form: it goes behind the underscores, where it makes one with another dash. */
  function PutDash(s: string): string {
    if s == "" || (s[0] != '_' && s[0] != '-') then "-" + s
    else if s[0] == '-' then "_" + s[1..]
    else "_" + PutDash(s[1..])
  }

  /**
   * The name with each run of separators as underscores and at most one dash behind them; two dashes make an
   * underscore.
   */
  function Normal(s: string): string {
    if s == "" then ""
    else if s[0] == '-' then PutDash(Normal(s[1..]))
    else [s[0]] + Normal(s[1..])
  }

  lemma EscapedCons(c: char, s: string)
    ensures Escaped([c] + s) == (if c == '_' then "__" else if c == '-' then "_" else [c]) + Escaped(s)
  {
    assert ([c] + s)[1..] == s;
  }

  lemma {:induction false} DashAddsOne(s: string)
    requires !DashThenSeparator(s)
    ensures Escaped(PutDash(s)) == "_" + Escaped(s) && !DashThenSeparator(PutDash(s))
  {
    if s == "" || (s[0] != '_' && s[0] != '-') {
      EscapedCons('-', s);
      DashThere("-" + s);
      assert ("-" + s)[1..] == s;
    } else {
      DashThere(s);
      assert s == [s[0]] + s[1..];
      EscapedCons(s[0], s[1..]);
      if s[0] == '-' {
        EscapedCons('_', s[1..]);
        DashThere("_" + s[1..]);
        assert ("_" + s[1..])[1..] == s[1..];
        assert "__" + Escaped(s[1..]) == "_" + ("_" + Escaped(s[1..]));
      } else {
        DashAddsOne(s[1..]);
        EscapedCons('_', PutDash(s[1..]));
        DashThere("_" + PutDash(s[1..]));
        assert ("_" + PutDash(s[1..]))[1..] == PutDash(s[1..]);
        assert "__" + ("_" + Escaped(s[1..])) == "_" + ("__" + Escaped(s[1..]));
      }
    }
  }

  /** A name and its normal form share their escape, and the normal form is read back. */
  lemma {:induction false} NormalEscape(s: string)
    ensures Escaped(Normal(s)) == Escaped(s) && !DashThenSeparator(Normal(s))
  {
    if s != "" {
      NormalEscape(s[1..]);
      if s[0] == '-' {
        DashAddsOne(Normal(s[1..]));
      } else {
        var n := [s[0]] + Normal(s[1..]);
        EscapedCons(s[0], Normal(s[1..]));
        DashThere(n);
        assert n[1..] == Normal(s[1..]);
      }
    }
  }

  /** Two names share an escape exactly when they have the same normal form, as "--" and "_" have. */
  lemma ShareEscapeIff(s: string, t: string)
    ensures EscapedName(s) == EscapedName(t) <==> Normal(s) == Normal(t)
  {
    EscapedByCharacter(s);
    EscapedByCharacter(t);
    NormalEscape(s);
    NormalEscape(t);
    EscapedByCharacter(Normal(s));
    EscapedByCharacter(Normal(t));
    EscapeReadsBackIff(Normal(s));
    EscapeReadsBackIff(Normal(t));
  }
}
