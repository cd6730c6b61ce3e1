/** Removing the cluster of an organization: `removeCluster` of app/tap/broker_api.go. */
module Teardown {
  import opened Decimal
  import opened Cluster
  import Sets

  const TAP := "TAP"

  predicate Managed(o: Object) {
    o.Labelled(MANAGED_BY_LABEL, TAP)
  }

  ghost predicate NoManaged(objects: Objects, kind: Kind) {
    forall k :: k in objects && k.0 == kind ==> !Managed(objects[k])
  }

  ghost predicate NoClaims(objects: Objects) {
    forall k :: k in objects ==> k.0 != Claim
  }

  /** What must be gone before the cluster goes. */
  ghost predicate Clear(objects: Objects, volumes: set<string>) {
    NoManaged(objects, Service) && NoManaged(objects, Deployment) && NoClaims(objects) && volumes == {}
  }

  // ---------------------------------------------------------------- any number of removers

  /** The next call of a remover. */
  datatype Pc =
    | AtServices
    | AtDeployments(noServices: bool)
    | AtClaims
    | Deleting(names: seq<string>, failed: bool)
    | AtVolumes
    | AtCluster
    | Stopped

  /** The cloud, the removers at work, and what the cluster held at each call to delete it. */
  datatype Cloud = Cloud(objects: Objects, volumes: set<string>, removers: map<nat, Pc>,
                         deletions: seq<(Objects, set<string>)>)

  datatype Step =
    | Start(r: nat)
    | Go(r: nat, reply: Reply, names: seq<string>)
    | Remove(key: (Kind, string))
    | Reclaim(volume: string)
    | Create(o: Object)

  /** `names` lists all claims. */
  predicate ListsClaims(objects: Objects, names: seq<string>) {
    && (forall k :: k in objects && k.0 == Claim ==> k.1 in names)
    && (forall n :: n in names ==> (Claim, n) in objects)
    && (forall i, j :: 0 <= i < j < |names| ==> names[i] != names[j])
  }

  function HasManaged(objects: Objects, kind: Kind): bool {
    exists k :: k in objects && k.0 == kind && Managed(objects[k])
  }

  function Move(c: Cloud, r: nat, pc: Pc): Cloud {
    c.(removers := c.removers[r := pc])
  }

  /** One call of a remover; any failed call but that of a claim ends it at once. */
  function GoStep(c: Cloud, r: nat, reply: Reply, names: seq<string>): Cloud
    requires r in c.removers
  {
    match c.removers[r]
    case AtServices => Move(c, r, if reply.Done? then AtDeployments(!HasManaged(c.objects, Service)) else Stopped)
    case AtDeployments(noServices) =>
      Move(c, r, if reply.Done? && noServices && !HasManaged(c.objects, Deployment) then AtClaims else Stopped)
    case AtClaims =>
      if !reply.Done? then Move(c, r, Stopped)
      else if ListsClaims(c.objects, names) then Move(c, r, Deleting(names, false))
      else c
    case Deleting(left, failed) =>
      if left == [] then Move(c, r, if failed then Stopped else AtVolumes)
      else
        var key := (Claim, left[0]);
        var done := key in c.objects && !reply.Refused?;
        var rest := Deleting(left[1..], failed || !done || reply.Lost?);
        Move(c.(objects := if done then c.objects - {key} else c.objects), r, rest)
    case AtVolumes =>
      Move(c, r, if !reply.Done? then Stopped else if c.volumes == {} then AtCluster else AtServices)
    case AtCluster => Move(c.(deletions := c.deletions + [(c.objects, c.volumes)]), r, Stopped)
    case Stopped => c
  }

  /** A step of any party; a step that is not possible changes nothing. */
  function Apply(c: Cloud, step: Step): Cloud {
    match step
    case Start(r) => if r in c.removers then c else Move(c, r, AtServices)
    case Go(r, reply, names) => if r in c.removers then GoStep(c, r, reply, names) else c
    case Remove(key) => c.(objects := c.objects - {key})
    case Reclaim(volume) => c.(volumes := c.volumes - {volume})
    case Create(o) => if o.Key() in c.objects then c else c.(objects := c.objects[o.Key() := o])
  }

  function After(c: Cloud, steps: seq<Step>): Cloud {
    if steps == [] then c else Apply(After(c, steps[..|steps|-1]), steps[|steps|-1])
  }

  function Init(objects: Objects, volumes: set<string>): Cloud {
    Cloud(objects, volumes, map[], [])
  }

  /** What a remover has established stays true while nothing of that kind is created. */
  ghost predicate PcOk(objects: Objects, volumes: set<string>, pc: Pc) {
    match pc
    case AtServices => true
    case AtDeployments(noServices) => noServices ==> NoManaged(objects, Service)
    case AtClaims => NoManaged(objects, Service) && NoManaged(objects, Deployment)
    case Deleting(names, failed) =>
      && NoManaged(objects, Service) && NoManaged(objects, Deployment)
      && (failed || forall k :: k in objects && k.0 == Claim ==> k.1 in names)
    case AtVolumes => NoManaged(objects, Service) && NoManaged(objects, Deployment) && NoClaims(objects)
    case AtCluster => Clear(objects, volumes)
    case Stopped => true
  }

  ghost predicate Inv(c: Cloud) {
    && (forall r :: r in c.removers ==> PcOk(c.objects, c.volumes, c.removers[r]))
    && (forall i :: 0 <= i < |c.deletions| ==> Clear(c.deletions[i].0, c.deletions[i].1))
  }

  /** An object that a teardown does not look for. */
  predicate Harmless(o: Object) {
    o.kind != Claim && !(Managed(o) && (o.kind == Service || o.kind == Deployment))
  }

  lemma LessIsOk(objects: Objects, volumes: set<string>, key: (Kind, string), volume: string, pc: Pc)
    requires PcOk(objects, volumes, pc)
    ensures PcOk(objects - {key}, volumes - {volume}, pc) && PcOk(objects - {key}, volumes, pc)
  {
  }

  lemma MoreIsOk(objects: Objects, volumes: set<string>, o: Object, pc: Pc)
    requires PcOk(objects, volumes, pc) && Harmless(o)
    ensures PcOk(objects[o.Key() := o], volumes, pc)
  {
  }

  lemma GoKeeps(c: Cloud, r: nat, reply: Reply, names: seq<string>)
    requires Inv(c) && r in c.removers
    ensures Inv(GoStep(c, r, reply, names))
  {
    var t := GoStep(c, r, reply, names);
    assert PcOk(c.objects, c.volumes, c.removers[r]);
    if c.removers[r].Deleting? && c.removers[r].names != [] {
      var left := c.removers[r].names;
      forall q | q in c.removers ensures PcOk(c.objects - {(Claim, left[0])}, c.volumes, c.removers[q]) {
        LessIsOk(c.objects, c.volumes, (Claim, left[0]), "", c.removers[q]);
      }
      assert left == [left[0]] + left[1..];
    }
  }

  lemma StepKeeps(c: Cloud, step: Step)
    requires Inv(c) && (step.Create? ==> Harmless(step.o))
    ensures Inv(Apply(c, step))
  {
    match step
    case Start(r) =>
    case Go(r, reply, names) => if r in c.removers { GoKeeps(c, r, reply, names); }
    case Remove(key) =>
      forall q | q in c.removers ensures PcOk(c.objects - {key}, c.volumes, c.removers[q]) {
        LessIsOk(c.objects, c.volumes, key, "", c.removers[q]);
      }
    case Reclaim(volume) =>
    case Create(o) =>
      forall q | q in c.removers ensures PcOk(c.objects[o.Key() := o], c.volumes, c.removers[q]) {
        MoreIsOk(c.objects, c.volumes, o, c.removers[q]);
      }
  }

  predicate OnlyCreates(steps: seq<Step>, o: Object) {
    forall i :: 0 <= i < |steps| && steps[i].Create? ==> steps[i].o == o
  }

  ghost predicate HarmlessRun(steps: seq<Step>) {
    forall i :: 0 <= i < |steps| && steps[i].Create? ==> Harmless(steps[i].o)
  }

  /**
   * With any number of removers, calls that fail anywhere, and others who remove objects, reclaim volumes and
   * create harmless objects at any time: each call to delete the cluster finds it without managed services,
   * managed deployments, claims and volumes.
   */
  lemma {:induction false} TeardownIsSafe(objects: Objects, volumes: set<string>, steps: seq<Step>)
    requires HarmlessRun(steps)
    ensures Inv(After(Init(objects, volumes), steps))
    ensures var c := After(Init(objects, volumes), steps);
            forall i :: 0 <= i < |c.deletions| ==> Clear(c.deletions[i].0, c.deletions[i].1)
  {
    if steps != [] {
      TeardownIsSafe(objects, volumes, steps[..|steps|-1]);
      StepKeeps(After(Init(objects, volumes), steps[..|steps|-1]), steps[|steps|-1]);
    }
  }

  lemma Then(c: Cloud, steps: seq<Step>, step: Step)
    ensures After(c, steps + [step]) == Apply(After(c, steps), step)
  {
    assert (steps + [step])[..|steps|] == steps;
  }

  // ---------------------------------------------------------------- what a remover does by itself

  /** A run in which nobody else creates or removes an object. */
  predicate Undisturbed(steps: seq<Step>) {
    forall i :: 0 <= i < |steps| ==> !steps[i].Create? && !steps[i].Remove?
  }

  /** Some such run deletes the cluster while it still holds the object. */
  ghost predicate CanBeLost(objects: Objects, volumes: set<string>, o: Object) {
    exists steps: seq<Step>, i: nat ::
      Undisturbed(steps) && i < |After(Init(objects, volumes), steps).deletions| &&
      o.Key() in After(Init(objects, volumes), steps).deletions[i].0
  }

  /** No remover has got past the check, and the object that stops it is still there. */
  ghost predicate Stuck(c: Cloud, key: (Kind, string)) {
    && key in c.objects && Managed(c.objects[key]) && (key.0 == Service || key.0 == Deployment)
    && c.deletions == []
    && forall r :: r in c.removers ==>
         c.removers[r].AtServices? || c.removers[r].Stopped? ||
         (c.removers[r].AtDeployments? && (key.0 == Service ==> !c.removers[r].noServices))
  }

  lemma {:induction false} StaysStuck(c: Cloud, key: (Kind, string), steps: seq<Step>)
    requires Stuck(c, key) && Undisturbed(steps)
    ensures Stuck(After(c, steps), key)
  {
    if steps != [] {
      StaysStuck(c, key, steps[..|steps|-1]);
      StepStuck(After(c, steps[..|steps|-1]), key, steps[|steps|-1]);
    }
  }

  lemma StepStuck(c: Cloud, key: (Kind, string), step: Step)
    requires Stuck(c, key) && !step.Create? && !step.Remove?
    ensures Stuck(Apply(c, step), key)
  {
    assert HasManaged(c.objects, key.0);
  }

  /** A cluster with one remover. */
  function With(objects: Objects, volumes: set<string>, pc: Pc): Cloud {
    Cloud(objects, volumes, map[0 := pc], [])
  }

  lemma {:induction false} AfterConcat(c: Cloud, a: seq<Step>, b: seq<Step>)
    ensures After(c, a + b) == After(After(c, a), b)
    decreases |b|
  {
    if b == [] {
      assert a + b == a;
    } else {
      assert (a + b)[..|a + b|-1] == a + b[..|b|-1];
      AfterConcat(c, a, b[..|b|-1]);
    }
  }

  /** The remover's first three calls. */
  lemma PassesTheCheck(objects: Objects, volumes: set<string>, names: seq<string>) returns (steps: seq<Step>)
    requires !HasManaged(objects, Service) && !HasManaged(objects, Deployment) && ListsClaims(objects, names)
    ensures After(Init(objects, volumes), steps) == With(objects, volumes, Deleting(names, false)) && Undisturbed(steps)
  {
    var c, go := Init(objects, volumes), Go(0, Done, names);
    Then(c, [], Start(0));
    var s1 := [] + [Start(0)];
    assert After(c, s1) == With(objects, volumes, AtServices);
    Then(c, s1, go);
    var s2 := s1 + [go];
    Moves(objects, volumes, AtServices, AtDeployments(true));
    Then(c, s2, go);
    var s3 := s2 + [go];
    Moves(objects, volumes, AtDeployments(true), AtClaims);
    Then(c, s3, go);
    steps := s3 + [go];
    Moves(objects, volumes, AtClaims, Deleting(names, false));
  }

  lemma Moves(objects: Objects, volumes: set<string>, pc: Pc, next: Pc)
    ensures Move(With(objects, volumes, pc), 0, next) == With(objects, volumes, next)
  {
    assert map[0 := pc][0 := next] == map[0 := next];
  }

  /** All listed claims are deleted; other objects stay. */
  lemma {:induction false} DeletesClaims(objects: Objects, volumes: set<string>, names: seq<string>)
    returns (steps: seq<Step>, left: Objects)
    requires forall n :: n in names ==> (Claim, n) in objects
    requires forall i, j :: 0 <= i < j < |names| ==> names[i] != names[j]
    ensures After(With(objects, volumes, Deleting(names, false)), steps) == With(left, volumes, AtVolumes) &&
            Undisturbed(steps)
    ensures forall k :: k in left <==> k in objects && !(k.0 == Claim && k.1 in names)
    ensures forall k :: k in left ==> left[k] == objects[k]
  {
    var c, go := With(objects, volumes, Deleting(names, false)), Go(0, Done, []);
    Then(c, [], go);
    assert [] + [go] == [go];
    if names == [] {
      steps, left := [go], objects;
      Moves(objects, volumes, Deleting(names, false), AtVolumes);
    } else {
      var key := (Claim, names[0]);
      assert names[0] in names;
      var next := objects - {key};
      Moves(next, volumes, Deleting(names, false), Deleting(names[1..], false));
      assert Apply(c, go) == With(next, volumes, Deleting(names[1..], false));
      forall n | n in names[1..] ensures (Claim, n) in next {
        var j :| 0 <= j < |names[1..]| && names[1..][j] == n;
        assert names[j+1] == n;
      }
      assert forall i, j :: 0 <= i < j < |names| - 1 ==> names[1..][i] == names[i+1] && names[1..][j] == names[j+1];
      var rest;
      rest, left := DeletesClaims(next, volumes, names[1..]);
      AfterConcat(c, [go], rest);
      steps := [go] + rest;
      assert names == [names[0]] + names[1..];
    }
  }

  /** Volumes are reclaimed until only these are left. */
  lemma {:induction false} Reclaims(objects: Objects, volumes: set<string>, left: set<string>, pc: Pc)
    returns (steps: seq<Step>)
    requires left <= volumes
    ensures After(With(objects, volumes, pc), steps) == With(objects, left, pc) && Undisturbed(steps)
    decreases |volumes|
  {
    var c := With(objects, volumes, pc);
    if volumes == left {
      steps := [];
    } else {
      assert exists v :: v in volumes && v !in left;
      var v :| v in volumes && v !in left;
      Then(c, [], Reclaim(v));
      assert [] + [Reclaim(v)] == [Reclaim(v)];
      var rest := Reclaims(objects, volumes - {v}, left, pc);
      AfterConcat(c, [Reclaim(v)], rest);
      steps := [Reclaim(v)] + rest;
    }
  }

  lemma {:induction false} NamesOf(keys: set<(Kind, string)>) returns (names: seq<string>)
    requires forall k :: k in keys ==> k.0 == Claim
    ensures forall n :: n in names <==> (Claim, n) in keys
    ensures forall i, j :: 0 <= i < j < |names| ==> names[i] != names[j]
    decreases |keys|
  {
    if keys == {} {
      names := [];
    } else {
      var k :| k in keys;
      var rest := NamesOf(keys - {k});
      names := [k.1] + rest;
      assert k == (Claim, k.1);
    }
  }

  lemma UndisturbedConcat(a: seq<Step>, b: seq<Step>)
    requires Undisturbed(a) && Undisturbed(b)
    ensures Undisturbed(a + b)
  {
  }

  /**
   * A remover that meets no managed object comes to its call to delete the cluster, in which all but the claims are
   * left.
   */
  lemma ReachesDeletion(objects: Objects, volumes: set<string>) returns (steps: seq<Step>, left: Objects)
    requires !HasManaged(objects, Service) && !HasManaged(objects, Deployment)
    ensures After(Init(objects, volumes), steps) == With(left, {}, AtCluster) && Undisturbed(steps)
    ensures left.Keys <= objects.Keys && forall k :: k in objects && k.0 != Claim ==> k in left
  {
    var c, go := Init(objects, volumes), Go(0, Done, []);
    var names := NamesOf(set k | k in objects && k.0 == Claim);
    assert forall k :: k in objects && k.0 == Claim ==> k == (Claim, k.1);
    var first := PassesTheCheck(objects, volumes, names);
    var second, rest := DeletesClaims(objects, volumes, names);
    left := rest;
    var third := Reclaims(left, volumes, {}, AtVolumes);
    AfterConcat(c, first, second);
    AfterConcat(c, first + second, third);
    UndisturbedConcat(first, second);
    UndisturbedConcat(first + second, third);
    Then(c, first + second + third, go);
    Moves(left, {}, AtVolumes, AtCluster);
    UndisturbedConcat(first + second + third, [go]);
    steps := first + second + third + [go];
  }

  lemma LosesAll(objects: Objects, volumes: set<string>, o: Object)
    requires !HasManaged(objects, Service) && !HasManaged(objects, Deployment)
    requires o.Key() in objects && o.kind != Claim
    ensures CanBeLost(objects, volumes, o)
  {
    var c, go := Init(objects, volumes), Go(0, Done, []);
    var ready, left := ReachesDeletion(objects, volumes);
    Then(c, ready, go);
    UndisturbedConcat(ready, [go]);
    var steps := ready + [go];
    assert After(c, steps).deletions == [(left, {})];
    assert o.Key() in After(c, steps).deletions[0].0;
  }

  lemma KeepsAll(objects: Objects, volumes: set<string>, o: Object)
    requires HasManaged(objects, Service) || HasManaged(objects, Deployment)
    ensures !CanBeLost(objects, volumes, o)
  {
    var key :| key in objects && Managed(objects[key]) && (key.0 == Service || key.0 == Deployment);
    if CanBeLost(objects, volumes, o) {
      var steps: seq<Step>, i: nat :|
        Undisturbed(steps) && i < |After(Init(objects, volumes), steps).deletions| &&
        o.Key() in After(Init(objects, volumes), steps).deletions[i].0;
      StaysStuck(Init(objects, volumes), key, steps);
      assert false;
    }
  }

  /**
   * The check looks for managed services and deployments only. An object that is there from the start, such as the
   * stateful set of an instance without a service, can be lost without anyone else's doing exactly when no managed
   * service and no managed deployment is there.
   */
  lemma CanBeLostIff(objects: Objects, volumes: set<string>, o: Object)
    requires Consistent(objects) && o.Key() in objects && o.kind != Claim
    ensures CanBeLost(objects, volumes, o) <==> !HasManaged(objects, Service) && !HasManaged(objects, Deployment)
  {
    if !HasManaged(objects, Service) && !HasManaged(objects, Deployment) {
      LosesAll(objects, volumes, o);
    } else {
      KeepsAll(objects, volumes, o);
    }
  }

  // ---------------------------------------------------------------- beside a creation

  /** No run in which others create only `o` deletes a cluster that is not clear. */
  ghost predicate SafeBeside(o: Object) {
    forall objects: Objects, volumes: set<string>, steps: seq<Step>, i: nat ::
      OnlyCreates(steps, o) && i < |After(Init(objects, volumes), steps).deletions| ==>
        var d := After(Init(objects, volumes), steps).deletions[i]; Clear(d.0, d.1)
  }

  lemma HarmfulIsLost(o: Object) returns (steps: seq<Step>)
    requires !Harmless(o)
    ensures OnlyCreates(steps, o)
    ensures var c := After(Init(map[], {}), steps); |c.deletions| == 1 && !Clear(c.deletions[0].0, c.deletions[0].1)
  {
    var c := Init(map[], {});
    var ready, left := ReachesDeletion(map[], {});
    Then(c, ready, Create(o));
    var made := ready + [Create(o)];
    Then(c, made, Go(0, Done, []));
    steps := made + [Go(0, Done, [])];
    var objects := After(c, made).objects;
    assert o.Key() in objects && objects[o.Key()] == o;
  }

  /**
   * Between the check and the deletion there is no lock: the deletion is safe beside a creation exactly when the
   * created object is one that the check does not look for.
   */
  lemma SafeBesideIff(o: Object)
    ensures SafeBeside(o) <==> Harmless(o)
  {
    if Harmless(o) {
      forall objects: Objects, volumes: set<string>, steps: seq<Step>, i: nat |
        OnlyCreates(steps, o) && i < |After(Init(objects, volumes), steps).deletions|
        ensures var d := After(Init(objects, volumes), steps).deletions[i]; Clear(d.0, d.1)
      {
        TeardownIsSafe(objects, volumes, steps);
      }
    } else {
      var steps := HarmfulIsLost(o);
      var d := After(Init(map[], {}), steps).deletions[0];
      assert !Clear(d.0, d.1);
    }
  }

  // ---------------------------------------------------------------- one remover

  datatype Outcome = Removed | InUse | CallFailed

  /** One organization's cluster and the volumes behind it. */
  class Org {
    const api: Api
    var volumes: set<string>
    /** The replies to the calls that list volumes and that delete the cluster. */
    var replies: seq<Reply>
    var present: bool

    constructor (api: Api, volumes: set<string>, replies: seq<Reply>)
      ensures this.api == api && this.volumes == volumes && this.replies == replies && present
    {
      this.api, this.volumes, this.replies, present := api, volumes, replies, true;
    }

    /** A pause in which the claims' volumes are reclaimed: at least one of those that are left. */
    method Pause()
      requires volumes != {}
      modifies this`volumes
      ensures volumes < old(volumes)
    {
      var v :| v in volumes;
      volumes := volumes - {v};
    }

    method NextReply() returns (r: Reply)
      modifies this`replies
      ensures AllDone(old(replies)) ==> AllDone(replies) && r.Done?
    {
      r := if replies == [] then Done else replies[0];
      replies := if replies == [] then [] else replies[1..];
    }

    method GetAllPersistentVolumes() returns (r: Option<set<string>>)
      modifies this`replies
      ensures r.Some? ==> r.value == volumes
      ensures AllDone(old(replies)) ==> AllDone(replies) && r.Some?
    {
      var reply := NextReply();
      return if reply.Done? then Some(volumes) else None;
    }

    /** A refusal is not an error to the caller: only a lost connection is. */
    method DeleteCluster() returns (ok: bool)
      modifies this`replies, this`present
      ensures AllDone(old(replies)) ==> ok && !present
    {
      var reply := NextReply();
      if !reply.Refused? {
        present := false;
      }
      return !reply.Lost?;
    }
  }

  /** Nothing but claims is gone. */
  ghost predicate OnlyClaimsLost(before: Objects, now: Objects) {
    && now.Keys <= before.Keys
    && (forall k :: k in now ==> now[k] == before[k])
    && (forall k :: k in before && k.0 != Claim ==> k in now)
  }

  /** The claims that are left are among the listed ones from position `i` on. */
  ghost predicate ClaimsFrom(before: Objects, now: Objects, list: seq<Object>, i: nat)
    requires i <= |list| && now.Keys <= before.Keys
  {
    forall k :: k in now && k.0 == Claim ==> before[k] in list[i..]
  }

  lemma ClaimGone(before: Objects, now: Objects, list: seq<Object>, i: nat)
    requires i < |list| && Consistent(before) && OnlyClaimsLost(before, now) && list[i].kind == Claim
    ensures ClaimsFrom(before, now, list, i) ==> ClaimsFrom(before, now - {(Claim, list[i].name)}, list, i + 1)
  {
    assert list[i..] == [list[i]] + list[i+1..];
  }

  // ---------------------------------------------------------------- the remover as a run

  /** These steps lead there, and nobody else creates or removes anything. */
  predicate At(start: Cloud, steps: seq<Step>, objects: Objects, volumes: set<string>, pc: Pc) {
    Undisturbed(steps) && After(start, steps) == With(objects, volumes, pc)
  }

  lemma Goes(start: Cloud, steps: seq<Step>, objects: Objects, volumes: set<string>, pc: Pc, reply: Reply,
             names: seq<string>)
    requires At(start, steps, objects, volumes, pc)
    ensures var go := Go(0, reply, names);
            && Undisturbed(steps + [go])
            && After(start, steps + [go]) == GoStep(With(objects, volumes, pc), 0, reply, names)
  {
    Then(start, steps, Go(0, reply, names));
  }

  lemma AtConcat(start: Cloud, a: seq<Step>, objects: Objects, volumes: set<string>, pc: Pc, b: seq<Step>,
                 laterObjects: Objects, laterVolumes: set<string>, later: Pc)
    requires At(start, a, objects, volumes, pc)
    requires At(With(objects, volumes, pc), b, laterObjects, laterVolumes, later)
    ensures At(start, a + b, laterObjects, laterVolumes, later)
  {
    AfterConcat(start, a, b);
    UndisturbedConcat(a, b);
  }

  /** The steps led to the end: with a call to delete the cluster as it then was, or without one. */
  predicate Ended(start: Cloud, steps: seq<Step>, objects: Objects, volumes: set<string>, tried: bool) {
    && Undisturbed(steps)
    && After(start, steps) ==
       Cloud(objects, volumes, map[0 := Stopped], if tried then [(objects, volumes)] else [])
  }

  /** The two listings of managed objects. */
  lemma Checks(start: Cloud, steps: seq<Step>, objects: Objects, volumes: set<string>, first: bool, second: bool)
    returns (more: seq<Step>)
    requires At(start, steps, objects, volumes, AtServices)
    ensures At(start, more, objects, volumes,
               if first && second && !HasManaged(objects, Service) && !HasManaged(objects, Deployment)
               then AtClaims else Stopped)
  {
    var reply := if first then Done else Refused;
    var pc := if first then AtDeployments(!HasManaged(objects, Service)) else Stopped;
    Goes(start, steps, objects, volumes, AtServices, reply, []);
    Moves(objects, volumes, AtServices, pc);
    more := steps + [Go(0, reply, [])];
    if first {
      var last := if second && !HasManaged(objects, Service) && !HasManaged(objects, Deployment) then AtClaims
                  else Stopped;
      Goes(start, more, objects, volumes, pc, if second then Done else Refused, []);
      Moves(objects, volumes, pc, last);
      more := more + [Go(0, if second then Done else Refused, [])];
    }
  }

  function NamesIn(list: seq<Object>): (names: seq<string>)
    ensures |names| == |list| && forall i :: 0 <= i < |list| ==> names[i] == list[i].name
  {
    seq(|list|, i requires 0 <= i < |list| => list[i].name)
  }

  /** The listing of the claims, or its failure. */
  lemma ListsThem(objects: Objects, volumes: set<string>, list: seq<Object>) returns (steps: seq<Step>)
    requires forall i :: 0 <= i < |list| ==> list[i].Key() in objects && list[i].kind == Claim
    requires forall i, j :: 0 <= i < j < |list| ==> list[i].Key() != list[j].Key()
    requires forall k :: k in objects && k.0 == Claim ==> objects[k] in list && objects[k].name == k.1
    ensures At(With(objects, volumes, AtClaims), steps, objects, volumes, Deleting(NamesIn(list), false))
  {
    var c, names := With(objects, volumes, AtClaims), NamesIn(list);
    forall k | k in objects && k.0 == Claim ensures k.1 in names {
      var i :| 0 <= i < |list| && list[i] == objects[k];
      assert names[i] == k.1;
    }
    assert ListsClaims(objects, names);
    Goes(c, [], objects, volumes, AtClaims, Done, names);
    Moves(objects, volumes, AtClaims, Deleting(names, false));
    steps := [] + [Go(0, Done, names)];
  }

  lemma ListingFails(objects: Objects, volumes: set<string>) returns (steps: seq<Step>)
    ensures At(With(objects, volumes, AtClaims), steps, objects, volumes, Stopped)
  {
    Goes(With(objects, volumes, AtClaims), [], objects, volumes, AtClaims, Refused, []);
    Moves(objects, volumes, AtClaims, Stopped);
    steps := [] + [Go(0, Refused, [])];
  }

  /** One deletion of a claim, whether it came back as done or not. */
  lemma DeletesOne(start: Cloud, steps: seq<Step>, objects: Objects, after: Objects, volumes: set<string>,
                   list: seq<Object>, failed: bool, deleted: bool)
    returns (more: seq<Step>)
    requires list != [] && At(start, steps, objects, volumes, Deleting(NamesIn(list), failed))
    requires var key := (Claim, list[0].name);
             (after == objects && !deleted) || (key in objects && after == objects - {key})
    ensures At(start, more, after, volumes, Deleting(NamesIn(list[1..]), failed || !deleted))
  {
    var names, pc := NamesIn(list), Deleting(NamesIn(list), failed);
    var reply := if deleted then Done else if after == objects then Refused else Lost;
    Goes(start, steps, objects, volumes, pc, reply, []);
    assert names[1..] == NamesIn(list[1..]);
    Moves(after, volumes, pc, Deleting(names[1..], failed || !deleted));
    more := steps + [Go(0, reply, [])];
  }

  lemma AllTried(start: Cloud, steps: seq<Step>, objects: Objects, volumes: set<string>, failed: bool)
    returns (more: seq<Step>)
    requires At(start, steps, objects, volumes, Deleting([], failed))
    ensures At(start, more, objects, volumes, if failed then Stopped else AtVolumes)
  {
    Goes(start, steps, objects, volumes, Deleting([], failed), Done, []);
    Moves(objects, volumes, Deleting([], failed), if failed then Stopped else AtVolumes);
    more := steps + [Go(0, Done, [])];
  }

  /** The listing of the volumes, and a pause when there are some. */
  lemma ListsVolumes(start: Cloud, steps: seq<Step>, objects: Objects, volumes: set<string>, ok: bool)
    returns (more: seq<Step>)
    requires At(start, steps, objects, volumes, AtVolumes)
    ensures At(start, more, objects, volumes,
               if !ok then Stopped else if volumes == {} then AtCluster else AtServices)
  {
    var reply := if ok then Done else Refused;
    Goes(start, steps, objects, volumes, AtVolumes, reply, []);
    Moves(objects, volumes, AtVolumes, if !ok then Stopped else if volumes == {} then AtCluster else AtServices);
    more := steps + [Go(0, reply, [])];
  }

  lemma Pauses(start: Cloud, steps: seq<Step>, objects: Objects, volumes: set<string>, left: set<string>)
    returns (more: seq<Step>)
    requires At(start, steps, objects, volumes, AtServices) && left <= volumes
    ensures At(start, more, objects, left, AtServices)
  {
    var rest := Reclaims(objects, volumes, left, AtServices);
    AtConcat(start, steps, objects, volumes, AtServices, rest, objects, left, AtServices);
    more := steps + rest;
  }

  /** All claims are listed and each is deleted; a failed deletion does not keep the others from being tried. */
  method DeleteAllPersistentVolumeClaims(api: Api, ghost volumes: set<string>)
    returns (ok: bool, ghost steps: seq<Step>)
    requires api.Valid()
    modifies api
    ensures api.Valid() && OnlyClaimsLost(old(api.objects), api.objects)
    ensures ok ==> NoClaims(api.objects)
    ensures At(With(old(api.objects), volumes, AtClaims), steps, api.objects, volumes,
               if ok then AtVolumes else Stopped)
    ensures AllDone(old(api.script)) ==> AllDone(api.script) && ok
  {
    ghost var before := api.objects;
    ghost var start := With(before, volumes, AtClaims);
    var reply := api.NextReply();
    if !reply.Done? {
      steps := ListingFails(before, volumes);
      return false, steps;
    }
    var keys := set k | k in api.objects && k.0 == Claim;
    var list := Enumerate(api.objects, keys);
    var errorFound := false;
    steps := ListsThem(before, volumes, list);
    assert list[0..] == list;
    for i := 0 to |list|
      invariant api.Valid() && Tried(before, api.objects, volumes, steps, list, i, errorFound)
      invariant AllDone(old(api.script)) ==> AllDone(api.script) && !errorFound
    {
      ghost var now := api.objects;
      var deleted := api.Delete(Claim, list[i].name);
      steps := TriesOne(before, now, api.objects, volumes, steps, list, i, errorFound, deleted);
      errorFound := errorFound || !deleted;
    }
    steps := AllTried(start, steps, api.objects, volumes, errorFound);
    return !errorFound, steps;
  }

  /** The claims before the `i`-th were tried: those that are left are among the others, unless one failed. */
  ghost predicate Tried(before: Objects, now: Objects, volumes: set<string>, steps: seq<Step>, list: seq<Object>,
                        i: nat, failed: bool)
  {
    && i <= |list| && OnlyClaimsLost(before, now)
    && (!failed ==> ClaimsFrom(before, now, list, i))
    && (forall j :: i <= j < |list| ==> list[j].Key() in now)
    && At(With(before, volumes, AtClaims), steps, now, volumes, Deleting(NamesIn(list[i..]), failed))
  }

  lemma TriesOne(before: Objects, now: Objects, after: Objects, volumes: set<string>, steps: seq<Step>,
                 list: seq<Object>, i: nat, failed: bool, deleted: bool)
    returns (more: seq<Step>)
    requires Tried(before, now, volumes, steps, list, i, failed) && i < |list| && Consistent(before)
    requires (forall j :: 0 <= j < |list| ==> list[j].kind == Claim)
    requires forall j, k :: 0 <= j < k < |list| ==> list[j].Key() != list[k].Key()
    requires (after == now && !deleted) || after == now - {(Claim, list[i].name)}
    ensures Tried(before, after, volumes, more, list, i + 1, failed || !deleted)
  {
    assert list[i].Key() in now && list[i..][0] == list[i] && list[i..][1..] == list[i+1..];
    more := DeletesOne(With(before, volumes, AtClaims), steps, now, after, volumes, list[i..], failed, deleted);
    ClaimGone(before, now, list, i);
    OnlyOneGone(before, now, after, list[i]);
    OthersLeft(now, after, list, i);
  }

  lemma OnlyOneGone(before: Objects, now: Objects, after: Objects, o: Object)
    requires OnlyClaimsLost(before, now) && (after == now || after == now - {(Claim, o.name)})
    ensures OnlyClaimsLost(before, after)
  {
  }

  lemma OthersLeft(now: Objects, after: Objects, list: seq<Object>, i: nat)
    requires i < |list| && list[i].kind == Claim && (after == now || after == now - {(Claim, list[i].name)})
    requires (forall j :: i <= j < |list| ==> list[j].Key() in now)
    requires forall j, k :: 0 <= j < k < |list| ==> list[j].Key() != list[k].Key()
    ensures forall j :: i + 1 <= j < |list| ==> list[j].Key() in after
  {
    forall j | i < j < |list| ensures list[j].Key() in after {
      assert list[i].Key() != list[j].Key();
    }
  }

  /** A service or a deployment that the broker manages. */
  predicate InWay(o: Object) {
    (o.kind == Service || o.kind == Deployment) && "managed_by" in o.labels && o.labels["managed_by"] == "TAP"
  }

  /** The first half of a pass: nothing managed is there, and the claims are deleted. */
  method CheckAndClear(api: Api, ghost volumes: set<string>, ghost start: Cloud, ghost steps: seq<Step>)
    returns (stopped: Option<Outcome>, ghost more: seq<Step>)
    requires api.Valid() && At(start, steps, api.objects, volumes, AtServices)
    modifies api
    ensures api.Valid() && OnlyClaimsLost(old(api.objects), api.objects)
    ensures At(start, more, api.objects, volumes, if stopped.None? then AtVolumes else Stopped)
    ensures stopped.None? ==> NoClaims(api.objects) && !SomeInWay(old(api.objects))
    ensures stopped.Some? ==> stopped.value.CallFailed? || (stopped.value.InUse? && SomeInWay(old(api.objects)))
    ensures AllDone(old(api.script)) ==> AllDone(api.script) && stopped != Some(CallFailed)
  {
    ghost var objects := api.objects;
    var services := api.List(Service, MANAGED_BY_LABEL, TAP);
    if services.None? {
      more := Checks(start, steps, objects, volumes, false, false);
      return Some(CallFailed), more;
    }
    var deployments := api.List(Deployment, MANAGED_BY_LABEL, TAP);
    more := Checks(start, steps, objects, volumes, true, deployments.Some?);
    if deployments.None? {
      return Some(CallFailed), more;
    }
    if services.value != [] || deployments.value != [] {
      SomeListed(objects, services.value, deployments.value);
      return Some(InUse), more;
    }
    NoneListed(objects);
    var ok;
    ghost var deletions;
    ok, deletions := DeleteAllPersistentVolumeClaims(api, volumes);
    AtConcat(start, more, objects, volumes, AtClaims, deletions, api.objects, volumes,
             if ok then AtVolumes else Stopped);
    return if ok then None else Some(CallFailed), more + deletions;
  }

  /** Some service or deployment stands in the way of the deletion. */
  ghost predicate SomeInWay(objects: Objects) {
    exists k :: k in objects && InWay(objects[k])
  }

  /**
   * One remover alone, with pauses that each reclaim at least one volume: it ends within one pass more than there
   * are volumes, and it deletes the cluster only when it is clear. What it does is a run of a remover as above.
   */
  method RemoveCluster(org: Org) returns (r: Outcome, passes: nat, ghost steps: seq<Step>, ghost tried: bool)
    requires org.api.Valid()
    modifies org`volumes, org`replies, org`present, org.api
    ensures passes <= |old(org.volumes)| + 1
    ensures org.api.Valid() && OnlyClaimsLost(old(org.api.objects), org.api.objects) && org.volumes <= old(org.volumes)
    ensures r.Removed? || org.present != old(org.present) ==>
              NoClaims(org.api.objects) && org.volumes == {} && !SomeInWay(org.api.objects)
    ensures r.InUse? ==> SomeInWay(org.api.objects)
    ensures Ended(With(old(org.api.objects), old(org.volumes), AtServices), steps, org.api.objects, org.volumes, tried)
    ensures (r.Removed? || org.present != old(org.present) ==> tried) && (r.InUse? ==> !tried)
    ensures AllDone(old(org.api.script)) && AllDone(old(org.replies)) ==>
              && !r.CallFailed? && (r.Removed? ==> !org.present)
              && (r.Removed? <==> !SomeInWay(old(org.api.objects)))
  {
    ghost var before := org.api.objects;
    ghost var start := With(before, org.volumes, AtServices);
    passes, steps, tried := 0, [], false;
    while true
      invariant passes + |org.volumes| <= |old(org.volumes)| && org.volumes <= old(org.volumes)
      invariant org.api.Valid() && OnlyClaimsLost(before, org.api.objects)
      invariant org.present == old(org.present) && !tried
      invariant At(start, steps, org.api.objects, org.volumes, AtServices)
      invariant AllDone(old(org.api.script)) ==> AllDone(org.api.script)
      invariant AllDone(old(org.replies)) ==> AllDone(org.replies)
      decreases |org.volumes|
    {
      passes := passes + 1;
      ghost var now := org.api.objects;
      var stopped;
      stopped, steps := CheckAndClear(org.api, org.volumes, start, steps);
      StillThere(before, now, org.api.objects);
      if stopped.Some? {
        return stopped.value, passes, steps, false;
      }
      var volumes := org.GetAllPersistentVolumes();
      steps := ListsVolumes(start, steps, org.api.objects, org.volumes, volumes.Some?);
      if volumes.None? {
        return CallFailed, passes, steps, false;
      }
      if volumes.value == {} {
        Goes(start, steps, org.api.objects, org.volumes, AtCluster, Done, []);
        Moves(org.api.objects, org.volumes, AtCluster, Stopped);
        steps, tried := steps + [Go(0, Done, [])], true;
        var deleted := org.DeleteCluster();
        return if deleted then Removed else CallFailed, passes, steps, tried;
      }
      ghost var left := org.volumes;
      org.Pause();
      steps := Pauses(start, steps, org.api.objects, left, org.volumes);
      Sets.SmallerSet(org.volumes, left);
    }
  }

  /** What is in the way is no claim, and so stays. */
  lemma StillThere(a: Objects, b: Objects, c: Objects)
    requires Consistent(a) && OnlyClaimsLost(a, b) && OnlyClaimsLost(b, c)
    ensures OnlyClaimsLost(a, c) && (SomeInWay(a) <==> SomeInWay(b)) && (SomeInWay(b) <==> SomeInWay(c))
  {
    if SomeInWay(a) {
      var k :| k in a && InWay(a[k]);
      assert k.0 != Claim && k in b && k in c;
      assert InWay(b[k]) && InWay(c[k]);
    }
  }

  lemma NoneListed(objects: Objects)
    requires Consistent(objects)
    requires Lists([], objects, Service, MANAGED_BY_LABEL, TAP) && Lists([], objects, Deployment, MANAGED_BY_LABEL, TAP)
    ensures !HasManaged(objects, Service) && !HasManaged(objects, Deployment) && !SomeInWay(objects)
  {
  }

  lemma SomeListed(objects: Objects, services: seq<Object>, deployments: seq<Object>)
    requires Lists(services, objects, Service, MANAGED_BY_LABEL, TAP) &&
             Lists(deployments, objects, Deployment, MANAGED_BY_LABEL, TAP)
    requires services != [] || deployments != []
    ensures (HasManaged(objects, Service) || HasManaged(objects, Deployment)) && SomeInWay(objects)
  {
    var o := if services != [] then services[0] else deployments[0];
    assert o.Key() in objects && Managed(objects[o.Key()]) && InWay(objects[o.Key()]);
  }
}
