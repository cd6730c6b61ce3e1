/** The catalog of services in memory: catalog/dynamic_catalog.go, with the look-ups of catalog/servicescatalog.go. */
module DynamicCatalog {
  import opened Decimal

  datatype Service = Service(id: string, name: string, plans: seq<string>)
  type Blueprint = string

  /** The offered services, and the blueprints of those registered at run time. */
  datatype Offers = Offers(services: seq<Service>, blueprints: map<string, Blueprint>)

  /** A new service comes with a drawn id, and a blueprint unless its template cannot be filled in. */
  datatype Request = Create(s: Service, blueprint: Option<Blueprint>) | Delete(name: string)

  // ---------------------------------------------------------------- what requests do

  /** The position of the first service of a name, or the number of services. */
  function FirstNamed(services: seq<Service>, name: string): (i: nat)
    ensures i <= |services|
    ensures forall j :: 0 <= j < i ==> services[j].name != name
    ensures i < |services| ==> services[i].name == name
  {
    if services == [] then 0
    else
      var i := FirstNamed(services[..|services|-1], name);
      if i < |services| - 1 then i
      else if services[|services|-1].name == name then i else |services|
  }

  /** The list without its `i`-th service. */
  function WithoutAt(services: seq<Service>, i: nat): (rest: seq<Service>)
    requires i < |services|
    ensures |rest| == |services| - 1
    ensures forall j :: 0 <= j < |rest| ==> rest[j] == services[if j < i then j else j + 1]
  {
    services[..i] + services[i+1..]
  }

  function RemoveFirst(services: seq<Service>, name: string): seq<Service> {
    var i := FirstNamed(services, name);
    if i < |services| then WithoutAt(services, i) else services
  }

  function Register(o: Offers, s: Service, b: Blueprint): Offers {
    Offers(o.services + [s], o.blueprints[s.id := b])
  }

  function Unregister(o: Offers, s: Service): Offers {
    Offers(RemoveFirst(o.services, s.name), o.blueprints - {s.id})
  }

  function Apply(o: Offers, r: Request): Offers {
    match r
    case Create(s, blueprint) =>
      if FirstNamed(o.services, s.name) < |o.services| || blueprint.None? then o else Register(o, s, blueprint.value)
    case Delete(name) =>
      var i := FirstNamed(o.services, name);
      if i < |o.services| then Unregister(o, o.services[i]) else o
  }

  function After(o: Offers, rs: seq<Request>): Offers {
    if rs == [] then o else Apply(After(o, rs[..|rs|-1]), rs[|rs|-1])
  }

  // ---------------------------------------------------------------- the invariant

  predicate DistinctServices(services: seq<Service>) {
    forall i, j :: 0 <= i < j < |services| ==> services[i].name != services[j].name && services[i].id != services[j].id
  }

  predicate HasId(services: seq<Service>, id: string) {
    exists i :: 0 <= i < |services| && services[i].id == id
  }

  /** Names and ids are distinct, and each blueprint belongs to a listed service (so to exactly one). */
  predicate Inv(o: Offers) {
    DistinctServices(o.services) && forall id :: id in o.blueprints ==> HasId(o.services, id)
  }

  /** The ids drawn for new services are new. */
  predicate FreshIds(o: Offers, rs: seq<Request>) {
    && (forall i :: 0 <= i < |rs| && rs[i].Create? ==> !HasId(o.services, rs[i].s.id))
    && (forall i, j :: 0 <= i < j < |rs| && rs[i].Create? && rs[j].Create? ==> rs[i].s.id != rs[j].s.id)
  }

  lemma IdsWithout(services: seq<Service>, i: nat, id: string)
    requires DistinctServices(services) && i < |services|
    ensures HasId(WithoutAt(services, i), id) <==> HasId(services, id) && id != services[i].id
  {
    var rest := WithoutAt(services, i);
    if HasId(services, id) && id != services[i].id {
      var j :| 0 <= j < |services| && services[j].id == id;
      assert rest[if j < i then j else j - 1].id == id;
    }
    if HasId(rest, id) {
      var j :| 0 <= j < |rest| && rest[j].id == id;
      assert services[if j < i then j else j + 1].id == id;
    }
  }

  lemma RemoveKeeps(o: Offers, i: nat)
    requires Inv(o) && i < |o.services|
    ensures FirstNamed(o.services, o.services[i].name) == i
    ensures Inv(Unregister(o, o.services[i]))
    ensures forall id :: HasId(Unregister(o, o.services[i]).services, id) <==>
              HasId(o.services, id) && id != o.services[i].id
  {
    var rest := WithoutAt(o.services, i);
    assert FirstNamed(o.services, o.services[i].name) == i;
    forall id ensures HasId(rest, id) <==> HasId(o.services, id) && id != o.services[i].id {
      IdsWithout(o.services, i, id);
    }
    DistinctWithout(o.services, i);
  }

  lemma DistinctWithout(services: seq<Service>, i: nat)
    requires DistinctServices(services) && i < |services|
    ensures DistinctServices(WithoutAt(services, i))
  {
  }

  lemma RegisterKeeps(o: Offers, s: Service, b: Blueprint)
    requires Inv(o) && FirstNamed(o.services, s.name) == |o.services| && !HasId(o.services, s.id)
    ensures Inv(Register(o, s, b))
    ensures forall id :: HasId(Register(o, s, b).services, id) <==> HasId(o.services, id) || id == s.id
  {
    var all := o.services + [s];
    assert all[|o.services|] == s;
    forall id | HasId(o.services, id) ensures HasId(all, id) {
      var j :| 0 <= j < |o.services| && o.services[j].id == id;
      assert all[j].id == id;
    }
  }

  /**
   * Any sequence of requests, run one at a time from a catalog with distinct names and ids, keeps them distinct and
   * every blueprint with exactly one listed service; an id is listed only if it was, or was drawn on the way.
   */
  lemma {:induction false} RequestsKeep(o: Offers, rs: seq<Request>)
    requires Inv(o) && FreshIds(o, rs)
    ensures Inv(After(o, rs))
    ensures forall id :: HasId(After(o, rs).services, id) ==>
              HasId(o.services, id) || exists i :: 0 <= i < |rs| && rs[i].Create? && rs[i].s.id == id
  {
    if rs != [] {
      var init, last := rs[..|rs|-1], rs[|rs|-1];
      assert forall i :: 0 <= i < |init| ==> init[i] == rs[i];
      RequestsKeep(o, init);
      var p := After(o, init);
      match last
      case Create(s, blueprint) =>
        if FirstNamed(p.services, s.name) == |p.services| && blueprint.Some? {
          NotYetDrawn(o, rs);
          RegisterKeeps(p, s, blueprint.value);
        }
      case Delete(name) =>
        if FirstNamed(p.services, name) < |p.services| {
          RemoveKeeps(p, FirstNamed(p.services, name));
        }
    }
  }

  lemma NotYetDrawn(o: Offers, rs: seq<Request>)
    requires rs != [] && rs[|rs|-1].Create? && FreshIds(o, rs)
    requires var init := rs[..|rs|-1];
             forall id :: HasId(After(o, init).services, id) ==>
               HasId(o.services, id) || exists i :: 0 <= i < |init| && init[i].Create? && init[i].s.id == id
    ensures !HasId(After(o, rs[..|rs|-1]).services, rs[|rs|-1].s.id)
  {
  }

  /** Registering a new service and deleting it by its name restores the order of the list and the blueprints. */
  lemma CreateThenDelete(o: Offers, s: Service, blueprint: Blueprint)
    requires Inv(o) && FirstNamed(o.services, s.name) == |o.services| && !HasId(o.services, s.id)
    ensures Apply(Apply(o, Create(s, Some(blueprint))), Delete(s.name)) == o
  {
    var p := Register(o, s, blueprint);
    RegisterKeeps(o, s, blueprint);
    RemoveKeeps(p, |o.services|);
    TakeAll(o.services, s);
    AddAndDrop(o.blueprints, s.id, blueprint);
  }

  lemma TakeAll(services: seq<Service>, s: Service)
    ensures var all := services + [s]; all[..|services|] + all[|services|+1..] == services
  {
  }

  lemma AddAndDrop(m: map<string, Blueprint>, id: string, b: Blueprint)
    requires id !in m
    ensures m[id := b] - {id} == m
  {
  }

  // ---------------------------------------------------------------- requests at the same time

  /** A request between its look-up and its update: a new service under a free name, or a service to be deleted. */
  datatype Session = Checked(s: Service, blueprint: Blueprint) | Found(s: Service)

  /** The catalog and the requests in progress. Only the updates hold the lock. */
  datatype System = System(offers: Offers, sessions: map<nat, Session>)

  datatype Step = Check(q: nat, s: Service, blueprint: Blueprint) | LookUp(q: nat, name: string) | Update(q: nat)

  function Updated(o: Offers, x: Session): Offers {
    match x
    case Checked(s, blueprint) => Register(o, s, blueprint)
    case Found(s) => Unregister(o, s)
  }

  /** A step that is not possible, or that ends a request with an error, changes nothing. */
  function Next(sys: System, step: Step): System {
    match step
    case Check(q, s, blueprint) =>
      if q in sys.sessions || FirstNamed(sys.offers.services, s.name) < |sys.offers.services| then sys
      else sys.(sessions := sys.sessions[q := Checked(s, blueprint)])
    case LookUp(q, name) =>
      var i := FirstNamed(sys.offers.services, name);
      if q in sys.sessions || i == |sys.offers.services| then sys
      else sys.(sessions := sys.sessions[q := Found(sys.offers.services[i])])
    case Update(q) =>
      if q in sys.sessions then System(Updated(sys.offers, sys.sessions[q]), sys.sessions - {q}) else sys
  }

  function Later(sys: System, steps: seq<Step>): System {
    if steps == [] then sys else Next(Later(sys, steps[..|steps|-1]), steps[|steps|-1])
  }

  lemma Then(sys: System, steps: seq<Step>, step: Step)
    ensures Later(sys, steps + [step]) == Next(Later(sys, steps), step)
  {
    assert (steps + [step])[..|steps|] == steps;
  }

  /** A request whose two steps nothing comes between does what the handler does. */
  lemma RequestsAreRuns(sys: System, q: nat, s: Service, blueprint: Blueprint, name: string)
    requires q !in sys.sessions
    ensures Later(sys, [Check(q, s, blueprint)] + [Update(q)]) ==
            System(Apply(sys.offers, Create(s, Some(blueprint))), sys.sessions)
    ensures Later(sys, [LookUp(q, name)] + [Update(q)]) == System(Apply(sys.offers, Delete(name)), sys.sessions)
  {
    Then(sys, [], Check(q, s, blueprint));
    Then(sys, [], LookUp(q, name));
    assert [] + [Check(q, s, blueprint)] == [Check(q, s, blueprint)] && [] + [LookUp(q, name)] == [LookUp(q, name)];
    Then(sys, [Check(q, s, blueprint)], Update(q));
    Then(sys, [LookUp(q, name)], Update(q));
    SessionGone(sys.sessions, q, Checked(s, blueprint));
    var i := FirstNamed(sys.offers.services, name);
    if i < |sys.offers.services| {
      SessionGone(sys.sessions, q, Found(sys.offers.services[i]));
    }
  }

  lemma SessionGone(sessions: map<nat, Session>, q: nat, x: Session)
    requires q !in sessions
    ensures sessions[q := x] - {q} == sessions
  {
  }

  /**
   * The update's look-up is still right: the name is free, or still the name of that service, or at least of none whose
   * blueprint a removal would leave behind.
   */
  predicate Current(o: Offers, x: Session) {
    var i := FirstNamed(o.services, x.s.name);
    match x
    case Checked(s, _) => i == |o.services| && !HasId(o.services, s.id)
    case Found(s) => i == |o.services| || o.services[i].id == s.id || o.services[i].id !in o.blueprints
  }

  /** An update keeps the invariant exactly when its look-up is still right. */
  lemma UpdateKeepsIff(o: Offers, x: Session)
    requires Inv(o)
    ensures Inv(Updated(o, x)) <==> Current(o, x)
  {
    var i, n := FirstNamed(o.services, x.s.name), |o.services|;
    if x.Checked? {
      if Current(o, x) {
        RegisterKeeps(o, x.s, x.blueprint);
      } else {
        NotNew(o, x.s, x.blueprint);
      }
    } else if i < n {
      RemoveKeeps(o, i);
      SameList(o, x.s, o.services[i]);
    }
  }

  lemma NotNew(o: Offers, s: Service, b: Blueprint)
    requires FirstNamed(o.services, s.name) < |o.services| || HasId(o.services, s.id)
    ensures !Inv(Register(o, s, b))
  {
    var all, n := o.services + [s], |o.services|;
    var i := FirstNamed(o.services, s.name);
    if i < n {
      assert all[i].name == all[n].name;
    } else {
      var j :| 0 <= j < n && o.services[j].id == s.id;
      assert all[j].id == all[n].id;
    }
  }

  /** Deleting by a stale service removes the one that bears the name now, and the blueprint of the stale one. */
  lemma SameList(o: Offers, s: Service, t: Service)
    requires Inv(o) && s.name == t.name && FirstNamed(o.services, t.name) < |o.services|
    requires o.services[FirstNamed(o.services, t.name)] == t
    requires Inv(Unregister(o, t)) &&
             forall id :: HasId(Unregister(o, t).services, id) <==> HasId(o.services, id) && id != t.id
    ensures Inv(Unregister(o, s)) <==> t.id == s.id || t.id !in o.blueprints
  {
    assert Unregister(o, s).services == Unregister(o, t).services;
    if t.id != s.id && t.id in o.blueprints {
      assert t.id in Unregister(o, s).blueprints;
    }
  }

  /** The step is no update, or one whose look-up is still right. */
  predicate Right(sys: System, step: Step) {
    step.Update? && step.q in sys.sessions ==> Current(sys.offers, sys.sessions[step.q])
  }

  /** Each update of a run finds what its look-up found. */
  predicate AllRight(sys: System, steps: seq<Step>) {
    steps != [] ==> AllRight(sys, steps[..|steps|-1]) && Right(Later(sys, steps[..|steps|-1]), steps[|steps|-1])
  }

  /** The invariant holds after every step of a run. */
  predicate Survives(sys: System, steps: seq<Step>) {
    Inv(Later(sys, steps).offers) && (steps != [] ==> Survives(sys, steps[..|steps|-1]))
  }

  /**
   * Over every interleaving of requests: the invariant survives all the way exactly when each update finds what its
   * look-up found.
   */
  lemma {:induction false} SurvivesIff(sys: System, steps: seq<Step>)
    requires Inv(sys.offers)
    ensures Survives(sys, steps) <==> AllRight(sys, steps)
  {
    if steps != [] {
      var init, last := steps[..|steps|-1], steps[|steps|-1];
      SurvivesIff(sys, init);
      var now := Later(sys, init);
      if Inv(now.offers) && last.Update? && last.q in now.sessions {
        UpdateKeepsIff(now.offers, now.sessions[last.q]);
      }
      if AllRight(sys, init) {
        SurvivesNow(sys, init);
      }
    }
  }

  lemma SurvivesNow(sys: System, steps: seq<Step>)
    requires Survives(sys, steps)
    ensures Inv(Later(sys, steps).offers)
  {
  }

  /**
   * Two creations that both checked before either registered: the invariant survives exactly when their names differ.
   */
  lemma RacingCreatesIff(o: Offers, x: Session, y: Session)
    requires Inv(o) && x.Checked? && y.Checked? && Current(o, x) && Current(o, y) && x.s.id != y.s.id
    ensures Inv(Updated(Updated(o, x), y)) <==> x.s.name != y.s.name
  {
    var p := Register(o, x.s, x.blueprint);
    RegisterKeeps(o, x.s, x.blueprint);
    UpdateKeepsIff(p, y);
    assert p.services[|o.services|] == x.s;
    assert forall j :: 0 <= j < |o.services| ==> p.services[j] == o.services[j];
  }

  /**
   * A deletion that looked its service up before another request deleted it and a third registered a new one: the
   * invariant survives exactly when the new service has another name; else it is removed and its blueprint stays.
   */
  lemma StaleDeletionIff(o: Offers, i: nat, y: Session)
    requires Inv(o) && i < |o.services| && y.Checked? && Current(Unregister(o, o.services[i]), y) &&
             y.s.id != o.services[i].id
    ensures Inv(Updated(Updated(Unregister(o, o.services[i]), y), Found(o.services[i]))) <==>
              y.s.name != o.services[i].name
  {
    var s := o.services[i];
    RemoveKeeps(o, i);
    var p := Unregister(o, s);
    RegisterKeeps(p, y.s, y.blueprint);
    var q := Register(p, y.s, y.blueprint);
    UpdateKeepsIff(q, Found(s));
    assert q.services[|p.services|] == y.s && y.s.id in q.blueprints;
    assert forall j :: 0 <= j < |p.services| ==> q.services[j] == p.services[j];
    NoLongerNamed(o, i);
  }

  lemma NoLongerNamed(o: Offers, i: nat)
    requires Inv(o) && i < |o.services|
    ensures forall j :: 0 <= j < |Unregister(o, o.services[i]).services| ==>
              Unregister(o, o.services[i]).services[j].name != o.services[i].name
  {
    RemoveKeeps(o, i);
  }

  // ---------------------------------------------------------------- one request per name

  /** The requests in progress have different names, draw different new ids, and their look-ups are right. */
  predicate Apart(sys: System) {
    && (forall p, q :: p in sys.sessions && q in sys.sessions && p != q ==>
          sys.sessions[p].s.name != sys.sessions[q].s.name && sys.sessions[p].s.id != sys.sessions[q].s.id)
    && (forall q :: q in sys.sessions ==>
          if sys.sessions[q].Checked? then Current(sys.offers, sys.sessions[q])
              else sys.sessions[q].s in sys.offers.services)
  }

  /** A request begins only when no other of its name is in progress, and with an id that is new. */
  predicate Waits(sys: System, step: Step) {
    match step
    case Check(_, s, _) =>
      && !HasId(sys.offers.services, s.id)
      && forall q :: q in sys.sessions ==> sys.sessions[q].s.name != s.name && sys.sessions[q].s.id != s.id
    case LookUp(_, name) => forall q :: q in sys.sessions ==> sys.sessions[q].s.name != name
    case Update(_) => true
  }

  lemma InListIsCurrent(o: Offers, s: Service)
    requires Inv(o) && s in o.services
    ensures Current(o, Found(s))
  {
    var j :| 0 <= j < |o.services| && o.services[j] == s;
    RemoveKeeps(o, j);
  }

  lemma StaysListed(services: seq<Service>, i: nat, s: Service)
    requires i < |services| && s in services && services[i] != s
    ensures s in WithoutAt(services, i)
  {
    var j :| 0 <= j < |services| && services[j] == s;
    assert WithoutAt(services, i)[if j < i then j else j - 1] == s;
  }

  lemma OthersStay(o: Offers, x: Session, y: Session)
    requires Inv(o) && x.s.name != y.s.name && x.s.id != y.s.id
    requires if x.Checked? then Current(o, x) else x.s in o.services
    requires if y.Checked? then Current(o, y) else y.s in o.services
    ensures if y.Checked? then Current(Updated(o, x), y) else y.s in Updated(o, x).services
  {
    if x.Checked? {
      RegisterKeeps(o, x.s, x.blueprint);
      var p := Register(o, x.s, x.blueprint);
      assert forall j :: 0 <= j < |o.services| ==> p.services[j] == o.services[j];
      assert p.services[|o.services|] == x.s;
    } else {
      var i :| 0 <= i < |o.services| && o.services[i] == x.s;
      RemoveKeeps(o, i);
      assert Unregister(o, x.s).services == WithoutAt(o.services, i);
      if y.Found? {
        StaysListed(o.services, i, y.s);
      }
    }
  }

  lemma StepApart(sys: System, step: Step)
    requires Inv(sys.offers) && Apart(sys) && Waits(sys, step)
    ensures Inv(Next(sys, step).offers) && Apart(Next(sys, step))
  {
    match step
    case Check(q, s, blueprint) =>
    case LookUp(q, name) =>
      var i := FirstNamed(sys.offers.services, name);
      if i < |sys.offers.services| {
        forall p | p in sys.sessions ensures sys.sessions[p].s.id != sys.offers.services[i].id {
          DifferentId(sys.offers, sys.sessions[p], i);
        }
      }
    case Update(q) =>
      if q in sys.sessions {
        var x := sys.sessions[q];
        if x.Found? {
          InListIsCurrent(sys.offers, x.s);
        }
        UpdateKeepsIff(sys.offers, x);
        forall p | p in sys.sessions && p != q
          ensures if sys.sessions[p].Checked? then Current(Updated(sys.offers, x), sys.sessions[p])
                  else sys.sessions[p].s in Updated(sys.offers, x).services
        {
          OthersStay(sys.offers, x, sys.sessions[p]);
        }
      }
  }

  lemma DifferentId(o: Offers, x: Session, i: nat)
    requires Inv(o) && i < |o.services| && x.s.name != o.services[i].name
    requires if x.Checked? then Current(o, x) else x.s in o.services
    ensures x.s.id != o.services[i].id
  {
    if x.Checked? {
      assert !HasId(o.services, x.s.id);
    } else {
      var j :| 0 <= j < |o.services| && o.services[j] == x.s;
    }
  }

  /** With one request per name at a time the invariant survives every interleaving. */
  lemma {:induction false} OnePerName(sys: System, steps: seq<Step>)
    requires Inv(sys.offers) && Apart(sys)
    requires forall n :: 0 <= n < |steps| ==> Waits(Later(sys, steps[..n]), steps[n])
    ensures Inv(Later(sys, steps).offers) && Apart(Later(sys, steps))
  {
    if steps != [] {
      var init := steps[..|steps|-1];
      forall n | 0 <= n < |init| ensures Waits(Later(sys, init[..n]), init[n]) {
        assert init[..n] == steps[..n] && init[n] == steps[n];
      }
      OnePerName(sys, init);
      StepApart(Later(sys, init), steps[|steps|-1]);
    }
  }

  // ---------------------------------------------------------------- the list in place

  /**
   * What stands in the cells of a list from which position `i` was removed in place: the last cell keeps its old
   * content.
   */
  function Shifted(services: seq<Service>, i: nat): seq<Service>
    requires i < |services|
  {
    services[..i] + services[i+1..] + [services[|services|-1]]
  }

  /**
   * A reader that took the list before a removal still reads the same cells. It sees the old list exactly when the
   * removed service was the last; otherwise it misses that service and sees the last one twice.
   */
  lemma OldReaderIff(services: seq<Service>, i: nat)
    requires DistinctServices(services) && i < |services|
    ensures Shifted(services, i) == services <==> i == |services| - 1
    ensures i < |services| - 1 ==> !DistinctServices(Shifted(services, i)) && services[i] !in Shifted(services, i)
  {
    var t, n := Shifted(services, i), |services|;
    assert forall j :: 0 <= j < n ==>
        t[j] == if j < i then services[j] else if j < n - 1 then services[j+1] else services[n-1];
    if i < n - 1 {
      assert t[n-2] == t[n-1] == services[n-1];
      assert t[i] != services[i];
    }
  }

  lemma ShiftedTake(services: seq<Service>, i: nat)
    requires i < |services|
    ensures Shifted(services, i)[..|services|-1] == services[..i] + services[i+1..]
  {
  }

  /** The first service of the name is gone, with the blueprint of its id. */
  predicate FirstGone(before: Offers, after: Offers, name: string) {
    var i := FirstNamed(before.services, name);
    && i < |before.services|
    && after.services == before.services[..i] + before.services[i+1..]
    && after.blueprints == before.blueprints - {before.services[i].id}
  }

  lemma DeleteIs(o: Offers, name: string)
    ensures var i := FirstNamed(o.services, name);
            Apply(o, Delete(name)) == if i < |o.services| then Unregister(o, o.services[i]) else o
    ensures FirstNamed(o.services, name) < |o.services| ==> FirstGone(o, Apply(o, Delete(name)), name)
  {
  }

  class Catalog {
    var data: array<Service>
    var len: nat
    var blueprints: map<string, Blueprint>

    ghost predicate Valid()
      reads this
    {
      len <= data.Length
    }

    ghost function Contents(): Offers
      reads this, data
      requires Valid()
    {
      Offers(data[..len], blueprints)
    }

    constructor (services: seq<Service>)
      ensures Valid() && fresh(data) && Contents() == Offers(services, map[])
    {
      data := new Service[|services|](i requires 0 <= i < |services| => services[i]);
      len := |services|;
      blueprints := map[];
      new;
      assert data[..len] == services;
    }

    method CheckIfServiceAlreadyExist(name: string) returns (found: bool)
      requires Valid()
      ensures found <==> FirstNamed(Contents().services, name) < len
    {
      var s := GetServiceByName(name);
      found := s.Some?;
    }

    method GetServiceByName(name: string) returns (s: Option<Service>)
      requires Valid()
      ensures var i := FirstNamed(Contents().services, name);
              s == if i < len then Some(Contents().services[i]) else None
    {
      for i := 0 to len
        invariant forall j :: 0 <= j < i ==> data[j].name != name
      {
        if data[i].name == name {
          return Some(data[i]);
        }
      }
      return None;
    }

    method GetServiceMetadataByServiceId(id: string) returns (s: Option<Service>)
      requires Valid()
      ensures s.Some? <==> HasId(Contents().services, id)
      ensures s.Some? ==> exists i :: 0 <= i < len && Contents().services[i] == s.value && s.value.id == id &&
                                      forall j :: 0 <= j < i ==> Contents().services[j].id != id
    {
      for i := 0 to len
        invariant forall j :: 0 <= j < i ==> data[j].id != id
      {
        if data[i].id == id {
          assert Contents().services[i] == data[i];
          return Some(data[i]);
        }
      }
      return None;
    }

    /** Appends in place while there is room, and to a copy otherwise. */
    method RegisterOfferingInCatalog(s: Service, b: Blueprint)
      requires Valid()
      modifies this, data
      ensures Valid() && (data == old(data) || fresh(data))
      ensures Contents() == Register(old(Contents()), s, b)
      ensures Contents().services == old(Contents()).services + [s]
      ensures blueprints == old(blueprints)[s.id := b]
      ensures old(data[..len]) == old(data)[..old(len)]
    {
      if len == data.Length {
        var grown := new Service[2 * len + 1](_ => s);
        forall i | 0 <= i < len {
          grown[i] := data[i];
        }
        data := grown;
      }
      data[len] := s;
      len := len + 1;
      blueprints := blueprints[s.id := b];
      assert data[..len-1] == old(data[..len]);
    }

    /** Removes the first service of the name by moving the later ones down, and the blueprint of the id. */
    method UnregisterOfferingFromCatalog(s: Service)
      requires Valid()
      modifies this, data
      ensures Valid() && data == old(data)
      ensures Contents() == Unregister(old(Contents()), s)
      ensures var before, i := old(Contents()).services, FirstNamed(old(Contents()).services, s.name);
              Contents().services == if i < |before| then before[..i] + before[i+1..] else before
      ensures blueprints == old(blueprints) - {s.id}
      ensures var i := FirstNamed(old(Contents()).services, s.name);
              data[..old(len)] == if i < old(len) then Shifted(old(Contents()).services, i)
                  else old(Contents()).services
    {
      ghost var before := data[..len];
      var i := 0;
      while i < len && data[i].name != s.name
        invariant i <= len && forall j :: 0 <= j < i ==> data[j].name != s.name
      {
        i := i + 1;
      }
      assert i == FirstNamed(before, s.name);
      if i < len {
        MoveDown(i);
        len := len - 1;
        ShiftedTake(before, i);
        assert data[..len] == Shifted(before, i)[..len];
      }
      blueprints := blueprints - {s.id};
    }

    /** The cells after `i` move down by one; the last keeps its content. */
    method MoveDown(i: nat)
      requires Valid() && i < len
      modifies data
      ensures data[..len] == Shifted(old(data[..len]), i)
    {
      forall j | i <= j < len - 1 {
        data[j] := data[j+1];
      }
    }

    /** The handler that creates a dynamic service. */
    method CreateAndRegisterDynamicService(s: Service, blueprint: Option<Blueprint>) returns (ok: bool)
      requires Valid()
      modifies this, data
      ensures Valid() && (data == old(data) || fresh(data))
      ensures Contents() == Apply(old(Contents()), Create(s, blueprint))
      ensures ok <==> FirstNamed(old(Contents()).services, s.name) == old(len) && blueprint.Some?
      ensures Contents().services == old(Contents()).services + if ok then [s] else []
      ensures blueprints == if ok then old(blueprints)[s.id := blueprint.value] else old(blueprints)
    {
      var found := CheckIfServiceAlreadyExist(s.name);
      if found || blueprint.None? {
        return false;
      }
      RegisterOfferingInCatalog(s, blueprint.value);
      return true;
    }

    /** The handler that deletes one by its name: dynamic or not. */
    method DeleteAndUnRegisterDynamicService(name: string) returns (ok: bool)
      requires Valid()
      modifies this, data
      ensures Valid() && data == old(data)
      ensures Contents() == Apply(old(Contents()), Delete(name))
      ensures ok <==> FirstNamed(old(Contents()).services, name) < old(len)
      ensures if ok then FirstGone(old(Contents()), Contents(), name) else Contents() == old(Contents())
    {
      var s := GetServiceByName(name);
      DeleteIs(Contents(), name);
      if s.None? {
        return false;
      }
      UnregisterOfferingFromCatalog(s.value);
      return true;
    }

    /** Requests run one at a time. */
    method Serve(requests: seq<Request>)
      requires Valid() && Inv(Contents()) && FreshIds(Contents(), requests)
      modifies this, data
      ensures Valid() && Contents() == After(old(Contents()), requests) && Inv(Contents())
    {
      ghost var start := Contents();
      for i := 0 to |requests|
        invariant Valid() && (data == old(data) || fresh(data))
        invariant Contents() == After(start, requests[..i])
      {
        assert requests[..i+1][..i] == requests[..i];
        match requests[i]
        case Create(s, blueprint) => var ok := CreateAndRegisterDynamicService(s, blueprint);
        case Delete(name) => var ok := DeleteAndUnRegisterDynamicService(name);
      }
      assert requests[..|requests|] == requests;
      RequestsKeep(start, requests);
    }
  }
}
