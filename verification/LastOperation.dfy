/**
 * Provisioning and polling: `ServiceInstancesPut` and `ServiceInstancesGetLastOperation` of app/tap/broker_api.go,
 * over every interleaving of handlers and pollers.
 */
module LastOperation {
  import opened Decimal
  import opened Cluster
  import opened State
  import Fabricator
  import Sets

  const STARTED := "IN_PROGRESS_STARTED"
  const METADATA_OK := "IN_PROGRESS_METADATA_OK"
  const IN_BACKGROUND := "IN_PROGRESS_IN_BACKGROUND_JOB"
  const BLUEPRINT_OK := "IN_PROGRESS_BLUEPRINT_OK"
  const KUBERNETES_OK := "IN_PROGRESS_KUBERNETES_OK"
  const FAIL := "FAIL"

  /** In nanoseconds. */
  const TWENTY_MINUTES := 20 * 60 * 1_000_000_000
  /** A request that cannot be read is reported under this id. */
  const UNREAD := "1"

  datatype Answer = InProgress | Succeeded | Failed
  datatype Health = Unreachable | CheckFailed | Healthy | Unhealthy

  // ---------------------------------------------------------------- the handler

  /** What a handler does next: file a report, make a call that may fail, or create an object. */
  datatype Action = Say(state: string) | Call | Make(o: Object)

  function ItemPair(state: string, o: Object): seq<Action> {
    [Say(state), Make(o)]
  }

  function ItemActions(item: string, os: seq<Object>): seq<Action> {
    if os == [] then []
    else ItemActions(item, os[..|os|-1]) + ItemPair(item + Itoa(|os| - 1), os[|os|-1])
  }

  function StageActions(s: Fabricator.Stage): seq<Action> {
    [Say(s.header)] + ItemActions(s.item, s.objects)
  }

  function FabActions(stages: seq<Fabricator.Stage>): seq<Action> {
    if stages == [] then []
    else FabActions(stages[..|stages|-1]) + StageActions(stages[|stages|-1])
  }

  /** From the parsed blueprint on: the call for the cluster, and that for its client. */
  const CONNECTING := [Say(BLUEPRINT_OK)] + ([Call] + [Call])
  /** The background job: parsing the blueprint comes first. */
  const PARSING := [Say(IN_BACKGROUND)] + ([Call] + CONNECTING)
  /** The whole opening: the metadata of the service and the plan are looked up first. */
  const OPENING := [Say(STARTED)] + ([Call] + ([Say(METADATA_OK)] + PARSING))

  /** The handler of a request, if nothing fails. */
  function Program(c: Fabricator.Component, extra: seq<EnvVar>): seq<Action> {
    OPENING + (FabActions(Fabricator.Stages(c, extra)) + [Say(Fabricator.FAB_OK), Say(KUBERNETES_OK)])
  }

  function Said(p: seq<Action>): seq<string> {
    if p == [] then [] else Said(p[..|p|-1]) + (if p[|p|-1].Say? then [p[|p|-1].state] else [])
  }

  function Made(p: seq<Action>): seq<Object> {
    if p == [] then [] else Made(p[..|p|-1]) + (if p[|p|-1].Make? then [p[|p|-1].o] else [])
  }

  lemma {:induction false} SaidConcat(a: seq<Action>, b: seq<Action>)
    ensures Said(a + b) == Said(a) + Said(b) && Made(a + b) == Made(a) + Made(b)
  {
    if b == [] {
      assert a + b == a;
    } else {
      assert (a + b)[..|a + b|-1] == a + b[..|b|-1];
      SaidConcat(a, b[..|b|-1]);
    }
  }

  function ItemReports(item: string, n: nat): seq<string> {
    if n == 0 then [] else ItemReports(item, n - 1) + [item + Itoa(n - 1)]
  }

  lemma {:induction false} HeaderFirst(s: Fabricator.Stage, n: nat)
    ensures [s.header] + ItemReports(s.item, n) == Fabricator.StageReports(s, n)
  {
    if n > 0 {
      HeaderFirst(s, n - 1);
      assert [s.header] + (ItemReports(s.item, n - 1) + [s.item + Itoa(n - 1)]) ==
             ([s.header] + ItemReports(s.item, n - 1)) + [s.item + Itoa(n - 1)];
    }
  }

  lemma {:induction false} ItemsSaid(item: string, os: seq<Object>)
    ensures Said(ItemActions(item, os)) == ItemReports(item, |os|) && Made(ItemActions(item, os)) == os
  {
    if os != [] {
      var init, last, state := os[..|os|-1], os[|os|-1], item + Itoa(|os| - 1);
      ItemsSaid(item, init);
      ItemSaid(state, last);
      SaidConcat(ItemActions(item, init), ItemPair(state, last));
      assert init + [last] == os;
    }
  }

  lemma SingleAction(a: Action)
    ensures Said([a]) == (if a.Say? then [a.state] else []) && Made([a]) == if a.Make? then [a.o] else []
  {
    assert [a][..0] == [];
  }

  lemma ItemSaid(state: string, o: Object)
    ensures Said(ItemPair(state, o)) == [state] && Made(ItemPair(state, o)) == [o]
  {
    SingleAction(Say(state));
    SingleAction(Make(o));
    assert [Say(state)] + [Make(o)] == ItemPair(state, o);
    SaidConcat([Say(state)], [Make(o)]);
  }

  lemma StageSaid(s: Fabricator.Stage)
    ensures Said(StageActions(s)) == Fabricator.StageReports(s, |s.objects|) && Made(StageActions(s)) == s.objects
  {
    ItemsSaid(s.item, s.objects);
    HeaderFirst(s, |s.objects|);
    SingleAction(Say(s.header));
    SaidConcat([Say(s.header)], ItemActions(s.item, s.objects));
    assert [] + s.objects == s.objects;
  }

  /** The handler's creations are those of the six blocks, and its reports between them are their schedule. */
  lemma {:induction false} FabActionsSay(stages: seq<Fabricator.Stage>)
    ensures Said(FabActions(stages)) == Fabricator.Reports(stages) &&
            Made(FabActions(stages)) == Fabricator.Items(stages)
  {
    if stages != [] {
      FabActionsSay(stages[..|stages|-1]);
      StageSaid(stages[|stages|-1]);
      SaidConcat(FabActions(stages[..|stages|-1]), StageActions(stages[|stages|-1]));
    }
  }

  const SAID_BEFORE := [STARTED] + ([METADATA_OK] + ([IN_BACKGROUND] + [BLUEPRINT_OK]))

  /** A report that neither ends the provisioning nor fails it. */
  predicate Passing(state: string) {
    |state| > 12 && state[0] == 'I' && state[12] != 'K'
  }

  predicate Quiet(p: seq<Action>) {
    forall i :: 0 <= i < |p| && p[i].Say? ==> Passing(p[i].state)
  }

  /** The handler says KUBERNETES_OK at its end, and only there. */
  predicate GoodProgram(p: seq<Action>) {
    p != [] && p[|p|-1] == Say(KUBERNETES_OK) && Quiet(p[..|p|-1])
  }

  lemma {:induction false} ItemsQuiet(item: string, os: seq<Object>)
    requires Passing(item)
    ensures Quiet(ItemActions(item, os))
  {
    if os != [] {
      ItemsQuiet(item, os[..|os|-1]);
    }
  }

  lemma {:induction false} FabQuiet(stages: seq<Fabricator.Stage>)
    requires forall k :: 0 <= k < |stages| ==> Passing(stages[k].header) && Passing(stages[k].item)
    ensures Quiet(FabActions(stages))
  {
    if stages != [] {
      var s := stages[|stages|-1];
      FabQuiet(stages[..|stages|-1]);
      ItemsQuiet(s.item, s.objects);
    }
  }

  lemma SaysThen(state: string, p: seq<Action>)
    requires Passing(state) && Quiet(p)
    ensures Said([Say(state)] + p) == [state] + Said(p) && Made([Say(state)] + p) == Made(p) && Quiet([Say(state)] + p)
  {
    SingleAction(Say(state));
    SaidConcat([Say(state)], p);
  }

  lemma CallThen(p: seq<Action>)
    requires Quiet(p)
    ensures Said([Call] + p) == Said(p) && Made([Call] + p) == Made(p) && Quiet([Call] + p)
  {
    SingleAction(Call);
    SaidConcat([Call], p);
  }

  lemma PassingStates()
    ensures Passing(STARTED) && Passing(METADATA_OK) && Passing(IN_BACKGROUND) && Passing(BLUEPRINT_OK)
  {
  }

  lemma ConnectingSays()
    ensures Quiet(CONNECTING) && Said(CONNECTING) == [BLUEPRINT_OK] && Made(CONNECTING) == []
  {
    PassingStates();
    CallsSayNothing();
    SaysThen(BLUEPRINT_OK, [Call] + [Call]);
  }

  lemma CallsSayNothing()
    ensures Quiet([Call] + [Call]) && Said([Call] + [Call]) == [] && Made([Call] + [Call]) == []
  {
    SingleAction(Call);
    CallThen([Call]);
  }

  lemma ParsingSays()
    ensures Quiet(PARSING) && Said(PARSING) == [IN_BACKGROUND] + [BLUEPRINT_OK] && Made(PARSING) == []
  {
    PassingStates();
    ConnectingSays();
    CallThen(CONNECTING);
    SaysThen(IN_BACKGROUND, [Call] + CONNECTING);
  }

  lemma OpeningSays()
    ensures Quiet(OPENING) && Said(OPENING) == [STARTED] + ([METADATA_OK] + ([IN_BACKGROUND] + [BLUEPRINT_OK])) &&
            Made(OPENING) == []
  {
    PassingStates();
    ParsingSays();
    SaysThen(METADATA_OK, PARSING);
    CallThen([Say(METADATA_OK)] + PARSING);
    SaysThen(STARTED, [Call] + ([Say(METADATA_OK)] + PARSING));
  }

  lemma QuietConcat(a: seq<Action>, b: seq<Action>)
    requires Quiet(a) && Quiet(b)
    ensures Quiet(a + b)
  {
  }

  lemma StagesQuiet(c: Fabricator.Component, extra: seq<EnvVar>)
    ensures Quiet(FabActions(Fabricator.Stages(c, extra)))
  {
    var stages := Fabricator.Stages(c, extra);
    assert forall k :: 0 <= k < 6 ==> Passing(stages[k].header);
    assert forall k :: 0 <= k < 6 ==> Passing(stages[k].item);
    FabQuiet(stages);
  }

  /** A handler that meets no failure creates the whole component in order and files the whole schedule. */
  lemma ProgramMeaning(c: Fabricator.Component, extra: seq<EnvVar>)
    ensures var stages := Fabricator.Stages(c, extra);
            && GoodProgram(Program(c, extra))
            && Made(Program(c, extra)) == Fabricator.Items(stages)
            && Said(Program(c, extra)) == SAID_BEFORE + Fabricator.Schedule(stages) + [KUBERNETES_OK]
  {
    var stages := Fabricator.Stages(c, extra);
    var body := OPENING + FabActions(stages);
    OpeningSays();
    StagesQuiet(c, extra);
    QuietConcat(OPENING, FabActions(stages));
    FabActionsSay(stages);
    SaidConcat(OPENING, FabActions(stages));
    Ending(body);
    assert Program(c, extra) == body + [Say(Fabricator.FAB_OK)] + [Say(KUBERNETES_OK)];
    assert [] + Fabricator.Items(stages) == Fabricator.Items(stages);
    assert SAID_BEFORE + Fabricator.Schedule(stages) ==
        (SAID_BEFORE + Fabricator.Reports(stages)) + [Fabricator.FAB_OK];
  }

  lemma Ending(body: seq<Action>)
    requires Quiet(body)
    ensures var p := body + [Say(Fabricator.FAB_OK)] + [Say(KUBERNETES_OK)];
            GoodProgram(p) && Made(p) == Made(body) && Said(p) == Said(body) + [Fabricator.FAB_OK] + [KUBERNETES_OK]
  {
    var q := body + [Say(Fabricator.FAB_OK)];
    var p := q + [Say(KUBERNETES_OK)];
    assert q[..|q|-1] == body && p[..|p|-1] == q;
  }

  // ---------------------------------------------------------------- one request at a time

  datatype PutOutcome = Provisioned | NoMetadata | NoBlueprint | NoCluster | NotFabricated(fab: Fabricator.Outcome)

  const UP_TO_BACKGROUND := [STARTED] + ([METADATA_OK] + [IN_BACKGROUND])

  /** What a failed request reports before the FAILED of its end; `FabricateService` may have filed one already. */
  function SaidBy(r: PutOutcome, stages: seq<Fabricator.Stage>): seq<string>
    requires r.NotFabricated? && r.fab.CreateFailed? ==> r.fab.stage < |stages|
  {
    match r
    case NoMetadata => [STARTED]
    case NoBlueprint => UP_TO_BACKGROUND
    case NotFabricated(CreateFailed(k, n)) => SAID_BEFORE + (Fabricator.ReportsTo(stages, k, n) + [Fabricator.FAILED])
    case _ => SAID_BEFORE
  }

  /** The reports of a request, by its outcome. */
  ghost predicate PutReports(before: seq<Report>, mid: seq<Report>, after: seq<Report>, id: string,
                             stages: seq<Fabricator.Stage>,
                             r: PutOutcome)
  {
    if r.Provisioned? then
      Fabricator.Grew(before, after, id, SAID_BEFORE + Fabricator.Schedule(stages) + [KUBERNETES_OK], false)
    else
      var created := r.NotFabricated? && r.fab.CreateFailed?;
      && (created ==> r.fab.stage < |stages| && r.fab.index < |stages[r.fab.stage].objects|)
      && Fabricator.Grew(before, mid, id, SaidBy(r, stages), created)
      && Fabricator.Grew(mid, after, id, [Fabricator.FAILED], true)
  }

  /** The objects that a request creates: all on success; those before the failed one, which may exist all the same. */
  ghost predicate Creates(before: Objects, after: Objects, stages: seq<Fabricator.Stage>, r: PutOutcome) {
    if r.Provisioned? then Fabricator.Added(before, after, Fabricator.Items(stages))
    else if r.NotFabricated? && r.fab.CreateFailed? then
      && r.fab.stage < |stages| && r.fab.index < |stages[r.fab.stage].objects|
      && (|| Fabricator.Added(before, after, Fabricator.ItemsTo(stages, r.fab.stage, r.fab.index))
          || Fabricator.Added(before, after, Fabricator.ItemsTo(stages, r.fab.stage, r.fab.index + 1)))
    else after == before
  }

  /** The stages of a request's component; without a blueprint there are none. */
  function StagesOf(c: Option<Fabricator.Component>, parameters: Fabricator.Parameters,
                    space: string): seq<Fabricator.Stage> {
    if c.None? then [] else Fabricator.Stages(c.value, Fabricator.ExtraEnv(parameters, space))
  }

  /** The reports of an outcome, state by state, before the FAILED of a request that failed. */
  lemma OutcomeReports(r: PutOutcome, c: Fabricator.Component, parameters: Fabricator.Parameters, space: string)
    requires var stages := StagesOf(Some(c), parameters, space);
             r.NotFabricated? && r.fab.CreateFailed? ==>
               r.fab.stage < |stages| && r.fab.index < |stages[r.fab.stage].objects|
    ensures SAID_BEFORE + Fabricator.Schedule(StagesOf(Some(c), parameters, space)) + [KUBERNETES_OK] ==
            ["IN_PROGRESS_STARTED", "IN_PROGRESS_METADATA_OK", "IN_PROGRESS_IN_BACKGROUND_JOB",
             "IN_PROGRESS_BLUEPRINT_OK"] + Fabricator.AllReports(c) + ["IN_PROGRESS_KUBERNETES_OK"]
    ensures var said := SaidBy(r, StagesOf(Some(c), parameters, space));
            && (r.NoMetadata? ==> said == ["IN_PROGRESS_STARTED"])
            && (r.NoBlueprint? ==>
                  said == ["IN_PROGRESS_STARTED", "IN_PROGRESS_METADATA_OK", "IN_PROGRESS_IN_BACKGROUND_JOB"])
            && (r.NoCluster? || (r.NotFabricated? && !r.fab.CreateFailed?) ==>
                  said == ["IN_PROGRESS_STARTED", "IN_PROGRESS_METADATA_OK", "IN_PROGRESS_IN_BACKGROUND_JOB",
                           "IN_PROGRESS_BLUEPRINT_OK"])
            && (r.NotFabricated? && r.fab.CreateFailed? ==>
                  said[|said|-1] == "FAILED" && said[..|said|-1] <= SAID_BEFORE + Fabricator.AllReports(c))
  {
    Fabricator.StagesMean(c, parameters, space);
    if r.NotFabricated? && r.fab.CreateFailed? {
      var stages := StagesOf(Some(c), parameters, space);
      var reports := Fabricator.ReportsTo(stages, r.fab.stage, r.fab.index);
      Fabricator.FailureFollowsSchedule(stages, r.fab.stage, r.fab.index);
      SaidToFailure(SAID_BEFORE, reports, Fabricator.Schedule(stages));
    }
  }

  lemma SaidToFailure(before: seq<string>, reports: seq<string>, all: seq<string>)
    requires reports <= all
    ensures var said := before + (reports + ["FAILED"]);
            said[|said|-1] == "FAILED" && said[..|said|-1] == before + reports && before + reports <= before + all
  {
  }

  /**
   * One provisioning request: on success its reports are those of the program; on failure they are a beginning of
   * them, with FAILED at the end, which is filed a second time when a creation failed.
   */
  method ServiceInstancesPut(api: Api, ss: StateService, id: string, space: string, parameters: Fabricator.Parameters,
                             hasMetadata: bool, component: Option<Fabricator.Component>, hasCluster: bool,
                             hasClient: bool)
    returns (r: PutOutcome, ghost mid: seq<Report>)
    requires api.Valid() && ss.Valid()
    modifies api, ss`records, ss`log
    ensures api.Valid() && ss.Valid()
    ensures r.NoMetadata? <==> !hasMetadata
    ensures r.NoBlueprint? <==> hasMetadata && component.None?
    ensures r.NoCluster? <==> hasMetadata && component.Some? && !hasCluster
    ensures r.Provisioned? || r.NotFabricated? ==> component.Some?
    ensures PutReports(old(ss.log), mid, ss.log, id, StagesOf(component, parameters, space), r)
    ensures r.NotFabricated? ==>
              && (r.fab.NoClient? ==> !hasClient) && (r.fab.BadParameters? ==> parameters.BadJson?) &&
                   !r.fab.Fabricated?
    ensures r.NotFabricated? && r.fab.CreateFailed? && AllDone(old(api.script)) ==>
              !Fabricator.CanAdd(old(api.objects), Fabricator.Items(StagesOf(component, parameters, space)))
    ensures Creates(old(api.objects), api.objects, StagesOf(component, parameters, space), r)
  {
    ghost var start := ss.log;
    Fabricator.File(ss, id, STARTED, false, start, []);
    assert [] + [STARTED] == [STARTED];
    mid := ss.log;
    if !hasMetadata {
      Fabricator.File(ss, id, Fabricator.FAILED, true, mid, []);
      return NoMetadata, mid;
    }
    Fabricator.File(ss, id, METADATA_OK, false, start, [STARTED]);
    Fabricator.File(ss, id, IN_BACKGROUND, false, start, [STARTED] + [METADATA_OK]);
    assert [STARTED] + [METADATA_OK] + [IN_BACKGROUND] == UP_TO_BACKGROUND;
    mid := ss.log;
    if component.None? {
      Fabricator.File(ss, id, Fabricator.FAILED, true, mid, []);
      return NoBlueprint, mid;
    }
    Fabricator.File(ss, id, BLUEPRINT_OK, false, start, UP_TO_BACKGROUND);
    assert UP_TO_BACKGROUND + [BLUEPRINT_OK] == SAID_BEFORE;
    mid := ss.log;
    if !hasCluster {
      Fabricator.File(ss, id, Fabricator.FAILED, true, mid, []);
      return NoCluster, mid;
    }
    r, mid := FabricatePart(api, ss, id, space, parameters, component.value, hasClient, start);
  }

  /** The last part: `FabricateService`, and the report of its end. */
  method FabricatePart(api: Api, ss: StateService, id: string, space: string, parameters: Fabricator.Parameters,
                       component: Fabricator.Component, hasClient: bool, ghost start: seq<Report>)
    returns (r: PutOutcome, ghost mid: seq<Report>)
    requires api.Valid() && ss.Valid() && Fabricator.Grew(start, ss.log, id, SAID_BEFORE, false)
    modifies api, ss`records, ss`log
    ensures api.Valid() && ss.Valid() && (r.Provisioned? || r.NotFabricated?)
    ensures PutReports(start, mid, ss.log, id, StagesOf(Some(component), parameters, space), r)
    ensures r.NotFabricated? ==>
              && (r.fab.NoClient? ==> !hasClient) && (r.fab.BadParameters? ==> parameters.BadJson?) &&
                   !r.fab.Fabricated?
    ensures r.NotFabricated? && r.fab.CreateFailed? && AllDone(old(api.script)) ==>
              !Fabricator.CanAdd(old(api.objects), Fabricator.Items(StagesOf(Some(component), parameters, space)))
    ensures Creates(old(api.objects), api.objects, StagesOf(Some(component), parameters, space), r)
  {
    ghost var before := ss.log;
    var fab := Fabricator.FabricateService(api, ss, hasClient, space, id, parameters, component);
    ghost var stages := Fabricator.Stages(component, Fabricator.ExtraEnv(parameters, space));
    mid := ss.log;
    if !fab.Fabricated? {
      Fabricator.File(ss, id, Fabricator.FAILED, true, mid, []);
      if fab.CreateFailed? {
        Fabricator.GrewConcat(start, before, mid, id, SAID_BEFORE,
                              Fabricator.ReportsTo(stages, fab.stage, fab.index) + [Fabricator.FAILED], true);
      }
      return NotFabricated(fab), mid;
    }
    Fabricator.GrewConcat(start, before, mid, id, SAID_BEFORE, Fabricator.Schedule(stages), false);
    Fabricator.File(ss, id, KUBERNETES_OK, false, start, SAID_BEFORE + Fabricator.Schedule(stages));
    r := Provisioned;
  }

  /** One poll; the health of the service is asked for only when a fresh record says that all was created. */
  method ServiceInstancesGetLastOperation(ss: StateService, id: string, health: Health) returns (answer: Option<Answer>)
    requires ss.Valid()
    ensures !Reported(ss.log, id) ==> answer == Some(Failed)
    ensures Reported(ss.log, id) ==>
              answer == if Verdict(Last(ss.log, id), ss.now).Some? then Verdict(Last(ss.log, id), ss.now)
                        else if health.Unreachable? then None
                        else Some(if health.Healthy? then Succeeded else InProgress)
    ensures Reported(ss.log, id) ==>
              var e := Last(ss.log, id);
              var failed := e.failed || "FAIL" <= e.state || ss.now - e.ts > 1_200_000_000_000;
              && (answer == Some(Failed) <==> failed)
              && (answer == None <==> !failed && e.state == "IN_PROGRESS_KUBERNETES_OK" && health.Unreachable?)
              && (answer == Some(Succeeded) <==> !failed && e.state == "IN_PROGRESS_KUBERNETES_OK" && health.Healthy?)
  {
    var has := ss.HasProgressRecords(id);
    if !has {
      return Some(Failed);
    }
    var e := ss.ReadProgress(id);
    if e.failed || FAIL <= e.state {
      return Some(Failed);
    }
    if ss.now - e.ts > TWENTY_MINUTES {
      return Some(Failed);
    }
    if e.state == KUBERNETES_OK {
      if health.Unreachable? {
        return None;
      }
      if health.CheckFailed? {
        return Some(InProgress);
      }
      return Some(if health.Healthy? then Succeeded else InProgress);
    }
    return Some(InProgress);
  }

  // ---------------------------------------------------------------- handlers and pollers

  /** Before an action; with reports of a failure still to file; or over. */
  datatype Pc = Running(i: nat) | Failing(left: nat) | Ended(ok: bool)

  /** The handler of one request, and the objects whose creation succeeded. */
  datatype Handler = Handler(c: Fabricator.Component, extra: seq<EnvVar>, program: seq<Action>, pc: Pc,
                             made: seq<Object>)

  /**
   * How far a poll has come: it asks whether there is a record, reads it, and looks at the clock; `read` is how
   * much of the log the poll has seen.
   */
  datatype Phase =
    | Begun
    | Found(has: bool, seen: nat)
    | Got(e: Event, read: nat)
    | Checking(e: Event, read: nat, at: int)
  datatype Poll = Poll(id: string, began: nat, phase: Phase)
  datatype Reply = Reply(id: string, began: nat, has: bool, e: Event, read: nat, at: int, health: Health,
                         answer: Answer)

  datatype Sys = Sys(now: int, log: seq<Report>, handlers: map<string, Handler>, polls: map<nat, Poll>,
                     replies: seq<Reply>)

  datatype Step =
    | Tick(d: nat)
    | Put(id: string, c: Fabricator.Component, extra: seq<EnvVar>)
    | BadRequest
    | Act(id: string, ok: bool)
    | Begin(q: nat, id: string)
    | Look(q: nat)
    | Read(q: nat)
    | Judge(q: nat)
    | Check(q: nat, health: Health)

  function Init(now: int): Sys {
    Sys(now, [], map[], map[], [])
  }

  function Filed(s: Sys, id: string, state: string, failed: bool): Sys {
    s.(log := s.log + [Report(id, Event(s.now, state, failed))])
  }

  function SetPc(s: Sys, id: string, pc: Pc): Sys
    requires id in s.handlers
  {
    s.(handlers := s.handlers[id := s.handlers[id].(pc := pc)])
  }

  /** One action of a handler; a failed call is reported once, a failed creation also by `FabricateService`. */
  function ActStep(s: Sys, id: string, ok: bool): Sys
    requires id in s.handlers
  {
    var h := s.handlers[id];
    var p := h.program;
    match h.pc
    case Ended(_) => s
    case Failing(n) => SetPc(Filed(s, id, Fabricator.FAILED, true), id, if n <= 1 then Ended(false) else Failing(n - 1))
    case Running(i) =>
      if i >= |p| then s
      else if p[i].Say? then SetPc(Filed(s, id, p[i].state, false), id, Next(p, i))
      else if p[i].Call? then SetPc(s, id, if ok then Running(i + 1) else Failing(1))
      else if ok then s.(handlers := s.handlers[id := h.(pc := Running(i + 1), made := h.made + [p[i].o])])
      else SetPc(s, id, Failing(2))
  }

  /** What a record says by itself; nothing when the health of the service decides. */
  function Verdict(e: Event, now: int): Option<Answer> {
    if e.failed || FAIL <= e.state then Some(Failed)
    else if now - e.ts > TWENTY_MINUTES then Some(Failed)
    else if e.state == KUBERNETES_OK then None
    else Some(InProgress)
  }

  function Answered(s: Sys, q: nat, r: Reply): Sys {
    s.(polls := s.polls - {q}, replies := s.replies + [r])
  }

  function SetPhase(s: Sys, q: nat, phase: Phase): Sys
    requires q in s.polls
  {
    s.(polls := s.polls[q := s.polls[q].(phase := phase)])
  }

  function LookStep(s: Sys, q: nat): Sys
    requires q in s.polls
  {
    var p := s.polls[q];
    if p.phase.Begun? then SetPhase(s, q, Found(Reported(s.log, p.id), |s.log|)) else s
  }

  function ReadStep(s: Sys, q: nat): Sys
    requires q in s.polls
  {
    var p := s.polls[q];
    if !p.phase.Found? then s
    else if p.phase.has then SetPhase(s, q, Got(Last(s.log, p.id), |s.log|))
    else Answered(s, q, Reply(p.id, p.began, false, Event(0, "", false), p.phase.seen, s.now, Unreachable, Failed))
  }

  function JudgeStep(s: Sys, q: nat): Sys
    requires q in s.polls
  {
    var p := s.polls[q];
    if !p.phase.Got? then s
    else
      var v := Verdict(p.phase.e, s.now);
      if v.None? then SetPhase(s, q, Checking(p.phase.e, p.phase.read, s.now))
      else Answered(s, q, Reply(p.id, p.began, true, p.phase.e, p.phase.read, s.now, Unreachable, v.value))
  }

  /** Without a cluster to ask, the poll ends in an error and no answer. */
  function CheckStep(s: Sys, q: nat, health: Health): Sys
    requires q in s.polls
  {
    var p := s.polls[q];
    if !p.phase.Checking? then s
    else if health.Unreachable? then s.(polls := s.polls - {q})
    else
      var answer := if health.Healthy? then Succeeded else InProgress;
      Answered(s, q, Reply(p.id, p.began, true, p.phase.e, p.phase.read, p.phase.at, health, answer))
  }

  /** One step of any party; a step that is not possible changes nothing. */
  function Apply(s: Sys, step: Step): Sys {
    match step
    case Tick(d) => s.(now := s.now + d)
    case Put(id, c, extra) => if id in s.handlers then s
        else s.(handlers := s.handlers[id := Handler(c, extra, Program(c, extra), Running(0), [])])
    case BadRequest => Filed(s, UNREAD, Fabricator.FAILED, true)
    case Act(id, ok) => if id in s.handlers then ActStep(s, id, ok) else s
    case Begin(q, id) => if q in s.polls then s else s.(polls := s.polls[q := Poll(id, |s.log|, Begun)])
    case Look(q) => if q in s.polls then LookStep(s, q) else s
    case Read(q) => if q in s.polls then ReadStep(s, q) else s
    case Judge(q) => if q in s.polls then JudgeStep(s, q) else s
    case Check(q, health) => if q in s.polls then CheckStep(s, q, health) else s
  }

  function After(s: Sys, steps: seq<Step>): Sys {
    if steps == [] then s else Apply(After(s, steps[..|steps|-1]), steps[|steps|-1])
  }

  // ---------------------------------------------------------------- the invariant

  predicate PcOk(p: seq<Action>, pc: Pc, made: seq<Object>) {
    match pc
    case Running(i) => i < |p| && made == Made(p[..i])
    case Failing(n) => n > 0
    case Ended(ok) => ok ==> made == Made(p)
  }

  predicate HandlerOk(h: Handler) {
    GoodProgram(h.program) && PcOk(h.program, h.pc, h.made)
  }

  /** What a report tells about its handler. */
  predicate ReportOk(s: Sys, r: Report) {
    && r.event.ts <= s.now
    && (r.event.failed ==>
          && r.event.state == Fabricator.FAILED
          && (r.guid == UNREAD ||
              (r.guid in s.handlers && (s.handlers[r.guid].pc.Failing? || s.handlers[r.guid].pc == Ended(false)))))
    && (!r.event.failed ==>
          && r.guid in s.handlers
          && (r.event.state == KUBERNETES_OK || Passing(r.event.state))
          && (r.event.state == KUBERNETES_OK ==> s.handlers[r.guid].pc == Ended(true)))
  }

  /** Time goes on, nothing follows KUBERNETES_OK, and only failures follow a failure. */
  predicate InOrder(a: Report, b: Report) {
    && a.event.ts <= b.event.ts
    && (a.guid == b.guid && a.guid != UNREAD ==> a.event.state != KUBERNETES_OK && (a.event.failed ==> b.event.failed))
  }

  ghost predicate LogOk(s: Sys) {
    && (forall i :: 0 <= i < |s.log| ==> ReportOk(s, s.log[i]))
    && (forall i, j :: 0 <= i < j < |s.log| ==> InOrder(s.log[i], s.log[j]))
  }

  /** The event is the last of the instance in the part of the log that was seen. */
  predicate EventAt(log: seq<Report>, id: string, read: nat, e: Event) {
    read <= |log| && Reported(log[..read], id) && e == Last(log[..read], id)
  }

  predicate PollOk(log: seq<Report>, now: int, p: Poll) {
    && p.began <= |log|
    && match p.phase
       case Begun => true
       case Found(has, seen) => p.began <= seen <= |log| && (has <==> Reported(log[..seen], p.id))
       case Got(e, read) => p.began <= read && EventAt(log, p.id, read, e)
       case Checking(e, read, at) =>
         p.began <= read && EventAt(log, p.id, read, e) && at <= now && !e.failed && at - e.ts <= TWENTY_MINUTES &&
             e.state == KUBERNETES_OK
  }

  /** "failed" is answered exactly without a record, after a failure, or 20 minutes after the last report. */
  predicate ReplyOk(log: seq<Report>, now: int, r: Reply) {
    && r.began <= r.read <= |log| && r.at <= now
    && (r.has ==> EventAt(log, r.id, r.read, r.e))
    && (!r.has ==> !Reported(log[..r.read], r.id))
    && (r.answer.Failed? <==> !r.has || r.e.failed || r.at - r.e.ts > TWENTY_MINUTES)
    && (r.answer.Succeeded? ==> r.e.state == KUBERNETES_OK && r.health.Healthy?)
  }

  ghost predicate Inv(s: Sys) {
    && LogOk(s)
    && (forall id :: id in s.handlers ==> HandlerOk(s.handlers[id]))
    && (forall q :: q in s.polls ==> PollOk(s.log, s.now, s.polls[q]))
    && (forall j :: 0 <= j < |s.replies| ==> ReplyOk(s.log, s.now, s.replies[j]))
  }

  lemma PollKeeps(log: seq<Report>, now: int, more: seq<Report>, later: int, p: Poll)
    requires PollOk(log, now, p) && now <= later
    ensures PollOk(log + more, later, p)
  {
    assert forall n :: 0 <= n <= |log| ==> (log + more)[..n] == log[..n];
  }

  lemma ReplyKeeps(log: seq<Report>, now: int, more: seq<Report>, later: int, r: Reply)
    requires ReplyOk(log, now, r) && now <= later
    ensures ReplyOk(log + more, later, r)
  {
    assert (log + more)[..r.read] == log[..r.read];
  }

  /** Polls and answers stay right while the log and the time grow. */
  lemma ReadersKeep(s: Sys, t: Sys, more: seq<Report>)
    requires Inv(s) && t.log == s.log + more && s.now <= t.now && t.polls == s.polls && t.replies == s.replies
    ensures forall q :: q in t.polls ==> PollOk(t.log, t.now, t.polls[q])
    ensures forall j :: 0 <= j < |t.replies| ==> ReplyOk(t.log, t.now, t.replies[j])
  {
    forall q | q in t.polls ensures PollOk(t.log, t.now, t.polls[q]) {
      PollKeeps(s.log, s.now, more, t.now, s.polls[q]);
    }
    forall j | 0 <= j < |t.replies| ensures ReplyOk(t.log, t.now, t.replies[j]) {
      ReplyKeeps(s.log, s.now, more, t.now, s.replies[j]);
    }
  }

  lemma TickKeeps(s: Sys, d: nat)
    requires Inv(s)
    ensures Inv(Apply(s, Tick(d)))
  {
    var t := Apply(s, Tick(d));
    assert s.log + [] == s.log;
    ReadersKeep(s, t, []);
    assert forall i :: 0 <= i < |t.log| ==> ReportOk(s, t.log[i]);
  }

  lemma StartOk(c: Fabricator.Component, extra: seq<EnvVar>)
    ensures HandlerOk(Handler(c, extra, Program(c, extra), Running(0), []))
  {
    ProgramMeaning(c, extra);
    assert Program(c, extra)[..0] == [];
  }

  lemma PutKeeps(s: Sys, id: string, c: Fabricator.Component, extra: seq<EnvVar>)
    requires Inv(s)
    ensures Inv(Apply(s, Put(id, c, extra)))
  {
    var t := Apply(s, Put(id, c, extra));
    assert s.log + [] == s.log;
    ReadersKeep(s, t, []);
    StartOk(c, extra);
    forall i | 0 <= i < |t.log| ensures ReportOk(t, t.log[i]) {
      assert ReportOk(s, s.log[i]);
    }
  }

  /** A report of a handler whose program counter moves accordingly. */
  lemma FiledKeeps(s: Sys, id: string, state: string, failed: bool, h: Handler)
    requires Inv(s) && id in s.handlers && HandlerOk(h)
    requires s.handlers[id].pc.Running? || (failed && s.handlers[id].pc.Failing?)
    requires failed ==> state == Fabricator.FAILED && (h.pc.Failing? || h.pc == Ended(false))
    requires !failed ==> (state == KUBERNETES_OK || Passing(state)) && (state == KUBERNETES_OK ==> h.pc == Ended(true))
    ensures var t := Filed(s, id, state, failed); Inv(t.(handlers := t.handlers[id := h]))
  {
    var r := Report(id, Event(s.now, state, failed));
    var t := Filed(s, id, state, failed).(handlers := s.handlers[id := h]);
    ReadersKeep(s, t, [r]);
    forall i | 0 <= i < |s.log| ensures ReportOk(t, s.log[i]) && InOrder(s.log[i], r) {
      assert ReportOk(s, s.log[i]);
    }
  }

  lemma UnreadKeeps(s: Sys)
    requires Inv(s)
    ensures Inv(Apply(s, BadRequest))
  {
    var r := Report(UNREAD, Event(s.now, Fabricator.FAILED, true));
    var t := Apply(s, BadRequest);
    ReadersKeep(s, t, [r]);
    forall i | 0 <= i < |s.log| ensures ReportOk(t, s.log[i]) && InOrder(s.log[i], r) {
      assert ReportOk(s, s.log[i]);
    }
  }

  /** A handler that moves without a report. */
  lemma SilentKeeps(s: Sys, id: string, h: Handler)
    requires Inv(s) && id in s.handlers && s.handlers[id].pc.Running? && HandlerOk(h)
    ensures Inv(s.(handlers := s.handlers[id := h]))
  {
    var t := s.(handlers := s.handlers[id := h]);
    assert s.log + [] == s.log;
    ReadersKeep(s, t, []);
    forall i | 0 <= i < |s.log| ensures ReportOk(t, s.log[i]) {
      assert ReportOk(s, s.log[i]);
    }
  }

  /** Where an action leads when it succeeds. */
  function Next(p: seq<Action>, i: nat): Pc {
    if i + 1 == |p| then Ended(true) else Running(i + 1)
  }

  lemma NextOk(p: seq<Action>, i: nat, made: seq<Object>)
    requires GoodProgram(p) && PcOk(p, Running(i), made)
    ensures p[i].Say? ==> PcOk(p, Next(p, i), made)
    ensures p[i].Say? ==>
              (p[i].state == KUBERNETES_OK || Passing(p[i].state)) && (p[i].state == KUBERNETES_OK ==> i + 1 == |p|)
    ensures p[i].Call? ==> PcOk(p, Running(i + 1), made)
    ensures p[i].Make? ==> PcOk(p, Running(i + 1), made + [p[i].o])
  {
    assert p[..i+1][..i] == p[..i] && p[..i+1][i] == p[i];
    assert made + [] == made;
    if i + 1 == |p| {
      assert p[..i+1] == p;
    } else {
      assert p[..|p|-1][i] == p[i];
    }
  }

  lemma RunKeeps(s: Sys, id: string, ok: bool)
    requires Inv(s) && id in s.handlers && s.handlers[id].pc.Running?
    ensures Inv(ActStep(s, id, ok))
  {
    var h := s.handlers[id];
    var p, i := h.program, h.pc.i;
    assert HandlerOk(h);
    NextOk(p, i, h.made);
    if p[i].Say? {
      FiledKeeps(s, id, p[i].state, false, h.(pc := Next(p, i)));
    } else if p[i].Call? {
      SilentKeeps(s, id, h.(pc := if ok then Running(i + 1) else Failing(1)));
    } else {
      SilentKeeps(s, id, if ok then h.(pc := Running(i + 1), made := h.made + [p[i].o]) else h.(pc := Failing(2)));
    }
  }

  lemma FailKeeps(s: Sys, id: string, ok: bool)
    requires Inv(s) && id in s.handlers && s.handlers[id].pc.Failing?
    ensures Inv(ActStep(s, id, ok))
  {
    var n := s.handlers[id].pc.left;
    FiledKeeps(s, id, Fabricator.FAILED, true, s.handlers[id].(pc := if n <= 1 then Ended(false) else Failing(n - 1)));
  }

  lemma ActKeeps(s: Sys, id: string, ok: bool)
    requires Inv(s) && id in s.handlers
    ensures Inv(ActStep(s, id, ok))
  {
    var h := s.handlers[id];
    if h.pc.Failing? {
      FailKeeps(s, id, ok);
    } else if h.pc.Running? {
      RunKeeps(s, id, ok);
    }
  }

  /** A poll that moves on or is answered. */
  lemma PollsKeep(s: Sys, t: Sys)
    requires Inv(s) && t.now == s.now && t.log == s.log && t.handlers == s.handlers
    requires forall q :: q in t.polls ==> PollOk(t.log, t.now, t.polls[q])
    requires t.replies == s.replies ||
             (|t.replies| == |s.replies| + 1 && t.replies[..|s.replies|] == s.replies &&
              ReplyOk(t.log, t.now, t.replies[|s.replies|]))
    ensures Inv(t)
  {
    assert forall i :: 0 <= i < |t.log| ==> ReportOk(s, t.log[i]);
    forall j | 0 <= j < |t.replies| ensures ReplyOk(t.log, t.now, t.replies[j]) {
      if j < |s.replies| {
        assert t.replies[..|s.replies|][j] == s.replies[j];
      }
    }
  }

  lemma LookKeeps(s: Sys, q: nat)
    requires Inv(s) && q in s.polls
    ensures Inv(LookStep(s, q))
  {
    assert PollOk(s.log, s.now, s.polls[q]);
    assert s.log[..|s.log|] == s.log;
    PollsKeep(s, LookStep(s, q));
  }

  lemma {:induction false} ReportedTake(log: seq<Report>, n: nat, id: string)
    requires n <= |log| && Reported(log[..n], id)
    ensures Reported(log, id)
  {
    var i :| 0 <= i < n && log[..n][i].guid == id;
    assert log[i].guid == id;
  }

  lemma ReadKeeps(s: Sys, q: nat)
    requires Inv(s) && q in s.polls
    ensures Inv(ReadStep(s, q))
  {
    var p := s.polls[q];
    assert PollOk(s.log, s.now, p);
    if p.phase.Found? {
      assert s.log[..|s.log|] == s.log;
      if p.phase.has {
        ReportedTake(s.log, p.phase.seen, p.id);
      }
      PollsKeep(s, ReadStep(s, q));
    }
  }

  /** The last event of an instance is one of its reports. */
  lemma {:induction false} LastIsReport(log: seq<Report>, id: string) returns (i: nat)
    requires Reported(log, id)
    ensures i < |log| && log[i] == Report(id, Last(log, id)) && forall j :: i < j < |log| ==> log[j].guid != id
  {
    var n := |log| - 1;
    if log[n].guid == id {
      i := n;
    } else {
      assert log == log[..n] + [log[n]];
      ReportedSnoc(log[..n], log[n], id);
      i := LastIsReport(log[..n], id);
    }
  }

  /** What was read is a report of the instance. */
  lemma EventIsReport(s: Sys, id: string, read: nat, e: Event) returns (i: nat)
    requires LogOk(s) && EventAt(s.log, id, read, e)
    ensures i < read && s.log[i] == Report(id, e) && ReportOk(s, s.log[i]) && (!e.failed ==> !(FAIL <= e.state))
  {
    i := LastIsReport(s.log[..read], id);
    assert s.log[..read][i] == s.log[i];
    assert ReportOk(s, s.log[i]);
  }

  lemma JudgeKeeps(s: Sys, q: nat)
    requires Inv(s) && q in s.polls
    ensures Inv(JudgeStep(s, q))
  {
    var p := s.polls[q];
    assert PollOk(s.log, s.now, p);
    if p.phase.Got? {
      var i := EventIsReport(s, p.id, p.phase.read, p.phase.e);
      PollsKeep(s, JudgeStep(s, q));
    }
  }

  lemma CheckKeeps(s: Sys, q: nat, health: Health)
    requires Inv(s) && q in s.polls
    ensures Inv(CheckStep(s, q, health))
  {
    assert PollOk(s.log, s.now, s.polls[q]);
    PollsKeep(s, CheckStep(s, q, health));
  }

  /** Every step of every party keeps the invariant. */
  lemma StepKeeps(s: Sys, step: Step)
    requires Inv(s)
    ensures Inv(Apply(s, step))
  {
    match step
    case Tick(d) => TickKeeps(s, d);
    case Put(id, c, extra) => PutKeeps(s, id, c, extra);
    case BadRequest => UnreadKeeps(s);
    case Act(id, ok) => if id in s.handlers { ActKeeps(s, id, ok); }
    case Begin(q, id) => PollsKeep(s, Apply(s, step));
    case Look(q) => if q in s.polls { LookKeeps(s, q); }
    case Read(q) => if q in s.polls { ReadKeeps(s, q); }
    case Judge(q) => if q in s.polls { JudgeKeeps(s, q); }
    case Check(q, health) => if q in s.polls { CheckKeeps(s, q, health); }
  }

  lemma {:induction false} RunKeepsInv(s: Sys, steps: seq<Step>)
    requires Inv(s)
    ensures Inv(After(s, steps))
  {
    if steps != [] {
      RunKeepsInv(s, steps[..|steps|-1]);
      StepKeeps(After(s, steps[..|steps|-1]), steps[|steps|-1]);
    }
  }

  /** The programs of the handlers are those of their requests. */
  ghost predicate Faithful(s: Sys) {
    forall id :: id in s.handlers ==> s.handlers[id].program == Program(s.handlers[id].c, s.handlers[id].extra)
  }

  lemma StepFaithful(s: Sys, step: Step)
    requires Faithful(s)
    ensures Faithful(Apply(s, step))
  {
  }

  lemma {:induction false} RunFaithful(s: Sys, steps: seq<Step>)
    requires Faithful(s)
    ensures Faithful(After(s, steps))
  {
    if steps != [] {
      RunFaithful(s, steps[..|steps|-1]);
      StepFaithful(After(s, steps[..|steps|-1]), steps[|steps|-1]);
    }
  }

  // ---------------------------------------------------------------- what an answer means

  /** Nothing is reported of an instance after KUBERNETES_OK. */
  lemma FinalReport(s: Sys, i: nat)
    requires LogOk(s) && i < |s.log| && s.log[i].guid != UNREAD && s.log[i].event.state == KUBERNETES_OK
    ensures Last(s.log, s.log[i].guid) == s.log[i].event
  {
    var k := LastIsReport(s.log, s.log[i].guid);
    assert i < k ==> InOrder(s.log[i], s.log[k]);
  }

  lemma DoneMeansAll(s: Sys, id: string)
    requires Inv(s) && Faithful(s) && id in s.handlers && s.handlers[id].pc == Ended(true)
    ensures s.handlers[id].made == Fabricator.Items(Fabricator.Stages(s.handlers[id].c, s.handlers[id].extra))
  {
    var h := s.handlers[id];
    assert HandlerOk(h);
    ProgramMeaning(h.c, h.extra);
  }

  /**
   * Over every run: "succeeded" is answered only after every object of the component was created in order,
   * within 20 minutes of the final report, and when the health check passed.
   */
  lemma SucceededMeansDone(start: int, steps: seq<Step>, j: nat)
    requires var s := After(Init(start), steps); j < |s.replies| && s.replies[j].answer.Succeeded?
    ensures var s := After(Init(start), steps);
            var r := s.replies[j];
            && r.id in s.handlers && s.handlers[r.id].pc == Ended(true)
            && s.handlers[r.id].made == Fabricator.Items(Fabricator.Stages(s.handlers[r.id].c, s.handlers[r.id].extra))
            && r.e.state == KUBERNETES_OK && !r.e.failed && r.at - r.e.ts <= TWENTY_MINUTES && r.health.Healthy?
            && (r.id != UNREAD ==> r.e == Last(s.log, r.id))
  {
    var s := After(Init(start), steps);
    RunKeepsInv(Init(start), steps);
    RunFaithful(Init(start), steps);
    var r := s.replies[j];
    assert ReplyOk(s.log, s.now, r);
    var i := EventIsReport(s, r.id, r.read, r.e);
    DoneMeansAll(s, r.id);
    if r.id != UNREAD {
      FinalReport(s, i);
    }
  }

  lemma AfterConcat(s: Sys, a: seq<Step>, b: seq<Step>)
    ensures After(s, a + b) == After(After(s, a), b)
    decreases |b|
  {
    if b == [] {
      assert a + b == a;
    } else {
      assert (a + b)[..|a + b|-1] == a + b[..|b|-1];
      AfterConcat(s, a, b[..|b|-1]);
    }
  }

  lemma {:induction false} LogGrows(s: Sys, steps: seq<Step>)
    ensures |s.log| <= |After(s, steps).log| && After(s, steps).log[..|s.log|] == s.log
  {
    if steps != [] {
      var t := After(s, steps[..|steps|-1]);
      LogGrows(s, steps[..|steps|-1]);
      StepGrows(t, steps[|steps|-1]);
      assert Apply(t, steps[|steps|-1]).log[..|t.log|][..|s.log|] == Apply(t, steps[|steps|-1]).log[..|s.log|];
    }
  }

  lemma StepGrows(s: Sys, step: Step)
    ensures |s.log| <= |Apply(s, step).log| && Apply(s, step).log[..|s.log|] == s.log
  {
  }

  /** What is read after a failure of the instance is a failure. */
  lemma FailureStays(s: Sys, i: nat, read: nat, e: Event)
    requires LogOk(s) && i < read <= |s.log| && EventAt(s.log, s.log[i].guid, read, e)
    requires s.log[i].event.failed && s.log[i].guid != UNREAD
    ensures e.failed
  {
    var log, id := s.log[..read], s.log[i].guid;
    var k := LastIsReport(log, id);
    assert log[i].guid == id && log[k] == s.log[k];
    assert i < k ==> InOrder(s.log[i], s.log[k]);
  }

  /** Once a failure is recorded, every poll that begins later answers "failed". */
  lemma FailedIsFinal(start: int, steps: seq<Step>, i: nat, more: seq<Step>, j: nat)
    requires var s := After(Init(start), steps); i < |s.log| && s.log[i].event.failed && s.log[i].guid != "1"
    requires j < |After(Init(start), steps + more).replies|
    ensures var s, r := After(Init(start), steps), After(Init(start), steps + more).replies[j];
            r.id == s.log[i].guid && r.began >= |s.log| ==> r.answer.Failed?
  {
    var s, t := After(Init(start), steps), After(Init(start), steps + more);
    RunKeepsInv(Init(start), steps + more);
    AfterConcat(Init(start), steps, more);
    LogGrows(s, more);
    var r := t.replies[j];
    assert ReplyOk(t.log, t.now, r);
    assert t.log[i] == s.log[i] by { assert t.log[..|s.log|][i] == s.log[i]; }
    if r.id == s.log[i].guid && r.began >= |s.log| && r.has {
      FailureStays(t, i, r.read, r.e);
    }
  }

  // ---------------------------------------------------------------- when a timeout is final

  /** Whatever the instance has reported is a failure or 20 minutes old at time `t`, and no more will be added. */
  ghost predicate Silent(s: Sys, id: string, t: int) {
    && id in s.handlers && !s.handlers[id].pc.Running?
    && forall i :: 0 <= i < |s.log| && s.log[i].guid == id ==>
         s.log[i].event.failed || t - s.log[i].event.ts > TWENTY_MINUTES
  }

  lemma StepSilent(s: Sys, id: string, t: int, step: Step)
    requires Silent(s, id, t)
    ensures Silent(Apply(s, step), id, t)
  {
  }

  lemma {:induction false} RunSilent(s: Sys, id: string, t: int, steps: seq<Step>)
    requires Silent(s, id, t)
    ensures Silent(After(s, steps), id, t)
  {
    if steps != [] {
      RunSilent(s, id, t, steps[..|steps|-1]);
      StepSilent(After(s, steps[..|steps|-1]), id, t, steps[|steps|-1]);
    }
  }

  /** From now on, no look at the clock leads to another answer than "failed". */
  ghost predicate FailedFromNow(s: Sys, id: string) {
    forall more: seq<Step>, j: nat ::
      j < |After(s, more).replies| && After(s, more).replies[j].id == id && After(s, more).replies[j].at >= s.now ==>
        After(s, more).replies[j].answer.Failed?
  }

  lemma SilentMeansFailed(s: Sys, id: string, more: seq<Step>, j: nat)
    requires Inv(s) && Silent(s, id, s.now)
    requires j < |After(s, more).replies| && After(s, more).replies[j].id == id && After(s, more).replies[j].at >= s.now
    ensures After(s, more).replies[j].answer.Failed?
  {
    var t := After(s, more);
    RunKeepsInv(s, more);
    RunSilent(s, id, s.now, more);
    var r := t.replies[j];
    assert ReplyOk(t.log, t.now, r);
    if r.has {
      var i := EventIsReport(t, id, r.read, r.e);
    }
  }

  lemma NoFailure(state: string)
    requires state == KUBERNETES_OK || Passing(state)
    ensures !(FAIL <= state)
  {
    assert FAIL[0] == 'F' && KUBERNETES_OK[0] == 'I';
  }

  /** A handler that still runs can file a report that is no failure. */
  lemma {:induction false} SpeakNext(s: Sys, id: string) returns (acts: seq<Step>)
    requires Inv(s) && id in s.handlers && s.handlers[id].pc.Running?
    ensures var t := After(s, acts);
            && t.now == s.now && t.polls == s.polls && t.replies == s.replies && Reported(t.log, id)
            && Last(t.log, id).ts == s.now && !Last(t.log, id).failed && !(FAIL <= Last(t.log, id).state)
    decreases |s.handlers[id].program| - s.handlers[id].pc.i
  {
    var h := s.handlers[id];
    assert HandlerOk(h);
    NextOk(h.program, h.pc.i, h.made);
    var t := Apply(s, Act(id, true));
    OneStep(s, Act(id, true));
    if h.program[h.pc.i].Say? {
      acts := [Act(id, true)];
      assert t.log[|s.log|].guid == id;
      NoFailure(h.program[h.pc.i].state);
    } else {
      ActKeeps(s, id, true);
      assert HandlerOk(t.handlers[id]);
      var rest := SpeakNext(t, id);
      acts := [Act(id, true)] + rest;
      AfterConcat(s, [Act(id, true)], rest);
    }
  }

  lemma OneStep(s: Sys, a: Step)
    ensures After(s, [a]) == Apply(s, a)
  {
    assert [a][..0] == [];
    assert After(s, []) == s;
  }

  lemma Then(s: Sys, a: Step, rest: seq<Step>)
    ensures After(s, [a] + rest) == After(Apply(s, a), rest)
  {
    OneStep(s, a);
    AfterConcat(s, [a], rest);
  }

  /** A report carries the time at which it is filed; one is filed at a time, also for a request that cannot be read. */
  lemma ReportsAtOnce(s: Sys, step: Step)
    ensures var t := Apply(s, step);
            && |s.log| <= |t.log| <= |s.log| + 1 && t.log[..|s.log|] == s.log
            && (|t.log| > |s.log| ==> t.log[|s.log|].event.ts == s.now == t.now)
    ensures Apply(s, BadRequest) == s.(log := s.log + [Report("1", Event(s.now, "FAILED", true))])
  {
  }

  /** The five steps of a poll. */
  function PollSteps(q: nat, id: string, health: Health): seq<Step> {
    [Begin(q, id)] + ([Look(q)] + ([Read(q)] + ([Judge(q)] + [Check(q, health)])))
  }

  /** What the poll added: nothing, or one answer to this id. */
  predicate Answers(s: Sys, t: Sys, id: string, answer: Option<Answer>) {
    if answer.None? then t == s
    else
      && |t.replies| == |s.replies| + 1 && t == s.(replies := t.replies) && t.replies[..|s.replies|] == s.replies
      && var r := t.replies[|s.replies|]; r.id == id && r.at == s.now && r.answer == answer.value
  }

  /** A poll whose steps nothing comes between answers as the code does. */
  lemma PollIsRun(s: Sys, q: nat, id: string, health: Health) returns (answer: Option<Answer>)
    requires q !in s.polls
    ensures Answers(s, After(s, PollSteps(q, id, health)), id, answer)
    ensures !Reported(s.log, id) ==> answer == Some(Failed)
    ensures Reported(s.log, id) ==>
              var e := Last(s.log, id);
              answer == if e.failed || "FAIL" <= e.state || s.now - e.ts > 1_200_000_000_000 then Some(Failed)
                        else if e.state != "IN_PROGRESS_KUBERNETES_OK" then Some(InProgress)
                        else if health.Unreachable? then None
                        else Some(if health.Healthy? then Succeeded else InProgress)
  {
    FiveSteps(s, Begin(q, id), Look(q), Read(q), Judge(q), Check(q, health));
    if Reported(s.log, id) {
      var e := Last(s.log, id);
      ReadRecord(s, q, id);
      JudgeRecord(s, q, Poll(id, |s.log|, Got(e, |s.log|)), health);
      var v := Verdict(e, s.now);
      answer := if v.Some? then v
                else if health.Unreachable? then None
                else Some(if health.Healthy? then Succeeded else InProgress);
    } else {
      NoRecord(s, q, id, health);
      answer := Some(Failed);
    }
  }

  lemma NoRecord(s: Sys, q: nat, id: string, health: Health)
    requires q !in s.polls && !Reported(s.log, id)
    ensures var t := Apply(Apply(Apply(s, Begin(q, id)), Look(q)), Read(q));
            Answers(s, Apply(Apply(t, Judge(q)), Check(q, health)), id, Some(Failed))
  {
    var p := Poll(id, |s.log|, Begun);
    PollGone(s.polls, q, p, p.(phase := Found(false, |s.log|)));
  }

  lemma ReadRecord(s: Sys, q: nat, id: string)
    requires q !in s.polls && Reported(s.log, id)
    ensures Apply(Apply(Apply(s, Begin(q, id)), Look(q)), Read(q)) ==
            s.(polls := s.polls[q := Poll(id, |s.log|, Got(Last(s.log, id), |s.log|))])
  {
    var p := Poll(id, |s.log|, Begun);
    var found := p.(phase := Found(true, |s.log|));
    PollGone(s.polls, q, p, found);
    PollGone(s.polls, q, found, p.(phase := Got(Last(s.log, id), |s.log|)));
  }

  lemma JudgeRecord(s: Sys, q: nat, p: Poll, health: Health)
    requires q !in s.polls && p.phase.Got?
    ensures var v := Verdict(p.phase.e, s.now);
            Answers(s, Apply(Apply(s.(polls := s.polls[q := p]), Judge(q)), Check(q, health)), p.id,
                    if v.Some? then v
                    else if health.Unreachable? then None
                    else Some(if health.Healthy? then Succeeded else InProgress))
  {
    PollGone(s.polls, q, p, p.(phase := Checking(p.phase.e, p.phase.read, s.now)));
  }

  lemma PollGone(polls: map<nat, Poll>, q: nat, a: Poll, b: Poll)
    requires q !in polls
    ensures polls[q := a][q := b] == polls[q := b] && polls[q := a] - {q} == polls == polls[q := b] - {q}
  {
  }

  lemma FiveSteps(s: Sys, a: Step, b: Step, c: Step, d: Step, e: Step)
    ensures After(s, [a] + ([b] + ([c] + ([d] + [e])))) == Apply(Apply(Apply(Apply(Apply(s, a), b), c), d), e)
  {
    var s1 := Apply(s, a);
    var s2 := Apply(s1, b);
    var s3 := Apply(s2, c);
    Then(s, a, [b] + ([c] + ([d] + [e])));
    Then(s1, b, [c] + ([d] + [e]));
    Then(s2, c, [d] + [e]);
    Then(s3, d, [e]);
    OneStep(Apply(s3, d), e);
  }

  lemma RunningAnswersAgain(s: Sys, id: string) returns (more: seq<Step>)
    requires Inv(s) && id in s.handlers && s.handlers[id].pc.Running?
    ensures var t := After(s, more);
            && |t.replies| == |s.replies| + 1
            && (var r := t.replies[|s.replies|]; r.id == id && r.at == s.now && r.answer.InProgress?)
  {
    var acts := SpeakNext(s, id);
    var t := After(s, acts);
    var q := Sets.BoundOf(t.polls.Keys);
    var answer := PollIsRun(t, q, id, CheckFailed);
    more := acts + PollSteps(q, id, CheckFailed);
    AfterConcat(s, acts, PollSteps(q, id, CheckFailed));
  }

  lemma OldIsSilent(s: Sys, id: string)
    requires LogOk(s) && Reported(s.log, id) && s.now - Last(s.log, id).ts > TWENTY_MINUTES
    requires id in s.handlers && !s.handlers[id].pc.Running?
    ensures Silent(s, id, s.now)
  {
    var k := LastIsReport(s.log, id);
    forall i | 0 <= i < |s.log| && s.log[i].guid == id ensures s.now - s.log[i].event.ts > TWENTY_MINUTES {
      assert i < k ==> InOrder(s.log[i], s.log[k]);
    }
  }

  /**
   * 20 minutes after the last report every answer is "failed"; exactly when the handler has ended, or is bound
   * to fail, this stays so for ever. While it still runs, its next report turns the answers back to "in progress".
   */
  lemma TimeoutIsFinalIff(start: int, steps: seq<Step>, id: string)
    requires var s := After(Init(start), steps);
             id != "1" && Reported(s.log, id) && s.now - Last(s.log, id).ts > TWENTY_MINUTES
    ensures var s := After(Init(start), steps);
            id in s.handlers && (FailedFromNow(s, id) <==> !s.handlers[id].pc.Running?)
  {
    var s := After(Init(start), steps);
    RunKeepsInv(Init(start), steps);
    var k := LastIsReport(s.log, id);
    assert ReportOk(s, s.log[k]);
    if s.handlers[id].pc.Running? {
      var more := RunningAnswersAgain(s, id);
      var r := After(s, more).replies[|s.replies|];
      assert r.id == id && r.at >= s.now && !r.answer.Failed?;
    } else {
      OldIsSilent(s, id);
      forall more: seq<Step>, j: nat |
        j < |After(s, more).replies| && After(s, more).replies[j].id == id && After(s, more).replies[j].at >= s.now
        ensures After(s, more).replies[j].answer.Failed?
      {
        SilentMeansFailed(s, id, more, j);
      }
    }
  }
}
