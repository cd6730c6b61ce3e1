/** Every outcome of `ServiceInstancesPut`, failures included, is a run of the handler in the machine. */
module HandlerRuns {
  import opened Decimal
  import opened Cluster
  import opened State
  import opened LastOperation
  import Fabricator

  /** Two lists of reports that differ in their times only. */
  predicate SameReports(a: seq<Report>, b: seq<Report>) {
    && |a| == |b|
    && forall i :: 0 <= i < |a| ==>
         a[i].guid == b[i].guid && a[i].event.state == b[i].event.state && (a[i].event.failed <==> b[i].event.failed)
  }

  /** The next `n` actions of a handler, all of which succeed. */
  function Acts(id: string, n: nat): seq<Step> {
    if n == 0 then [] else Acts(id, n - 1) + [Act(id, true)]
  }

  /** The handler has not begun. */
  predicate Fresh(s: Sys, id: string) {
    id in s.handlers && s.handlers[id].pc == Running(0) && s.handlers[id].made == []
  }

  /** The handler is before action `n`, and has said and made what comes before. */
  ghost predicate At(s: Sys, t: Sys, id: string, n: nat) {
    && id in s.handlers && id in t.handlers && n <= |s.handlers[id].program|
    && var p := s.handlers[id].program;
       && t.handlers[id] == s.handlers[id].(pc := Running(n), made := Made(p[..n]))
       && Fabricator.Grew(s.log, t.log, id, Said(p[..n]), false)
  }

  lemma TakeOne(p: seq<Action>, n: nat)
    requires n < |p|
    ensures Said(p[..n+1]) == Said(p[..n]) + (if p[n].Say? then [p[n].state] else [])
    ensures Made(p[..n+1]) == Made(p[..n]) + (if p[n].Make? then [p[n].o] else [])
  {
    assert p[..n+1][..n] == p[..n] && p[..n+1][n] == p[n];
  }

  lemma AtNext(s: Sys, t: Sys, id: string, n: nat)
    requires At(s, t, id, n) && n + 1 < |s.handlers[id].program|
    ensures At(s, Apply(t, Act(id, true)), id, n + 1)
  {
    var p := s.handlers[id].program;
    TakeOne(p, n);
    if p[n].Say? {
      Fabricator.GrewSnoc(s.log, t.log, Filed(t, id, p[n].state, false).log, id, Said(p[..n]),
                          Event(t.now, p[n].state, false));
    } else {
      assert Said(p[..n]) + [] == Said(p[..n]);
      assert p[n].Call? ==> Made(p[..n]) + [] == Made(p[..n]);
    }
  }

  lemma {:induction false} RunTo(s: Sys, id: string, n: nat)
    requires Fresh(s, id) && n < |s.handlers[id].program|
    ensures At(s, After(s, Acts(id, n)), id, n)
  {
    if n == 0 {
      assert s.handlers[id].program[..0] == [] && s.log[..|s.log|] == s.log;
    } else {
      RunTo(s, id, n - 1);
      AtNext(s, After(s, Acts(id, n - 1)), id, n - 1);
      ThenStep(s, Acts(id, n - 1), Act(id, true));
    }
  }

  // ---------------------------------------------------------------- the two ends

  /** What a handler files before the last FAILED when its action `j` fails. */
  function SaidUpTo(p: seq<Action>, j: nat): seq<string>
    requires j < |p|
  {
    Said(p[..j]) + if p[j].Make? then [Fabricator.FAILED] else []
  }

  lemma OneReport(log: seq<Report>, id: string, e: Event)
    ensures Fabricator.Grew(log, log + [Report(id, e)], id, [e.state], e.failed)
  {
    assert (log + [Report(id, e)])[..|log|] == log;
  }

  /** A failed call is reported once, a failed creation twice; then the handler has ended. */
  lemma FailRun(s: Sys, id: string, j: nat) returns (steps: seq<Step>, mid: seq<Report>)
    requires Fresh(s, id) && j < |s.handlers[id].program| && !s.handlers[id].program[j].Say?
    ensures var t, p := After(s, steps), s.handlers[id].program;
            && t.handlers == s.handlers[id := s.handlers[id].(pc := Ended(false), made := Made(p[..j]))]
            && Fabricator.Grew(s.log, mid, id, SaidUpTo(p, j), p[j].Make?)
            && Fabricator.Grew(mid, t.log, id, [Fabricator.FAILED], true)
  {
    var p := s.handlers[id].program;
    var e := Event(s.now, Fabricator.FAILED, true);
    RunTo(s, id, j);
    OthersRun(s, id, j);
    var u := After(s, Acts(id, j));
    var v := Apply(u, Act(id, false));
    var w := Apply(v, Act(id, true));
    ThenStep(s, Acts(id, j), Act(id, false));
    ThenStep(s, Acts(id, j) + [Act(id, false)], Act(id, true));
    steps := Acts(id, j) + [Act(id, false)] + [Act(id, true)];
    OneReport(u.log, id, e);
    if p[j].Call? {
      mid := u.log;
      assert Said(p[..j]) + [] == Said(p[..j]);
    } else {
      Fabricator.GrewSnoc(s.log, u.log, w.log, id, Said(p[..j]), e);
      mid := w.log;
      OneReport(mid, id, e);
      ThenStep(s, steps, Act(id, true));
      steps := steps + [Act(id, true)];
    }
  }

  lemma ThenStep(s: Sys, steps: seq<Step>, step: Step)
    ensures After(s, steps + [step]) == Apply(After(s, steps), step)
  {
    assert (steps + [step])[..|steps|] == steps;
  }

  /** The handler's actions leave the clock and the other handlers alone. */
  lemma {:induction false} OthersRun(s: Sys, id: string, n: nat)
    requires id in s.handlers
    ensures var t := After(s, Acts(id, n));
            t.now == s.now && id in t.handlers && t.handlers == s.handlers[id := t.handlers[id]]
  {
    if n > 0 {
      OthersRun(s, id, n - 1);
      ThenStep(s, Acts(id, n - 1), Act(id, true));
      ActOthers(After(s, Acts(id, n - 1)), id);
      UpdateTwice(s.handlers, id, After(s, Acts(id, n - 1)).handlers[id], After(s, Acts(id, n)).handlers[id]);
    }
  }

  lemma UpdateTwice(m: map<string, Handler>, id: string, x: Handler, y: Handler)
    ensures m[id := x][id := y] == m[id := y]
  {
  }

  lemma ActOthers(s: Sys, id: string)
    requires id in s.handlers
    ensures var t := Apply(s, Act(id, true));
            t.now == s.now && id in t.handlers && t.handlers == s.handlers[id := t.handlers[id]]
  {
  }

  /** A handler that meets no failure. */
  lemma FullRun(s: Sys, id: string) returns (steps: seq<Step>)
    requires Fresh(s, id) && GoodProgram(s.handlers[id].program)
    ensures var t, p := After(s, steps), s.handlers[id].program;
            && t.handlers == s.handlers[id := s.handlers[id].(pc := Ended(true), made := Made(p))]
            && Fabricator.Grew(s.log, t.log, id, Said(p), false)
  {
    var p := s.handlers[id].program;
    var n := |p| - 1;
    RunTo(s, id, n);
    OthersRun(s, id, n);
    var u := After(s, Acts(id, n));
    ThenStep(s, Acts(id, n), Act(id, true));
    steps := Acts(id, n) + [Act(id, true)];
    LastStep(s, u, id);
    UpdateTwice(s.handlers, id, u.handlers[id], After(s, steps).handlers[id]);
  }

  /** The last action, the report of the end. */
  lemma LastStep(s: Sys, u: Sys, id: string)
    requires id in s.handlers && GoodProgram(s.handlers[id].program) && At(s, u, id, |s.handlers[id].program| - 1)
    ensures var t, p := Apply(u, Act(id, true)), s.handlers[id].program;
            && t.handlers == u.handlers[id := s.handlers[id].(pc := Ended(true), made := Made(p))]
            && Fabricator.Grew(s.log, t.log, id, Said(p), false)
  {
    var p, n := s.handlers[id].program, |s.handlers[id].program| - 1;
    TakeOne(p, n);
    assert p[..|p|] == p && Made(p[..n]) + [] == Made(p[..n]);
    Fabricator.GrewSnoc(s.log, u.log, Apply(u, Act(id, true)).log, id, Said(p[..n]),
                        Event(u.now, KUBERNETES_OK, false));
  }

  // ---------------------------------------------------------------- where an outcome fails

  /** The program has these actions before this one. */
  predicate Begins(p: seq<Action>, a: seq<Action>, x: Action) {
    |a| < |p| && p[..|a|] == a && p[|a|] == x
  }

  lemma BeginsAfter(h: seq<Action>, p: seq<Action>, a: seq<Action>, x: Action)
    requires Begins(p, a, x)
    ensures Begins(h + p, h + a, x)
  {
    assert (h + p)[..|h|+|a|] == h + p[..|a|];
  }

  lemma BeginsLonger(p: seq<Action>, more: seq<Action>, a: seq<Action>, x: Action)
    requires Begins(p, a, x)
    ensures Begins(p + more, a, x)
  {
    assert (p + more)[..|a|] == p[..|a|];
  }

  /** The report and the creation of object `n`. */
  lemma {:induction false} ItemBegins(item: string, os: seq<Object>, n: nat)
    requires n < |os|
    ensures Begins(ItemActions(item, os), ItemActions(item, os[..n]) + [Say(item + Itoa(n))], Make(os[n]))
  {
    var m := |os| - 1;
    var a := ItemActions(item, os[..n]) + [Say(item + Itoa(n))];
    if n < m {
      ItemBegins(item, os[..m], n);
      assert os[..m][..n] == os[..n];
      BeginsLonger(ItemActions(item, os[..m]), ItemPair(item + Itoa(m), os[m]), a, Make(os[n]));
    } else {
      BeginsAfter(ItemActions(item, os[..n]), ItemPair(item + Itoa(n), os[n]), [Say(item + Itoa(n))], Make(os[n]));
    }
  }

  /** The actions of a stage before the creation of object `n`. */
  function StageTo(s: Fabricator.Stage, n: nat): seq<Action>
    requires n < |s.objects|
  {
    [Say(s.header)] + (ItemActions(s.item, s.objects[..n]) + [Say(s.item + Itoa(n))])
  }

  lemma {:induction false} StagesBegin(stages: seq<Fabricator.Stage>, k: nat, n: nat)
    requires k < |stages| && n < |stages[k].objects|
    ensures Begins(FabActions(stages), FabActions(stages[..k]) + StageTo(stages[k], n), Make(stages[k].objects[n]))
  {
    var m := |stages| - 1;
    var a, x := FabActions(stages[..k]) + StageTo(stages[k], n), Make(stages[k].objects[n]);
    if k < m {
      StagesBegin(stages[..m], k, n);
      assert stages[..m][..k] == stages[..k];
      BeginsLonger(FabActions(stages[..m]), StageActions(stages[m]), a, x);
    } else {
      var s := stages[k];
      ItemBegins(s.item, s.objects, n);
      BeginsAfter([Say(s.header)], ItemActions(s.item, s.objects),
                  ItemActions(s.item, s.objects[..n]) + [Say(s.item + Itoa(n))], x);
      BeginsAfter(FabActions(stages[..k]), StageActions(s), StageTo(s, n), x);
    }
  }

  lemma StageToSays(s: Fabricator.Stage, n: nat)
    requires n < |s.objects|
    ensures Said(StageTo(s, n)) == Fabricator.StageReports(s, n + 1) && Made(StageTo(s, n)) == s.objects[..n]
  {
    var items, say := ItemActions(s.item, s.objects[..n]), [Say(s.item + Itoa(n))];
    ItemsSaid(s.item, s.objects[..n]);
    SingleAction(Say(s.item + Itoa(n)));
    SingleAction(Say(s.header));
    SaidConcat(items, say);
    SaidConcat([Say(s.header)], items + say);
    HeaderFirst(s, n + 1);
    assert s.objects[..n] + [] == s.objects[..n] && [] + s.objects[..n] == s.objects[..n];
  }

  /** The actions before the creation of object `n` of stage `k`. */
  function UpToCreation(stages: seq<Fabricator.Stage>, k: nat, n: nat): seq<Action>
    requires k < |stages| && n < |stages[k].objects|
  {
    OPENING + (FabActions(stages[..k]) + StageTo(stages[k], n))
  }

  lemma UpToCreationSays(stages: seq<Fabricator.Stage>, k: nat, n: nat)
    requires k < |stages| && n < |stages[k].objects|
    ensures Said(UpToCreation(stages, k, n)) == SAID_BEFORE + Fabricator.ReportsTo(stages, k, n)
    ensures Made(UpToCreation(stages, k, n)) == Fabricator.ItemsTo(stages, k, n)
  {
    OpeningSays();
    FabActionsSay(stages[..k]);
    StageToSays(stages[k], n);
    SaidConcat(FabActions(stages[..k]), StageTo(stages[k], n));
    SaidConcat(OPENING, FabActions(stages[..k]) + StageTo(stages[k], n));
    assert [] + Fabricator.ItemsTo(stages, k, n) == Fabricator.ItemsTo(stages, k, n);
  }

  /** The actions before the first call, the second and so on. */
  const TO_METADATA := [Say(STARTED)]
  const TO_BLUEPRINT := [Say(STARTED)] + ([Call] + ([Say(METADATA_OK)] + [Say(IN_BACKGROUND)]))
  const TO_CLUSTER := TO_BLUEPRINT + ([Call] + [Say(BLUEPRINT_OK)])
  const TO_CLIENT := TO_CLUSTER + [Call]

  lemma OpeningBegins()
    ensures Begins(OPENING, TO_METADATA, Call) && Begins(OPENING, TO_BLUEPRINT, Call)
    ensures Begins(OPENING, TO_CLUSTER, Call) && Begins(OPENING, TO_CLIENT, Call)
  {
  }

  lemma OpeningPartsSay()
    ensures Said(TO_METADATA) == [STARTED] && Said(TO_BLUEPRINT) == UP_TO_BACKGROUND
    ensures Said(TO_CLUSTER) == SAID_BEFORE && Said(TO_CLIENT) == SAID_BEFORE
    ensures Made(TO_METADATA) == [] && Made(TO_BLUEPRINT) == [] && Made(TO_CLUSTER) == [] && Made(TO_CLIENT) == []
  {
    SingleAction(Say(STARTED));
    ThreeSay(STARTED, METADATA_OK, IN_BACKGROUND);
    CallAndSay(TO_BLUEPRINT, BLUEPRINT_OK);
    ThenCall(TO_CLUSTER);
    FourStates(STARTED, METADATA_OK, IN_BACKGROUND, BLUEPRINT_OK);
  }

  lemma FourStates(a: string, b: string, c: string, d: string)
    ensures ([a] + ([b] + [c])) + [d] == [a] + ([b] + ([c] + [d]))
  {
  }

  lemma ThreeSay(a: string, b: string, c: string)
    ensures var p := [Say(a)] + ([Call] + ([Say(b)] + [Say(c)])); Said(p) == [a] + ([b] + [c]) && Made(p) == []
  {
    SingleAction(Say(c));
    SayFirst(b, [Say(c)]);
    CallFirst([Say(b)] + [Say(c)]);
    SayFirst(a, [Call] + ([Say(b)] + [Say(c)]));
  }

  lemma SayFirst(a: string, p: seq<Action>)
    ensures Said([Say(a)] + p) == [a] + Said(p) && Made([Say(a)] + p) == Made(p)
  {
    SingleAction(Say(a));
    SaidConcat([Say(a)], p);
  }

  lemma CallFirst(p: seq<Action>)
    ensures Said([Call] + p) == Said(p) && Made([Call] + p) == Made(p)
  {
    SingleAction(Call);
    SaidConcat([Call], p);
  }

  lemma CallAndSay(p: seq<Action>, d: string)
    ensures var q := p + ([Call] + [Say(d)]); Said(q) == Said(p) + [d] && Made(q) == Made(p)
  {
    SingleAction(Call);
    SingleAction(Say(d));
    SaidConcat([Call], [Say(d)]);
    SaidConcat(p, [Call] + [Say(d)]);
  }

  lemma ThenCall(p: seq<Action>)
    ensures Said(p + [Call]) == Said(p) && Made(p + [Call]) == Made(p)
  {
    SingleAction(Call);
    SaidConcat(p, [Call]);
  }

  /** An outcome whose creation failed names an object of the stages. */
  predicate InStages(r: PutOutcome, stages: seq<Fabricator.Stage>) {
    r.NotFabricated? && r.fab.CreateFailed? ==> r.fab.stage < |stages| && r.fab.index < |stages[r.fab.stage].objects|
  }

  /** The actions before the one that fails. */
  function Before(r: PutOutcome, stages: seq<Fabricator.Stage>): seq<Action>
    requires InStages(r, stages)
  {
    match r
    case NoMetadata => TO_METADATA
    case NoBlueprint => TO_BLUEPRINT
    case NoCluster => TO_CLUSTER
    case NotFabricated(CreateFailed(k, n)) => UpToCreation(stages, k, n)
    case _ => TO_CLIENT
  }

  /** The objects that are made before it. */
  function MadeBy(r: PutOutcome, stages: seq<Fabricator.Stage>): seq<Object>
    requires InStages(r, stages)
  {
    if r.Provisioned? then Fabricator.Items(stages)
    else if r.NotFabricated? && r.fab.CreateFailed? then Fabricator.ItemsTo(stages, r.fab.stage, r.fab.index)
    else []
  }

  /** The outcome is the failure of action `j`, a call or a creation. */
  predicate FailsAt(p: seq<Action>, j: nat, r: PutOutcome, stages: seq<Fabricator.Stage>)
    requires InStages(r, stages)
  {
    && j < |p| && !p[j].Say? && (p[j].Make? <==> r.NotFabricated? && r.fab.CreateFailed?)
    && SaidUpTo(p, j) == SaidBy(r, stages) && Made(p[..j]) == MadeBy(r, stages)
  }

  const TAIL := [Say(Fabricator.FAB_OK), Say(KUBERNETES_OK)]

  lemma CreationFails(stages: seq<Fabricator.Stage>, k: nat, n: nat)
    requires k < |stages| && n < |stages[k].objects|
    ensures FailsAt(OPENING + (FabActions(stages) + TAIL), |UpToCreation(stages, k, n)|,
                    NotFabricated(Fabricator.CreateFailed(k, n)), stages)
  {
    var a, x := FabActions(stages[..k]) + StageTo(stages[k], n), Make(stages[k].objects[n]);
    StagesBegin(stages, k, n);
    BeginsLonger(FabActions(stages), TAIL, a, x);
    BeginsAfter(OPENING, FabActions(stages) + TAIL, a, x);
    UpToCreationSays(stages, k, n);
    ConcatAssoc(SAID_BEFORE, Fabricator.ReportsTo(stages, k, n), [Fabricator.FAILED]);
  }

  lemma ConcatAssoc(a: seq<string>, b: seq<string>, c: seq<string>)
    ensures (a + b) + c == a + (b + c)
  {
  }

  lemma CallFails(stages: seq<Fabricator.Stage>, r: PutOutcome)
    requires InStages(r, stages) && !r.Provisioned? && !(r.NotFabricated? && r.fab.CreateFailed?)
    ensures FailsAt(OPENING + (FabActions(stages) + TAIL), |Before(r, stages)|, r, stages)
  {
    var a := Before(r, stages);
    CallsBegin(stages, r);
    BeginsLonger(OPENING, FabActions(stages) + TAIL, a, Call);
    assert Said(a) + [] == Said(a);
  }

  lemma CallsBegin(stages: seq<Fabricator.Stage>, r: PutOutcome)
    requires InStages(r, stages) && !r.Provisioned? && !(r.NotFabricated? && r.fab.CreateFailed?)
    ensures var a := Before(r, stages); Begins(OPENING, a, Call) && Said(a) == SaidBy(r, stages) && Made(a) == []
  {
    OpeningBegins();
    OpeningPartsSay();
  }

  /** Each failed outcome is the failure of one action of the program. */
  lemma OutcomeFails(c: Fabricator.Component, extra: seq<EnvVar>, r: PutOutcome)
    requires InStages(r, Fabricator.Stages(c, extra)) && !r.Provisioned?
    ensures FailsAt(Program(c, extra), |Before(r, Fabricator.Stages(c, extra))|, r, Fabricator.Stages(c, extra))
  {
    if r.NotFabricated? && r.fab.CreateFailed? {
      CreationFails(Fabricator.Stages(c, extra), r.fab.stage, r.fab.index);
    } else {
      CallFails(Fabricator.Stages(c, extra), r);
    }
  }

  lemma SaysSame(a: seq<Report>, b: seq<Report>, c: seq<Report>, d: seq<Report>, id: string, states: seq<string>,
                 failed: bool)
    requires Fabricator.Grew(a, b, id, states, failed) && Fabricator.Grew(c, d, id, states, failed)
    ensures SameReports(b[|a|..], d[|c|..])
  {
  }

  lemma SameTwice(a: seq<Report>, b: seq<Report>, c: seq<Report>, x: seq<Report>, y: seq<Report>, z: seq<Report>,
                  id: string,
                  states: seq<string>, failed: bool)
    requires Fabricator.Grew(a, b, id, states, failed) && Fabricator.Grew(b, c, id, [Fabricator.FAILED], true)
    requires Fabricator.Grew(x, y, id, states, failed) && Fabricator.Grew(y, z, id, [Fabricator.FAILED], true)
    ensures SameReports(c[|a|..], z[|x|..])
  {
    SaysSame(a, b, x, y, id, states, failed);
    SaysSame(b, c, y, z, id, [Fabricator.FAILED], true);
    assert c[|a|..] == b[|a|..] + c[|b|..] && z[|x|..] == y[|x|..] + z[|y|..];
  }

  /** The component that the handler is for; without a blueprint it never matters. */
  function Asked(component: Option<Fabricator.Component>): Fabricator.Component {
    if component.Some? then component.value else Fabricator.Component([], [], [], [], [], [])
  }

  /** The handler alone went from `s` to `t`, made these objects, and reported the same as the request. */
  ghost predicate RanAs(s: Sys, t: Sys, id: string, ok: bool, made: seq<Object>, before: seq<Report>,
                        after: seq<Report>) {
    && id in s.handlers && t.handlers == s.handlers[id := s.handlers[id].(pc := Ended(ok), made := made)]
    && |s.log| <= |t.log| && t.log[..|s.log|] == s.log && |before| <= |after| &&
         SameReports(t.log[|s.log|..], after[|before|..])
  }

  lemma FailureIsRun(s: Sys, id: string, r: PutOutcome, stages: seq<Fabricator.Stage>, before: seq<Report>,
                     mid: seq<Report>,
                     after: seq<Report>) returns (steps: seq<Step>)
    requires Fresh(s, id) && InStages(r, stages) && !r.Provisioned? && PutReports(before, mid, after, id, stages, r)
    requires FailsAt(s.handlers[id].program, |Before(r, stages)|, r, stages)
    ensures RanAs(s, After(s, steps), id, false, MadeBy(r, stages), before, after)
  {
    var m;
    steps, m := FailRun(s, id, |Before(r, stages)|);
    SameTwice(s.log, m, After(s, steps).log, before, mid, after, id, SaidBy(r, stages),
              r.NotFabricated? && r.fab.CreateFailed?);
    assert After(s, steps).log[..|s.log|] == m[..|s.log|];
  }

  lemma SuccessIsRun(s: Sys, id: string, stages: seq<Fabricator.Stage>, before: seq<Report>, mid: seq<Report>,
                     after: seq<Report>)
    returns (steps: seq<Step>)
    requires Fresh(s, id) && GoodProgram(s.handlers[id].program) &&
             PutReports(before, mid, after, id, stages, Provisioned)
    requires var p := s.handlers[id].program;
             Said(p) == SAID_BEFORE + Fabricator.Schedule(stages) + [KUBERNETES_OK] &&
                 Made(p) == Fabricator.Items(stages)
    ensures RanAs(s, After(s, steps), id, true, MadeBy(Provisioned, stages), before, after)
  {
    steps := FullRun(s, id);
    SaysSame(s.log, After(s, steps).log, before, after, id, Said(s.handlers[id].program), false);
  }

  /**
   * Whatever a request came to, there is a run of its handler alone, from any state of the machine in which it has
   * begun, that files the same reports, makes the same objects and ends as the request did.
   */
  lemma OutcomeIsRun(s: Sys, id: string, component: Option<Fabricator.Component>, parameters: Fabricator.Parameters,
                     space: string,
                     r: PutOutcome, before: seq<Report>, mid: seq<Report>, after: seq<Report>)
    returns (steps: seq<Step>)
    requires PutReports(before, mid, after, id, StagesOf(component, parameters, space), r)
    requires r.Provisioned? || r.NotFabricated? ==> component.Some?
    requires var c, extra := Asked(component), Fabricator.ExtraEnv(parameters, space);
             id in s.handlers && s.handlers[id] == Handler(c, extra, Program(c, extra), Running(0), [])
    ensures InStages(r, StagesOf(component, parameters, space))
    ensures RanAs(s, After(s, steps), id, r.Provisioned?, MadeBy(r, StagesOf(component, parameters, space)), before,
                  after)
  {
    var c, extra := Asked(component), Fabricator.ExtraEnv(parameters, space);
    var stages := Fabricator.Stages(c, extra);
    if r.Provisioned? {
      ProgramMeaning(c, extra);
      steps := SuccessIsRun(s, id, stages, before, mid, after);
    } else {
      assert PutReports(before, mid, after, id, stages, r);
      OutcomeFails(c, extra, r);
      steps := FailureIsRun(s, id, r, stages, before, mid, after);
    }
  }
}
