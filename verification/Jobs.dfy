/** Collecting the results of jobs: `ProcessJobsResult` of k8s/k8sfabricator.go. */
module Jobs {
  import opened Decimal
  import opened Cluster

  type Logs = map<string, string>

  /**
   * A job; `saves` tells that its logs are wanted as a config map. `finished` is Kubernetes' own word that the job is
   * complete or has failed for good, which the code does not look at: without it a job with no active pod may not have
   * started yet, or may be tried again.
   */
  datatype Job = Job(name: string, managed: bool, service: string, active: int, failed: int, succeeded: int,
                     saves: bool,
                     finished: bool)

  datatype Note = CannotRead | JobFailed | CannotSave(logs: Logs) | SavedOk | DeleteError | DeletedOk

  /** What a pass does to the outside; `Removed` keeps the job as it was listed and as it was when it was deleted. */
  datatype Event =
    | LogsRead(service: string, logs: Logs)
    | Saved(name: string, logs: Logs)
    | Removed(listed: Job, found: Job)
    | Notified(name: string, service: string, note: Note)

  /** How the calls for one job end; `actual` is the job found by the deletion, if any. */
  datatype Outcome = Outcome(logs: Option<Logs>, saved: bool, saveReply: bool, actual: Option<Job>, deleteReply: bool)

  predicate WantsMap(j: Job) {
    j.succeeded > 0 && j.saves
  }

  function ReadEvents(j: Job, logs: Logs): seq<Event> {
    [LogsRead(j.service, logs)] + (if j.failed > 0 then [Notified(j.name, j.service, JobFailed)] else [])
  }

  function SaveEvents(j: Job, logs: Logs, saved: bool, reply: bool): seq<Event> {
    if !WantsMap(j) then []
    else (if saved then [Saved(j.name, logs)] else []) +
         [Notified(j.name, j.service, if reply then SavedOk else CannotSave(logs))]
  }

  function DeleteEvents(j: Job, actual: Option<Job>, reply: bool): seq<Event> {
    (if actual.Some? then [Removed(j, actual.value)] else []) +
    [Notified(j.name, j.service, if reply then DeletedOk else DeleteError)]
  }

  /** The events of one listed job. */
  function JobEvents(j: Job, o: Outcome): seq<Event> {
    if j.active > 0 then []
    else if o.logs.None? then [Notified(j.name, j.service, CannotRead)]
    else
      ReadEvents(j, o.logs.value)
      + SaveEvents(j, o.logs.value, o.saved, o.saveReply)
      + DeleteEvents(j, o.actual, o.deleteReply)
  }

  function AllEvents(done: seq<(Job, Outcome)>): seq<Event> {
    if done == [] then [] else AllEvents(done[..|done|-1]) + JobEvents(done[|done|-1].0, done[|done|-1].1)
  }

  /** A finished job has no active pod. */
  predicate Sane(j: Job) {
    j.finished ==> j.active <= 0
  }

  /** What may have become of a job: any status, until it is finished. */
  predicate Progress(a: Job, b: Job) {
    && b.name == a.name && b.managed == a.managed && b.service == a.service && b.saves == a.saves && Sane(b)
    && (a.finished ==> b == a)
  }

  /** The replies fit the effects: a success is reported only when it happened, and a job found is the listed one. */
  predicate Fits(j: Job, o: Outcome) {
    && (o.saveReply ==> o.saved)
    && (o.deleteReply ==> o.actual.Some?)
    && (o.actual.Some? ==> Progress(j, o.actual.value))
  }

  // ---------------------------------------------------------------- the properties

  predicate LogsReadBefore(evs: seq<Event>, n: nat, service: string, logs: Logs) {
    exists k :: 0 <= k < n && k < |evs| && evs[k] == LogsRead(service, logs)
  }

  /** Before position `n`, the logs went into a config map or a notification of the job. */
  predicate KeptBefore(evs: seq<Event>, n: nat, j: Job, logs: Logs) {
    exists k :: 0 <= k < n && k < |evs| &&
                (evs[k] == Saved(j.name, logs) || evs[k] == Notified(j.name, j.service, CannotSave(logs)))
  }

  /** The job of a deletion, as it was found or as it was listed. */
  function Deleted(e: Event, found: bool): Job
    requires e.Removed?
  {
    if found then e.found else e.listed
  }

  /**
   * The deletion at position `n` is that of a job without active pods, and comes after the reading of its service's
   * logs.
   */
  ghost predicate SafeRemoval(evs: seq<Event>, n: nat, found: bool)
    requires n < |evs|
  {
    evs[n].Removed? ==>
      var j := Deleted(evs[n], found);
      j.active <= 0 && exists logs: Logs ::
        LogsReadBefore(evs, n, j.service, logs) && (j.succeeded > 0 && j.saves ==> KeptBefore(evs, n, j, logs))
  }

  /** All deletions are safe: by what the jobs were found to be, or by what they were when they were listed. */
  ghost predicate Safe(evs: seq<Event>, found: bool) {
    forall n :: 0 <= n < |evs| ==> SafeRemoval(evs, n, found)
  }

  lemma LaterInBoth(a: seq<Event>, b: seq<Event>, n: nat, found: bool)
    requires n < |b| && SafeRemoval(b, n, found)
    ensures SafeRemoval(a + b, |a| + n, found)
  {
    var evs := a + b;
    assert evs[|a|+n] == b[n];
    if b[n].Removed? {
      var j := Deleted(b[n], found);
      var logs: Logs :|
        LogsReadBefore(b, n, j.service, logs) && (j.succeeded > 0 && j.saves ==> KeptBefore(b, n, j, logs));
      var k :| 0 <= k < n && k < |b| && b[k] == LogsRead(j.service, logs);
      assert evs[|a|+k] == b[k];
      assert LogsReadBefore(evs, |a| + n, j.service, logs);
      if WantsMap(j) {
        var m :| 0 <= m < n && m < |b| &&
            (b[m] == Saved(j.name, logs) || b[m] == Notified(j.name, j.service, CannotSave(logs)));
        assert evs[|a|+m] == b[m];
        assert KeptBefore(evs, |a| + n, j, logs);
      }
    }
  }

  lemma EarlierInBoth(a: seq<Event>, b: seq<Event>, n: nat, found: bool)
    requires n < |a| && SafeRemoval(a, n, found)
    ensures SafeRemoval(a + b, n, found)
  {
    var evs := a + b;
    assert evs[n] == a[n];
    if a[n].Removed? {
      var j := Deleted(a[n], found);
      var logs: Logs :|
        LogsReadBefore(a, n, j.service, logs) && (j.succeeded > 0 && j.saves ==> KeptBefore(a, n, j, logs));
      var k :| 0 <= k < n && k < |a| && a[k] == LogsRead(j.service, logs);
      assert evs[k] == a[k];
      assert LogsReadBefore(evs, n, j.service, logs);
      if WantsMap(j) {
        var m :| 0 <= m < n && m < |a| &&
            (a[m] == Saved(j.name, logs) || a[m] == Notified(j.name, j.service, CannotSave(logs)));
        assert evs[m] == a[m];
        assert KeptBefore(evs, n, j, logs);
      }
    }
  }

  lemma SafeConcat(a: seq<Event>, b: seq<Event>, found: bool)
    requires Safe(a, found) && Safe(b, found)
    ensures Safe(a + b, found)
  {
    forall n | 0 <= n < |a + b| ensures SafeRemoval(a + b, n, found) {
      if n < |a| {
        EarlierInBoth(a, b, n, found);
      } else {
        LaterInBoth(a, b, n - |a|, found);
      }
    }
  }

  lemma Layout(evs: seq<Event>, a: seq<Event>, b: seq<Event>, c: seq<Event>)
    requires evs == a + b + c && a != [] && c != []
    ensures evs[0] == a[0] && evs[|a|+|b|] == c[0]
    ensures b != [] ==> evs[|a|] == b[0] && evs[|a|+|b|-1] == b[|b|-1]
  {
  }

  predicate NoRemoval(evs: seq<Event>) {
    forall i :: 0 <= i < |evs| ==> !evs[i].Removed?
  }

  lemma OnlyRemoval(a: seq<Event>, b: seq<Event>, c: seq<Event>)
    requires NoRemoval(a) && NoRemoval(b) && c != [] && NoRemoval(c[1..])
    ensures forall i :: 0 <= i < |a + b + c| && (a + b + c)[i].Removed? ==> i == |a| + |b|
  {
    assert c == [c[0]] + c[1..];
  }

  /** One job is handled safely as it was listed, and as it is found if it had finished. */
  lemma JobIsSafe(j: Job, o: Outcome, found: bool)
    requires Fits(j, o) && (found ==> Sure(j))
    ensures Safe(JobEvents(j, o), found)
  {
    if j.active <= 0 && o.logs.Some? {
      var logs := o.logs.value;
      var head, saves, tail := ReadEvents(j, logs), SaveEvents(j, logs, o.saved, o.saveReply),
          DeleteEvents(j, o.actual, o.deleteReply);
      OnlyRemoval(head, saves, tail);
      Layout(head + saves + tail, head, saves, tail);
      if o.actual.Some? {
        if WantsMap(j) {
          SavesKeep(head + saves + tail, head, saves, tail, j, logs, o.saved, o.saveReply);
        }
        DeletionIsSafe(head + saves + tail, |head| + |saves|, j, o.actual.value, logs, found);
      }
    }
  }

  lemma DeletionIsSafe(evs: seq<Event>, n: nat, j: Job, actual: Job, logs: Logs, found: bool)
    requires 0 < n < |evs| && evs[0] == LogsRead(j.service, logs) && evs[n] == Removed(j, actual)
    requires j.active <= 0 && Progress(j, actual) && (found ==> j.finished)
    requires WantsMap(j) ==> KeptBefore(evs, n, j, logs)
    ensures SafeRemoval(evs, n, found)
  {
    assert LogsReadBefore(evs, n, j.service, logs);
  }

  lemma SavesKeep(evs: seq<Event>, head: seq<Event>, saves: seq<Event>, tail: seq<Event>, j: Job, logs: Logs,
                  saved: bool, reply: bool)
    requires evs == head + saves + tail && head != [] && tail != []
    requires WantsMap(j) && saves == SaveEvents(j, logs, saved, reply) && (reply ==> saved)
    ensures KeptBefore(evs, |head| + |saves|, j, logs)
  {
    Layout(evs, head, saves, tail);
    var k := if saved then |head| else |head| + |saves| - 1;
    assert evs[k] == Saved(j.name, logs) || evs[k] == Notified(j.name, j.service, CannotSave(logs));
  }

  /** The job is left alone, or had finished when it was listed. */
  predicate Sure(j: Job) {
    j.active > 0 || j.finished
  }

  /** A job without active pods that had not finished is deleted although it has become active. */
  lemma UnfinishedIsDeleted(j: Job) returns (o: Outcome)
    requires !Sure(j)
    ensures Fits(j, o)
    ensures exists e :: e in JobEvents(j, o) && e.Removed? && e.found.active > 0
  {
    o := Outcome(Some(map[]), true, true, Some(j.(active := 1)), true);
    var head, saves := ReadEvents(j, map[]), SaveEvents(j, map[], true, true);
    var e := Removed(j, j.(active := 1));
    Layout(JobEvents(j, o), head, saves, DeleteEvents(j, o.actual, true));
    assert JobEvents(j, o)[|head|+|saves|] == e;
  }

  /**
   * Over any number of passes and whatever calls fail: no job is deleted that was listed as active; a job is deleted
   * only after the logs of its service were read; and if it was listed as succeeded and asked for it, these logs went
   * into a config map of its name or into a notification. The same holds of the jobs as they are found by the deletion,
   * if every job that was not listed as active had finished.
   */
  lemma {:induction false} PassesAreSafe(done: seq<(Job, Outcome)>, found: bool)
    requires forall i :: 0 <= i < |done| ==> Fits(done[i].0, done[i].1) && (found ==> Sure(done[i].0))
    ensures Safe(AllEvents(done), found)
  {
    if done != [] {
      var init, last := done[..|done|-1], done[|done|-1];
      PassesAreSafe(init, found);
      JobIsSafe(last.0, last.1, found);
      SafeConcat(AllEvents(init), JobEvents(last.0, last.1), found);
    }
  }

  lemma {:induction false} EventsAmongAll(done: seq<(Job, Outcome)>, i: nat)
    requires i < |done|
    ensures forall e :: e in JobEvents(done[i].0, done[i].1) ==> e in AllEvents(done)
  {
    if i < |done| - 1 {
      EventsAmongAll(done[..|done|-1], i);
    }
  }

  /** Whatever happens while these jobs are handled, no job is found active by its deletion. */
  ghost predicate NeverActive(jobs: seq<Job>) {
    forall done: seq<(Job, Outcome)> ::
      |done| == |jobs| && (forall i :: 0 <= i < |done| ==> done[i].0 == jobs[i] && Fits(done[i].0, done[i].1)) ==>
        Safe(AllEvents(done), true)
  }

  /** No call succeeds. */
  function AllNothing(jobs: seq<Job>): (done: seq<(Job, Outcome)>)
    ensures |done| == |jobs|
    ensures forall i :: 0 <= i < |done| ==> done[i].0 == jobs[i] && Fits(done[i].0, done[i].1)
  {
    if jobs == [] then []
        else AllNothing(jobs[..|jobs|-1]) + [(jobs[|jobs|-1], Outcome(None, false, false, None, false))]
  }

  /**
   * The deletions are safe whatever becomes of the jobs in the meantime exactly when each listed job was active, and so
   * left alone, or had finished: the code looks at the active pods only.
   */
  lemma NeverActiveIff(jobs: seq<Job>)
    ensures NeverActive(jobs) <==> forall i :: 0 <= i < |jobs| ==> Sure(jobs[i])
  {
    if forall i :: 0 <= i < |jobs| ==> Sure(jobs[i]) {
      forall done: seq<(Job, Outcome)> |
        |done| == |jobs| && (forall i :: 0 <= i < |done| ==> done[i].0 == jobs[i] && Fits(done[i].0, done[i].1))
        ensures Safe(AllEvents(done), true)
      {
        PassesAreSafe(done, true);
      }
    } else {
      var k :| 0 <= k < |jobs| && !Sure(jobs[k]);
      ActiveIsFound(jobs, k);
    }
  }

  lemma ActiveIsFound(jobs: seq<Job>, k: nat)
    requires k < |jobs| && !Sure(jobs[k])
    ensures !NeverActive(jobs)
  {
    var o := UnfinishedIsDeleted(jobs[k]);
    var done := AllNothing(jobs)[k := (jobs[k], o)];
    forall i | 0 <= i < |done| ensures done[i].0 == jobs[i] && Fits(done[i].0, done[i].1) {
      assert i != k ==> done[i] == AllNothing(jobs)[i];
    }
    EventsAmongAll(done, k);
    var e :| e in JobEvents(jobs[k], o) && e.Removed? && e.found.active > 0;
    var n :| 0 <= n < |AllEvents(done)| && AllEvents(done)[n] == e;
    assert !SafeRemoval(AllEvents(done), n, true);
  }

  predicate CarriesLogs(e: Event) {
    e.Saved? || (e.Notified? && e.note.CannotSave?)
  }

  /**
   * The logs that were read go somewhere exactly for a job that succeeded and asked for it: those of a failed job are
   * dropped.
   */
  lemma LogsLeaveIff(j: Job, o: Outcome)
    requires Fits(j, o) && j.active <= 0 && o.logs.Some?
    ensures (exists i :: 0 <= i < |JobEvents(j, o)| && CarriesLogs(JobEvents(j, o)[i])) <==>
            j.succeeded > 0 && j.saves
  {
    var evs := JobEvents(j, o);
    var head, saves := ReadEvents(j, o.logs.value), SaveEvents(j, o.logs.value, o.saved, o.saveReply);
    Layout(evs, head, saves, DeleteEvents(j, o.actual, o.deleteReply));
    if WantsMap(j) {
      var n := if o.saved then |head| else |head| + |saves| - 1;
      assert CarriesLogs(evs[n]);
    }
  }

  /** The events of a job one by one: which there are, each at most once, and in what order. */
  lemma JobEventsMeaning(j: Job, o: Outcome)
    requires Fits(j, o)
    ensures j.active > 0 ==> JobEvents(j, o) == []
    ensures j.active <= 0 && o.logs.None? ==> JobEvents(j, o) == [Notified(j.name, j.service, CannotRead)]
    ensures j.active <= 0 && o.logs.Some? ==>
              var evs, logs, saves := JobEvents(j, o), o.logs.value, j.succeeded > 0 && j.saves;
              && |evs| == (if j.failed > 0 then 1 else 0) + (if saves then if o.saved then 2 else 1 else 0) +
                          (if o.actual.Some? then 1 else 0) + 2
              && evs[0] == LogsRead(j.service, logs)
              && (j.failed > 0 ==> evs[1] == Notified(j.name, j.service, JobFailed))
              && (saves ==>
                    var k := if j.failed > 0 then 2 else 1;
                    && (o.saved ==> evs[k] == Saved(j.name, logs))
                    && evs[if o.saved then k + 1 else k] ==
                       Notified(j.name, j.service, if o.saveReply then SavedOk else CannotSave(logs)))
              && (o.actual.Some? ==> evs[|evs|-2] == Removed(j, o.actual.value))
              && evs[|evs|-1] == Notified(j.name, j.service, if o.deleteReply then DeletedOk else DeleteError)
  {
    if j.active <= 0 && o.logs.Some? {
      var logs := o.logs.value;
      Layout(JobEvents(j, o), ReadEvents(j, logs), SaveEvents(j, logs, o.saved, o.saveReply),
             DeleteEvents(j, o.actual, o.deleteReply));
    }
  }

  // ---------------------------------------------------------------- the pass

  /** How the calls of one job will be answered, and what has become of the jobs by then. */
  datatype Turn = Turn(logs: Option<Logs>, save: Reply, delete: Reply, later: map<string, Job>)

  /** Others create jobs under new names, delete jobs, and jobs make progress. */
  predicate Evolves(before: map<string, Job>, after: map<string, Job>, used: set<string>) {
    && (forall n :: n in after ==> after[n].name == n && Sane(after[n]))
    && (forall n :: n in before && n in after ==> Progress(before[n], after[n]))
    && (forall n :: n in after && n !in before ==> n !in used)
  }

  /** The script's next turn; beyond it, calls are done and all jobs are gone. */
  function TurnOf(turns: seq<Turn>): Turn {
    if turns == [] then Turn(Some(map[]), Done, Done, map[]) else turns[0]
  }

  class Batch {
    var jobs: map<string, Job>
    var maps: map<string, Logs>
    var turns: seq<Turn>
    var events: seq<Event>
    /** All names that jobs have had. */
    var used: set<string>

    ghost predicate Valid()
      reads this
    {
      (forall n :: n in jobs ==> jobs[n].name == n && Sane(jobs[n])) && jobs.Keys <= used
    }

    constructor (jobs: map<string, Job>, turns: seq<Turn>)
      requires forall n :: n in jobs ==> jobs[n].name == n && Sane(jobs[n])
      ensures Valid() && this.jobs == jobs && events == [] && maps == map[]
    {
      this.jobs, this.turns, this.maps, this.events, this.used := jobs, turns, map[], [], jobs.Keys;
    }

    /** Time passes for the others, if what the script says can come about. */
    method NextTurn() returns (t: Turn)
      requires Valid()
      modifies this`jobs, this`turns, this`used
      ensures t == TurnOf(old(turns))
      ensures Valid() && used >= old(used)
      ensures forall n :: n in jobs && n in old(jobs) ==> Progress(old(jobs)[n], jobs[n])
      ensures forall n :: n in jobs && n !in old(jobs) ==> n !in old(used)
    {
      t := TurnOf(turns);
      turns := if turns == [] then [] else turns[1..];
      if Evolves(jobs, t.later, used) {
        jobs := t.later;
      }
      used := used + jobs.Keys;
    }

    method Notify(j: Job, note: Note)
      modifies this`events
      ensures events == old(events) + [Notified(j.name, j.service, note)]
    {
      events := events + [Notified(j.name, j.service, note)];
    }

    method CreateConfigMap(j: Job, logs: Logs, reply: Reply) returns (saved: bool, ok: bool)
      modifies this`maps, this`events
      ensures ok <==> saved && reply.Done?
      ensures saved <==> !reply.Refused? && j.name !in old(maps)
      ensures saved ==> maps == old(maps)[j.name := logs] && events == old(events) + [Saved(j.name, logs)]
      ensures !saved ==> maps == old(maps) && events == old(events)
    {
      if reply.Refused? || j.name in maps {
        return false, false;
      }
      maps := maps[j.name := logs];
      events := events + [Saved(j.name, logs)];
      return true, reply.Done?;
    }

    method DeleteJob(j: Job, reply: Reply) returns (actual: Option<Job>, ok: bool)
      requires Valid()
      modifies this`jobs, this`events
      ensures Valid() && (ok <==> actual.Some? && reply.Done?)
      ensures actual.Some? <==> !reply.Refused? && j.name in old(jobs)
      ensures actual.Some? ==> actual.value == old(jobs)[j.name] && jobs == old(jobs) - {j.name}
      ensures events == old(events) + if actual.Some? then [Removed(j, actual.value)] else []
      ensures actual.None? ==> jobs == old(jobs)
    {
      if reply.Refused? || j.name !in jobs {
        return None, false;
      }
      var found := jobs[j.name];
      jobs := jobs - {j.name};
      events := events + [Removed(j, found)];
      return Some(found), reply.Done?;
    }
  }

  /** What is known of a job that was listed earlier. */
  ghost predicate Known(b: Batch, j: Job)
    reads b
  {
    j.name in b.used && (j.name in b.jobs ==> Progress(j, b.jobs[j.name]))
  }

  /** The calls for one listed job, while the others go on. */
  method ProcessJob(b: Batch, j: Job, ghost listed: seq<Job>) returns (ghost o: Outcome)
    requires b.Valid() && Known(b, j) && forall i :: 0 <= i < |listed| ==> Known(b, listed[i])
    modifies b
    ensures b.Valid() && forall i :: 0 <= i < |listed| ==> Known(b, listed[i])
    ensures Fits(j, o) && b.events == old(b.events) + JobEvents(j, o)
    ensures j.active <= 0 ==> var t := TurnOf(old(b.turns));
              && o.logs == t.logs
              && (o.logs.Some? && j.succeeded > 0 && j.saves ==>
                    (o.saved <==> !t.save.Refused? && j.name !in old(b.maps)) &&
                        (o.saveReply <==> o.saved && t.save.Done?))
              && (o.logs.Some? ==>
                    (t.delete.Refused? ==> o.actual.None?) && (!t.delete.Refused? ==> j.name !in b.jobs) &&
                    (o.deleteReply <==> o.actual.Some? && t.delete.Done?))
  {
    ghost var before := b.events;
    if j.active > 0 {
      o := Outcome(None, false, false, None, false);
      assert before + [] == before;
      return;
    }
    var t := b.NextTurn();
    if t.logs.None? {
      b.Notify(j, CannotRead);
      o := Outcome(None, false, false, None, false);
      return;
    }
    o := CollectJob(b, j, t, listed);
  }

  /** The calls after the logs were read. */
  method CollectJob(b: Batch, j: Job, t: Turn, ghost listed: seq<Job>) returns (ghost o: Outcome)
    requires b.Valid() && Known(b, j) && (forall i :: 0 <= i < |listed| ==> Known(b, listed[i]))
    requires j.active <= 0 && t.logs.Some?
    modifies b`jobs, b`maps, b`events
    ensures b.Valid() && forall i :: 0 <= i < |listed| ==> Known(b, listed[i])
    ensures Fits(j, o) && o.logs == t.logs && b.events == old(b.events) + JobEvents(j, o)
    ensures j.succeeded > 0 && j.saves ==>
              (o.saved <==> !t.save.Refused? && j.name !in old(b.maps)) && (o.saveReply <==> o.saved && t.save.Done?)
    ensures (t.delete.Refused? ==> o.actual.None?) && (!t.delete.Refused? ==> j.name !in b.jobs)
    ensures o.deleteReply <==> o.actual.Some? && t.delete.Done?
  {
    ghost var before := b.events;
    var logs := t.logs.value;
    ReadLogs(b, j, logs);
    var saved, saveReply := false, false;
    if WantsMap(j) {
      saved, saveReply := SaveLogs(b, j, logs, t.save);
    } else {
      assert b.events + [] == b.events;
    }
    ghost var mid := b.events;
    var actual, deleteReply := RemoveJob(b, j, t.delete);
    o := Outcome(Some(logs), saved, saveReply, actual, deleteReply);
    FourParts(before, ReadEvents(j, logs), SaveEvents(j, logs, saved, saveReply), DeleteEvents(j, actual, deleteReply));
  }

  method RemoveJob(b: Batch, j: Job, reply: Reply) returns (actual: Option<Job>, ok: bool)
    requires b.Valid()
    modifies b`jobs, b`events
    ensures b.Valid() && b.events == old(b.events) + DeleteEvents(j, actual, ok)
    ensures (ok <==> actual.Some? && reply.Done?) && (actual.Some? <==> !reply.Refused? && j.name in old(b.jobs))
    ensures actual.Some? ==> actual.value == old(b.jobs)[j.name] && b.jobs == old(b.jobs) - {j.name}
    ensures actual.None? ==> b.jobs == old(b.jobs)
  {
    ghost var before := b.events;
    actual, ok := b.DeleteJob(j, reply);
    b.Notify(j, if ok then DeletedOk else DeleteError);
    Assoc(before, if actual.Some? then [Removed(j, actual.value)] else [],
          [Notified(j.name, j.service, if ok then DeletedOk else DeleteError)]);
  }

  method ReadLogs(b: Batch, j: Job, logs: Logs)
    modifies b`events
    ensures b.events == old(b.events) + ReadEvents(j, logs)
  {
    b.events := b.events + [LogsRead(j.service, logs)];
    if j.failed > 0 {
      b.Notify(j, JobFailed);
    }
  }

  method SaveLogs(b: Batch, j: Job, logs: Logs, reply: Reply) returns (saved: bool, ok: bool)
    requires WantsMap(j)
    modifies b`maps, b`events
    ensures (saved <==> !reply.Refused? && j.name !in old(b.maps)) && (ok <==> saved && reply.Done?)
    ensures b.events == old(b.events) + SaveEvents(j, logs, saved, ok)
    ensures saved ==> b.maps == old(b.maps)[j.name := logs]
    ensures !saved ==> b.maps == old(b.maps)
  {
    saved, ok := b.CreateConfigMap(j, logs, reply);
    b.Notify(j, if ok then SavedOk else CannotSave(logs));
  }

  lemma Assoc(a: seq<Event>, b: seq<Event>, c: seq<Event>)
    ensures (a + b) + c == a + (b + c)
  {
  }

  lemma FourParts(a: seq<Event>, b: seq<Event>, c: seq<Event>, d: seq<Event>)
    ensures ((a + b) + c) + d == a + ((b + c) + d)
  {
  }

  /** The managed jobs, in an arbitrary order. */
  method ListJobs(jobs: map<string, Job>) returns (list: seq<Job>)
    requires forall n :: n in jobs ==> jobs[n].name == n
    ensures forall i :: 0 <= i < |list| ==> list[i].name in jobs && jobs[list[i].name] == list[i] && list[i].managed
    ensures forall i, k :: 0 <= i < k < |list| ==> list[i].name != list[k].name
    ensures forall n :: n in jobs && jobs[n].managed ==> jobs[n] in list
  {
    list := [];
    var left := jobs.Keys;
    while left != {}
      invariant left <= jobs.Keys
      invariant forall i :: 0 <= i < |list| ==>
                  list[i].name in jobs.Keys - left && jobs[list[i].name] == list[i] && list[i].managed
      invariant forall i, k :: 0 <= i < k < |list| ==> list[i].name != list[k].name
      invariant forall n :: n in jobs.Keys - left && jobs[n].managed ==> jobs[n] in list
    {
      var n :| n in left;
      left := left - {n};
      if jobs[n].managed {
        list := list + [jobs[n]];
      }
    }
  }

  /** One pass: every managed job once, as it was listed. */
  method ProcessJobsResult(b: Batch, hasClient: bool, canList: bool) returns (ok: bool, ghost done: seq<(Job, Outcome)>)
    requires b.Valid()
    modifies b
    ensures b.Valid() && b.events == old(b.events) + AllEvents(done)
    ensures forall i :: 0 <= i < |done| ==> Fits(done[i].0, done[i].1)
    ensures ok <==> hasClient && canList
    ensures ok ==>
              && (forall i :: 0 <= i < |done| ==>
                  done[i].0.name in old(b.jobs) && old(b.jobs)[done[i].0.name] == done[i].0)
              && (forall i, k :: 0 <= i < k < |done| ==> done[i].0.name != done[k].0.name)
              && (forall n :: n in old(b.jobs) && old(b.jobs)[n].managed ==>
                  exists i :: 0 <= i < |done| && done[i].0 == old(b.jobs)[n])
    ensures !ok ==> done == []
  {
    ok, done := false, [];
    assert b.events + [] == b.events;
    if !hasClient || !canList {
      return;
    }
    var list := ListJobs(b.jobs);
    for i := 0 to |list|
      invariant b.Valid() && |done| == i && forall k :: 0 <= k < |list| ==> Known(b, list[k])
      invariant b.events == old(b.events) + AllEvents(done)
      invariant forall k :: 0 <= k < i ==> done[k].0 == list[k] && Fits(done[k].0, done[k].1)
    {
      ghost var o := ProcessJob(b, list[i], list);
      AllEventsSnoc(old(b.events), done, list[i], o);
      done := done + [(list[i], o)];
    }
    ok := true;
    forall n | n in old(b.jobs) && old(b.jobs)[n].managed
      ensures exists i :: 0 <= i < |done| && done[i].0 == old(b.jobs)[n]
    {
      var i :| 0 <= i < |list| && list[i] == old(b.jobs)[n];
      assert done[i].0 == old(b.jobs)[n];
    }
  }

  lemma AllEventsSnoc(before: seq<Event>, done: seq<(Job, Outcome)>, j: Job, o: Outcome)
    ensures (before + AllEvents(done)) + JobEvents(j, o) == before + AllEvents(done + [(j, o)])
  {
    assert (done + [(j, o)])[..|done|] == done;
    Assoc(before, AllEvents(done), JobEvents(j, o));
  }

  lemma {:induction false} AllEventsConcat(a: seq<(Job, Outcome)>, b: seq<(Job, Outcome)>)
    ensures AllEvents(a + b) == AllEvents(a) + AllEvents(b)
  {
    if b == [] {
      assert a + b == a;
    } else {
      assert (a + b)[..|a + b|-1] == a + b[..|b|-1];
      AllEventsConcat(a, b[..|b|-1]);
      Assoc(AllEvents(a), AllEvents(b[..|b|-1]), JobEvents(b[|b|-1].0, b[|b|-1].1));
    }
  }

  /**
   * Any number of passes, with any failures, beside whatever the others do: safe as the jobs were listed, and as they
   * are found if those that were not listed as active had finished.
   */
  method CollectResults(b: Batch, attempts: seq<(bool, bool)>) returns (ghost all: seq<(Job, Outcome)>)
    requires b.Valid() && b.events == []
    modifies b
    ensures b.events == AllEvents(all) && Safe(b.events, false)
    ensures (forall i :: 0 <= i < |all| ==> Sure(all[i].0)) ==> Safe(b.events, true)
  {
    all := [];
    for i := 0 to |attempts|
      invariant b.Valid() && b.events == AllEvents(all)
      invariant forall k :: 0 <= k < |all| ==> Fits(all[k].0, all[k].1)
    {
      var ok, done := ProcessJobsResult(b, attempts[i].0, attempts[i].1);
      AllEventsConcat(all, done);
      all := all + done;
    }
    PassesAreSafe(all, false);
    if forall i :: 0 <= i < |all| ==> Sure(all[i].0) {
      PassesAreSafe(all, true);
    }
  }
}
