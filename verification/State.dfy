/** Provisioning progress: the in-memory state service of state/state.go. */
module State {

  datatype Event = Event(ts: int, state: string, failed: bool)
  datatype Report = Report(guid: string, event: Event)

  /** The last event reported for an instance; the zero event when there is none. */
  function Last(log: seq<Report>, guid: string): (e: Event) {
    if log == [] then Event(0, "", false)
    else if log[|log|-1].guid == guid then log[|log|-1].event
    else Last(log[..|log|-1], guid)
  }

  predicate Reported(log: seq<Report>, guid: string) {
    exists i :: 0 <= i < |log| && log[i].guid == guid
  }

  /** Report `i` is the last of the instance. */
  predicate IsLast(log: seq<Report>, guid: string, i: int) {
    0 <= i < |log| && log[i].guid == guid && forall j :: i < j < |log| ==> log[j].guid != guid
  }

  lemma LastOfInit(log: seq<Report>, guid: string, i: int)
    requires IsLast(log, guid, i)
    ensures i < |log| - 1 ==> log[|log|-1].guid != guid && IsLast(log[..|log|-1], guid, i)
  {
    assert forall j :: 0 <= j < |log| - 1 ==> log[..|log|-1][j] == log[j];
  }

  lemma {:induction false} LastMeaning(log: seq<Report>, guid: string)
    ensures forall i :: IsLast(log, guid, i) ==> Last(log, guid) == log[i].event
    ensures (forall i :: 0 <= i < |log| ==> log[i].guid != guid) ==> Last(log, guid) == Event(0, "", false)
  {
    if log != [] {
      var init := log[..|log|-1];
      LastMeaning(init, guid);
      forall i | IsLast(log, guid, i) ensures Last(log, guid) == log[i].event {
        LastOfInit(log, guid, i);
      }
    }
  }

  class StateService {
    var records: map<string, Event>
    var now: int
    /** Every report since the start, in order. */
    ghost var log: seq<Report>

    /** The map holds exactly the last report of every instance. */
    ghost predicate Valid()
      reads this
    {
      && (forall g :: g in records <==> Reported(log, g))
      && (forall g :: g in records ==> records[g] == Last(log, g))
    }

    constructor (now: int)
      ensures Valid() && log == [] && this.now == now
    {
      records, this.now, log := map[], now, [];
    }

    method ReportProgress(guid: string, state: string, failed: bool)
      requires Valid()
      modifies this`records, this`log
      ensures Valid() && log == old(log) + [Report(guid, Event(now, state, failed))]
    {
      var e := Event(now, state, failed);
      records := records[guid := e];
      log := log + [Report(guid, e)];
      forall g ensures Reported(log, g) <==> g == guid || Reported(old(log), g) {
        ReportedSnoc(old(log), Report(guid, e), g);
      }
      assert log[..|log|-1] == old(log);
    }

    method HasProgressRecords(guid: string) returns (has: bool)
      requires Valid()
      ensures has <==> Reported(log, guid)
    {
      has := guid in records;
    }

    method ReadProgress(guid: string) returns (e: Event)
      requires Valid()
      ensures e == Last(log, guid)
      ensures forall i :: IsLast(log, guid, i) ==> e == log[i].event
      ensures (forall i :: 0 <= i < |log| ==> log[i].guid != guid) ==> e == Event(0, "", false)
    {
      LastMeaning(log, guid);
      if guid in records {
        e := records[guid];
      } else {
        e := Event(0, "", false);
        NeverReported(log, guid);
      }
    }
  }

  lemma ReportedSnoc(log: seq<Report>, r: Report, guid: string)
    ensures Reported(log + [r], guid) <==> r.guid == guid || Reported(log, guid)
  {
    var all := log + [r];
    if r.guid == guid {
      assert all[|log|].guid == guid;
    } else if Reported(log, guid) {
      var i :| 0 <= i < |log| && log[i].guid == guid;
      assert all[i].guid == guid;
    }
  }

  lemma {:induction false} NeverReported(log: seq<Report>, guid: string)
    requires !Reported(log, guid)
    ensures Last(log, guid) == Event(0, "", false)
  {
    if log != [] {
      var init := log[..|log|-1];
      assert log == init + [log[|log|-1]];
      ReportedSnoc(init, log[|log|-1], guid);
      NeverReported(init, guid);
    }
  }
}
