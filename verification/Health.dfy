/** The health check behind polling: `CheckKubernetesServiceHealthByServiceInstanceId` of k8s/k8sfabricator.go. */
module Health {
  import opened Decimal
  import opened Text

  datatype Set = Set(want: int, have: int)
  datatype Status = Status(name: string, ready: bool)
  datatype Pod = Pod(statuses: seq<Status>)

  datatype Result = Healthy | ReplicasMissing(want: int, have: int) | NotReady(message: string) | CallFailed

  /** The names of the containers that are not ready, pod by pod. */
  function Pending(pods: seq<Pod>): seq<string> {
    if pods == [] then []
    else
      var last := pods[|pods|-1].statuses;
      Pending(pods[..|pods|-1]) + PendingIn(last, |last|)
  }

  function PendingIn(statuses: seq<Status>, n: nat): seq<string>
    requires n <= |statuses|
  {
    if n == 0 then []
    else PendingIn(statuses, n - 1) + (if statuses[n-1].ready then [] else [statuses[n-1].name])
  }

  predicate AllReady(pods: seq<Pod>) {
    forall i, j :: 0 <= i < |pods| && 0 <= j < |pods[i].statuses| ==> pods[i].statuses[j].ready
  }

  /** Set `i` is the first that misses replicas. */
  predicate FirstDown(sets: seq<Set>, i: int) {
    0 <= i < |sets| && sets[i].want != sets[i].have && forall j :: 0 <= j < i ==> sets[j].want == sets[j].have
  }

  /** The pods in order, of each the containers in order, and of these the names of those that are not ready. */
  lemma PendingMeaning(a: seq<Pod>, b: seq<Pod>, x: seq<Status>, y: seq<Status>, s: Status)
    ensures Pending([]) == [] && Pending([Pod([])]) == []
    ensures Pending(a + b) == Pending(a) + Pending(b)
    ensures Pending([Pod(x + y)]) == Pending([Pod(x)]) + Pending([Pod(y)])
    ensures Pending([Pod([s])]) == if s.ready then [] else [s.name]
  {
    PendingConcat(a, b);
    PendingInConcat(x, y, |y|);
    PendingOfOne(x);
    PendingOfOne(y);
    PendingOfOne(x + y);
    PendingOfOne([s]);
    assert PendingIn([s], 1) == PendingIn([s], 0) + (if s.ready then [] else [s.name]);
    PendingOfOne([]);
  }

  lemma PendingOfOne(x: seq<Status>)
    ensures Pending([Pod(x)]) == PendingIn(x, |x|)
  {
    var pods := [Pod(x)];
    assert pods[..0] == [] && pods[0].statuses == x;
    assert Pending(pods) == Pending(pods[..0]) + PendingIn(x, |x|);
  }

  lemma {:induction false} PendingConcat(a: seq<Pod>, b: seq<Pod>)
    ensures Pending(a + b) == Pending(a) + Pending(b)
  {
    if b == [] {
      assert a + b == a;
    } else {
      var init, last := b[..|b|-1], b[|b|-1];
      assert (a + b)[..|a + b|-1] == a + init;
      PendingConcat(a, init);
    }
  }

  lemma {:induction false} PendingInConcat(x: seq<Status>, y: seq<Status>, n: nat)
    requires n <= |y|
    ensures PendingIn(x + y, |x| + n) == PendingIn(x, |x|) + PendingIn(y, n)
  {
    if n > 0 {
      PendingInConcat(x, y, n - 1);
    } else {
      PendingInPrefix(x, y, |x|);
    }
  }

  lemma {:induction false} PendingInPrefix(x: seq<Status>, y: seq<Status>, n: nat)
    requires n <= |x|
    ensures PendingIn(x + y, n) == PendingIn(x, n)
  {
    if n > 0 {
      PendingInPrefix(x, y, n - 1);
    }
  }

  lemma {:induction false} NonePendingIn(statuses: seq<Status>, n: nat)
    requires n <= |statuses|
    ensures PendingIn(statuses, n) == [] <==> forall j :: 0 <= j < n ==> statuses[j].ready
  {
    if n > 0 {
      NonePendingIn(statuses, n - 1);
    }
  }

  lemma {:induction false} NonePending(pods: seq<Pod>)
    ensures Pending(pods) == [] <==> AllReady(pods)
  {
    if pods != [] {
      var init, last := pods[..|pods|-1], pods[|pods|-1];
      NonePending(init);
      NonePendingIn(last.statuses, |last.statuses|);
      assert forall i :: 0 <= i < |init| ==> init[i] == pods[i];
    }
  }

  /**
   * Healthy exactly when the calls succeed, every stateful set has its replicas and every container is ready: so an
   * instance without pods is healthy. Whatever is not healthy is an error.
   */
  method Check(hasClient: bool, sets: Option<seq<Set>>, pods: Option<seq<Pod>>) returns (r: Result)
    ensures r.Healthy? <==>
              && hasClient && sets.Some?
              && (forall i :: 0 <= i < |sets.value| ==> sets.value[i].want == sets.value[i].have)
              && pods.Some? && forall i, j :: 0 <= i < |pods.value| && 0 <= j < |pods.value[i].statuses| ==>
                                 pods.value[i].statuses[j].ready
    ensures r.ReplicasMissing? <==> hasClient && sets.Some? && exists i :: FirstDown(sets.value, i)
    ensures r.ReplicasMissing? ==>
              exists i :: FirstDown(sets.value, i) && r.want == sets.value[i].want && r.have == sets.value[i].have
    ensures r.NotReady? <==> !r.Healthy? && !r.ReplicasMissing? && hasClient && sets.Some? && pods.Some?
    ensures r.NotReady? ==> r.message == "Pod(s) not ready: " + Join(Pending(pods.value), ", ")
  {
    if !hasClient || sets.None? {
      return CallFailed;
    }
    for i := 0 to |sets.value|
      invariant forall j :: 0 <= j < i ==> sets.value[j].want == sets.value[j].have
    {
      if sets.value[i].want != sets.value[i].have {
        assert FirstDown(sets.value, i);
        return ReplicasMissing(sets.value[i].want, sets.value[i].have);
      }
    }
    if pods.None? {
      return CallFailed;
    }
    var all := pods.value;
    var pending: seq<string> := [];
    for i := 0 to |all|
      invariant pending == Pending(all[..i])
    {
      ghost var sofar := pending;
      var statuses := all[i].statuses;
      for j := 0 to |statuses|
        invariant pending == sofar + PendingIn(statuses, j)
      {
        if !statuses[j].ready {
          pending := pending + [statuses[j].name];
        }
      }
      assert all[..i+1][..i] == all[..i];
    }
    assert all[..|all|] == all;
    NonePending(all);
    if |pending| > 0 {
      return NotReady("Pod(s) not ready: " + Join(pending, ", "));
    }
    return Healthy;
  }
}
