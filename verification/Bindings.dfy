/** Reading the environment of an instance back from the cluster: `GetAllPodsEnvsByServiceId`. */
module Bindings {
  import opened Decimal
  import opened Cluster
  import Envs

  /** `findSecretValue`: the value under the key in the first secret of the name that has it, or "". */
  function FindSecretValue(secrets: seq<Object>, name: string, key: string): string {
    if secrets == [] then ""
    else if secrets[0].name == name && key in secrets[0].data then secrets[0].data[key]
    else FindSecretValue(secrets[1..], name, key)
  }

  /** The value of one variable; an empty value without any source is a nil dereference. */
  function EnvValue(v: EnvVar, secrets: seq<Object>): Result<string> {
    if v.value == "" && v.from.NoSource? then Err("nil ValueFrom")
    else if v.value == "" && v.from.FromSecret? then Ok(FindSecretValue(secrets, v.from.secret, v.from.key))
    else Ok(v.value)
  }

  /** The variables of a container; of two with one name the later wins. */
  function ContainerEnvs(env: seq<EnvVar>, secrets: seq<Object>): Result<map<string, string>> {
    if env == [] then Ok(map[])
    else
      var m :- ContainerEnvs(env[..|env|-1], secrets);
      var v :- EnvValue(env[|env|-1], secrets);
      Ok(m[env[|env|-1].name := v])
  }

  function SimpleContainers(cs: seq<Container>, secrets: seq<Object>): Result<seq<Envs.ContainerEnv>> {
    if cs == [] then Ok([])
    else
      var init :- SimpleContainers(cs[..|cs|-1], secrets);
      var m :- ContainerEnvs(cs[|cs|-1].env, secrets);
      Ok(init + [Envs.ContainerEnv(cs[|cs|-1].name, m)])
  }

  function PodsOf(ws: seq<Object>, secrets: seq<Object>): Result<seq<Envs.PodEnvs>> {
    if ws == [] then Ok([])
    else
      var init :- PodsOf(ws[..|ws|-1], secrets);
      var cs :- SimpleContainers(ws[|ws|-1].containers, secrets);
      Ok(init + [Envs.PodEnvs(ws[|ws|-1].name, cs)])
  }

  // ---------------------------------------------------------------- what is read

  predicate HasKey(o: Object, name: string, key: string) {
    o.name == name && key in o.data
  }

  /** The value itself, or if it is empty what the first secret of the name that has the key holds, or nothing. */
  predicate ValueOf(v: EnvVar, secrets: seq<Object>, x: string) {
    && (v.value != "" ==> x == v.value)
    && (v.value == "" && !v.from.FromSecret? ==> x == "")
    && (v.value == "" && v.from.FromSecret? ==>
          && (forall k :: 0 <= k < |secrets| && HasKey(secrets[k], v.from.secret, v.from.key) &&
                          (forall j :: 0 <= j < k ==> !HasKey(secrets[j], v.from.secret, v.from.key)) ==>
                            x == secrets[k].data[v.from.key])
          && ((forall k :: 0 <= k < |secrets| ==> !HasKey(secrets[k], v.from.secret, v.from.key)) ==> x == ""))
  }

  /** Variable `i` is the last of its name. */
  predicate LastNamed(env: seq<EnvVar>, i: int) {
    0 <= i < |env| && forall j :: i < j < |env| ==> env[j].name != env[i].name
  }

  /** The names of the variables, each with the value of the last that has it. */
  ghost predicate Reads(env: seq<EnvVar>, secrets: seq<Object>, m: map<string, string>) {
    && (forall n :: n in m <==> exists i :: 0 <= i < |env| && env[i].name == n)
    && (forall i :: LastNamed(env, i) ==> env[i].name in m && ValueOf(env[i], secrets, m[env[i].name]))
  }

  /** Pod by pod and container by container. */
  ghost predicate ReadsPods(ws: seq<Object>, secrets: seq<Object>, pods: seq<Envs.PodEnvs>) {
    && |pods| == |ws|
    && forall i :: 0 <= i < |ws| ==>
         pods[i].deploymentName == ws[i].name && ReadsContainers(ws[i].containers, secrets, pods[i].containers)
  }

  ghost predicate ReadsContainers(cs: seq<Container>, secrets: seq<Object>, simple: seq<Envs.ContainerEnv>) {
    && |simple| == |cs|
    && forall j :: 0 <= j < |cs| ==> simple[j].name == cs[j].name && Reads(cs[j].env, secrets, simple[j].envs)
  }

  lemma {:induction false} SecretMeaning(secrets: seq<Object>, name: string, key: string)
    ensures forall k :: 0 <= k < |secrets| && HasKey(secrets[k], name, key) &&
                        (forall j :: 0 <= j < k ==> !HasKey(secrets[j], name, key)) ==>
                          FindSecretValue(secrets, name, key) == secrets[k].data[key]
    ensures (forall k :: 0 <= k < |secrets| ==> !HasKey(secrets[k], name, key)) ==>
              FindSecretValue(secrets, name, key) == ""
  {
    if secrets != [] && !HasKey(secrets[0], name, key) {
      var rest := secrets[1..];
      SecretMeaning(rest, name, key);
      assert forall k :: 0 < k < |secrets| ==> secrets[k] == rest[k-1];
      assert forall k :: 0 <= k < |rest| ==> rest[k] == secrets[k+1];
    }
  }

  lemma ValueMeaning(v: EnvVar, secrets: seq<Object>)
    ensures EnvValue(v, secrets).Err? <==> v.value == "" && v.from.NoSource?
    ensures EnvValue(v, secrets).Ok? ==> ValueOf(v, secrets, EnvValue(v, secrets).value)
  {
    if v.from.FromSecret? {
      SecretMeaning(secrets, v.from.secret, v.from.key);
    }
  }

  lemma {:induction false} ContainerMeaning(env: seq<EnvVar>, secrets: seq<Object>)
    ensures ContainerEnvs(env, secrets).Err? <==>
            exists i :: 0 <= i < |env| && env[i].value == "" && env[i].from.NoSource?
    ensures ContainerEnvs(env, secrets).Ok? ==> Reads(env, secrets, ContainerEnvs(env, secrets).value)
  {
    if env != [] {
      var init, v := env[..|env|-1], env[|env|-1];
      ContainerMeaning(init, secrets);
      ValueMeaning(v, secrets);
      assert env == init + [v];
      if ContainerEnvs(env, secrets).Ok? {
        ReadsOneMore(init, v, secrets, ContainerEnvs(init, secrets).value, EnvValue(v, secrets).value);
      }
    }
  }

  lemma ReadsOneMore(init: seq<EnvVar>, v: EnvVar, secrets: seq<Object>, m: map<string, string>, x: string)
    requires Reads(init, secrets, m) && ValueOf(v, secrets, x)
    ensures Reads(init + [v], secrets, m[v.name := x])
  {
    var env, r := init + [v], m[v.name := x];
    forall i | LastNamed(env, i) ensures env[i].name in r && ValueOf(env[i], secrets, r[env[i].name]) {
      LastOfMore(init, v, i);
    }
    forall n ensures n in r <==> exists i :: 0 <= i < |env| && env[i].name == n {
      NamesOfMore(init, v, n);
    }
  }

  lemma LastOfMore(init: seq<EnvVar>, v: EnvVar, i: int)
    requires LastNamed(init + [v], i)
    ensures i < |init| ==> LastNamed(init, i) && (init + [v])[i] == init[i] && init[i].name != v.name
    ensures i >= |init| ==> (init + [v])[i] == v
  {
    var env := init + [v];
    assert env[|init|] == v && forall j :: 0 <= j < |init| ==> env[j] == init[j];
  }

  lemma NamesOfMore(init: seq<EnvVar>, v: EnvVar, n: string)
    ensures (exists i :: 0 <= i < |init + [v]| && (init + [v])[i].name == n) <==>
            n == v.name || exists i :: 0 <= i < |init| && init[i].name == n
  {
    var env := init + [v];
    assert env[|init|] == v && forall j :: 0 <= j < |init| ==> env[j] == init[j];
  }

  lemma {:induction false} ContainersMeaning(cs: seq<Container>, secrets: seq<Object>)
    requires SimpleContainers(cs, secrets).Ok?
    ensures ReadsContainers(cs, secrets, SimpleContainers(cs, secrets).value)
  {
    if cs != [] {
      var init, c := cs[..|cs|-1], cs[|cs|-1];
      LastContainer(cs, secrets);
      ContainersMeaning(init, secrets);
      ContainerMeaning(c.env, secrets);
      OneMoreContainer(init, c, secrets, SimpleContainers(init, secrets).value, ContainerEnvs(c.env, secrets).value);
      assert cs == init + [c];
    }
  }

  lemma LastContainer(cs: seq<Container>, secrets: seq<Object>)
    requires cs != [] && SimpleContainers(cs, secrets).Ok?
    ensures var init, c := SimpleContainers(cs[..|cs|-1], secrets), cs[|cs|-1];
            && init.Ok? && ContainerEnvs(c.env, secrets).Ok?
            && SimpleContainers(cs, secrets).value ==
               init.value + [Envs.ContainerEnv(c.name, ContainerEnvs(c.env, secrets).value)]
  {
  }

  lemma OneMoreContainer(init: seq<Container>, c: Container, secrets: seq<Object>, simple: seq<Envs.ContainerEnv>,
                         m: map<string, string>)
    requires ReadsContainers(init, secrets, simple) && Reads(c.env, secrets, m)
    ensures ReadsContainers(init + [c], secrets, simple + [Envs.ContainerEnv(c.name, m)])
  {
  }

  lemma {:induction false} PodsMeaning(ws: seq<Object>, secrets: seq<Object>)
    requires PodsOf(ws, secrets).Ok?
    ensures ReadsPods(ws, secrets, PodsOf(ws, secrets).value)
  {
    if ws != [] {
      PodsMeaning(ws[..|ws|-1], secrets);
      ContainersMeaning(ws[|ws|-1].containers, secrets);
    }
  }

  method ReadContainer(c: Container, secrets: seq<Object>) returns (r: Result<Envs.ContainerEnv>)
    ensures ContainerEnvs(c.env, secrets).Err? ==> r.Err?
    ensures ContainerEnvs(c.env, secrets).Ok? ==>
              r == Ok(Envs.ContainerEnv(c.name, ContainerEnvs(c.env, secrets).value))
    ensures r.Ok? ==> r.value.name == c.name && Reads(c.env, secrets, r.value.envs)
    ensures r.Err? <==> exists i :: 0 <= i < |c.env| && c.env[i].value == "" && c.env[i].from.NoSource?
  {
    var envs: map<string, string> := map[];
    for i := 0 to |c.env|
      invariant ContainerEnvs(c.env[..i], secrets) == Ok(envs)
    {
      var v := c.env[i];
      assert c.env[..i+1][..i] == c.env[..i];
      if v.value == "" && v.from.NoSource? {
        ContainerStops(c.env, i + 1, secrets);
        ContainerMeaning(c.env, secrets);
        return Err("nil ValueFrom");
      }
      if v.value == "" && v.from.FromSecret? {
        envs := envs[v.name := FindSecretValue(secrets, v.from.secret, v.from.key)];
      } else {
        envs := envs[v.name := v.value];
      }
    }
    assert c.env[..|c.env|] == c.env;
    ContainerMeaning(c.env, secrets);
    return Ok(Envs.ContainerEnv(c.name, envs));
  }

  lemma {:induction false} ContainerStops(env: seq<EnvVar>, i: nat, secrets: seq<Object>)
    requires i <= |env| && ContainerEnvs(env[..i], secrets).Err?
    ensures ContainerEnvs(env, secrets).Err?
    decreases |env|
  {
    if i == |env| {
      assert env[..i] == env;
    } else {
      assert env[..|env|-1][..i] == env[..i];
      ContainerStops(env[..|env|-1], i, secrets);
    }
  }

  method ReadPods(ws: seq<Object>, secrets: seq<Object>) returns (r: Result<seq<Envs.PodEnvs>>)
    ensures PodsOf(ws, secrets).Ok? ==> r == PodsOf(ws, secrets)
    ensures PodsOf(ws, secrets).Err? ==> r.Err?
  {
    var pods: seq<Envs.PodEnvs> := [];
    for i := 0 to |ws|
      invariant PodsOf(ws[..i], secrets) == Ok(pods)
    {
      var cs := ws[i].containers;
      var simple: seq<Envs.ContainerEnv> := [];
      assert ws[..i+1][..i] == ws[..i];
      for j := 0 to |cs|
        invariant SimpleContainers(cs[..j], secrets) == Ok(simple)
      {
        var c := ReadContainer(cs[j], secrets);
        assert cs[..j+1][..j] == cs[..j];
        if c.Err? {
          ContainersStop(cs, j + 1, secrets);
          PodsStop(ws, i + 1, secrets);
          return Err("nil ValueFrom");
        }
        simple := simple + [c.value];
      }
      assert cs[..|cs|] == cs;
      pods := pods + [Envs.PodEnvs(ws[i].name, simple)];
    }
    assert ws[..|ws|] == ws;
    return Ok(pods);
  }

  lemma {:induction false} ContainersStop(cs: seq<Container>, j: nat, secrets: seq<Object>)
    requires j <= |cs| && SimpleContainers(cs[..j], secrets).Err?
    ensures SimpleContainers(cs, secrets).Err?
    decreases |cs|
  {
    if j == |cs| {
      assert cs[..j] == cs;
    } else {
      assert cs[..|cs|-1][..j] == cs[..j];
      ContainersStop(cs[..|cs|-1], j, secrets);
    }
  }

  lemma {:induction false} PodsStop(ws: seq<Object>, i: nat, secrets: seq<Object>)
    requires i <= |ws| && PodsOf(ws[..i], secrets).Err?
    ensures PodsOf(ws, secrets).Err?
    decreases |ws|
  {
    if i == |ws| {
      assert ws[..i] == ws;
    } else {
      assert ws[..|ws|-1][..i] == ws[..i];
      PodsStop(ws[..|ws|-1], i, secrets);
    }
  }

  /** Deployments first, then stateful sets; an instance without either is an error. */
  method GetAllPodsEnvsByServiceId(api: Api, hasClient: bool, id: string)
    returns (r: Result<seq<Envs.PodEnvs>>, ghost workloads: seq<Object>, ghost secrets: seq<Object>)
    requires api.Valid()
    modifies api`script
    ensures r.Ok? ==> workloads != [] && r == PodsOf(workloads, secrets) && ReadsPods(workloads, secrets, r.value)
    ensures workloads != [] ==>
              && (r.Ok? <==> PodsOf(workloads, secrets).Ok?)
              && Lists(secrets, api.objects, Cluster.Secret, SERVICE_ID_LABEL, id)
              && exists n :: 0 <= n <= |workloads| &&
                             Lists(workloads[..n], api.objects, Deployment, SERVICE_ID_LABEL, id) &&
                             Lists(workloads[n..], api.objects, StatefulSet, SERVICE_ID_LABEL, id)
    ensures AllDone(old(api.script)) && hasClient ==>
              forall k ::
                && k in api.objects && k.0 in {Deployment, StatefulSet}
                && api.objects[k].Labelled(SERVICE_ID_LABEL, id) ==>
                  api.objects[k] in workloads
  {
    r, workloads, secrets := Err("List"), [], [];
    if !hasClient {
      return;
    }
    var deployments := api.List(Deployment, SERVICE_ID_LABEL, id);
    if deployments.None? {
      return;
    }
    var sets := api.List(StatefulSet, SERVICE_ID_LABEL, id);
    if sets.None? || (deployments.value == [] && sets.value == []) {
      return;
    }
    var found := api.List(Cluster.Secret, SERVICE_ID_LABEL, id);
    if found.None? {
      return;
    }
    workloads, secrets := deployments.value + sets.value, found.value;
    assert workloads[..|deployments.value|] == deployments.value && workloads[|deployments.value|..] == sets.value;
    var first := ReadPods(deployments.value, found.value);
    if first.Err? {
      PodsStop(workloads, |deployments.value|, found.value);
      return;
    }
    var second := ReadPods(sets.value, found.value);
    if second.Err? {
      PodsStopLater(deployments.value, sets.value, found.value);
      return;
    }
    PodsConcat(deployments.value, sets.value, found.value);
    PodsMeaning(workloads, secrets);
    r := Ok(first.value + second.value);
  }

  lemma {:induction false} PodsStopLater(a: seq<Object>, b: seq<Object>, secrets: seq<Object>)
    requires PodsOf(b, secrets).Err?
    ensures PodsOf(a + b, secrets).Err?
  {
    assert b != [];
    var init, last := b[..|b|-1], b[|b|-1];
    assert (a + b)[..|a + b|-1] == a + init && (a + b)[|a + b|-1] == last;
    if PodsOf(init, secrets).Err? {
      PodsStopLater(a, init, secrets);
    }
  }

  lemma {:induction false} PodsConcat(a: seq<Object>, b: seq<Object>, secrets: seq<Object>)
    requires PodsOf(a, secrets).Ok? && PodsOf(b, secrets).Ok?
    ensures PodsOf(a + b, secrets) == Ok(PodsOf(a, secrets).value + PodsOf(b, secrets).value)
  {
    var x := PodsOf(a, secrets).value;
    if b == [] {
      assert a + b == a && x + [] == x;
    } else {
      var init, last := b[..|b|-1], b[|b|-1];
      assert (a + b)[..|a + b|-1] == a + init && (a + b)[|a + b|-1] == last;
      PodsConcat(a, init, secrets);
      var y := PodsOf(init, secrets).value;
      var p := [Envs.PodEnvs(last.name, SimpleContainers(last.containers, secrets).value)];
      assert (x + y) + p == x + (y + p);
    }
  }
}
