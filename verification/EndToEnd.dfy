/**
 * The path of a generated credential: drawn when an instance is provisioned, written into a secret, handed to a
 * container by reference, read back and put into the credentials of a binding.
 */
module EndToEnd {
  import opened Text
  import opened Decimal
  import opened Scan
  import opened Stages
  import opened Embedding
  import opened Base64
  import opened Blueprint
  import opened Markers
  import opened SecretTemplates
  import opened Cluster
  import opened Envs
  import Ports
  import State
  import Fabricator
  import Bindings
  import Credentials
  import ClusterTemplates

  // ---------------------------------------------------------------- from the template to the secret

  /** The data section of a secret as JSON gives it: of two lines with one key the later wins. */
  function DataStrings(ls: seq<Line>): map<string, string> {
    if ls == [] then map[]
    else
      var m, l := DataStrings(ls[..|ls|-1]), ls[|ls|-1];
      if l.Other? then m else m[l.key := l.value]
  }

  /** Reading the data of a secret: its values are byte strings, which JSON holds in base64. */
  function DecodeData(strings: map<string, string>): Option<map<string, string>> {
    if forall k :: k in strings ==> Decode(strings[k]).Some?
    then Some(map k | k in strings :: Decode(strings[k]).value)
    else None
  }

  /** What the data lines mean: a marked value itself, a bare one what it is the code of. */
  function Meant(ls: seq<Line>): map<string, Option<string>> {
    if ls == [] then map[]
    else
      var m, l := Meant(ls[..|ls|-1]), ls[|ls|-1];
      if l.Other? then m else m[l.key := if l.Datum? then Some(l.value) else Decode(l.value)]
  }

  predicate ByteValues(ls: seq<Line>) {
    forall i :: 0 <= i < |ls| && ls[i].Datum? ==> IsBytes(ls[i].value)
  }

  /** The code of each data value is that of its own key. */
  lemma {:induction false} CodedStrings(ls: seq<Line>)
    requires ByteValues(ls)
    ensures DataStrings(Code(ls)).Keys == Meant(ls).Keys
    ensures forall k :: k in Meant(ls) ==> Decode(DataStrings(Code(ls))[k]) == Meant(ls)[k]
  {
    if ls != [] {
      var init, l := ls[..|ls|-1], ls[|ls|-1];
      CodeInit(ls);
      CodedStrings(init);
      if l.Datum? {
        DecodeOfEncode(l.value);
      }
    }
  }

  lemma {:induction false} CodeInit(ls: seq<Line>)
    requires ls != []
    ensures Code(ls)[..|ls|-1] == Code(ls[..|ls|-1]) && Code(ls)[|ls|-1] == CodeLine(ls[|ls|-1])
  {
    if |ls| > 1 {
      CodeInit(ls[1..]);
      assert ls[1..][..|ls|-2] == ls[..|ls|-1][1..];
    }
  }

  /** The cluster reads the coded text exactly when the bare values are codes, and then it reads what was meant. */
  lemma DataDecodes(ls: seq<Line>)
    requires ByteValues(ls)
    ensures var d := DecodeData(DataStrings(Code(ls)));
            && (d.Some? <==> forall k :: k in Meant(ls) ==> Meant(ls)[k].Some?)
            && (d.Some? ==>
                  d.value.Keys == Meant(ls).Keys && forall k :: k in Meant(ls) ==> Meant(ls)[k] == Some(d.value[k]))
  {
    CodedStrings(ls);
  }

  lemma {:induction false} FillAt(ls: seq<Line>, val: map<string, string>, i: nat)
    requires i < |ls|
    ensures Fill(ls, val)[i] == FillLine(ls[i], val)
  {
    if i > 0 {
      FillAt(ls[1..], val, i - 1);
    }
  }

  /** No later line has the key of this data line. */
  predicate LastOfKey(ls: seq<Line>, i: nat) {
    i < |ls| && ls[i].Datum? && forall j :: i < j < |ls| && !ls[j].Other? ==> ls[j].key != ls[i].key
  }

  lemma {:induction false} DataAt(ls: seq<Line>, i: nat)
    requires LastOfKey(ls, i)
    ensures ls[i].key in Meant(ls) && Meant(ls)[ls[i].key] == Some(ls[i].value)
  {
    if i < |ls| - 1 {
      var init := ls[..|ls|-1];
      DataAt(init, i);
    }
  }

  /** What the bare values are the codes of holds no `$`. */
  predicate PlainBare(ls: seq<Line>) {
    forall i :: 0 <= i < |ls| && ls[i].Bare? && Decode(ls[i].value).Some? ==> NoDollar(Decode(ls[i].value).value)
  }

  lemma {:induction false} MeantPlain(ls: seq<Line>)
    requires PlainLines(ls) && PlainBare(ls)
    ensures forall k :: k in Meant(ls) && Meant(ls)[k].Some? ==> NoDollar(Meant(ls)[k].value)
  {
    if ls != [] {
      var l := ls[|ls|-1];
      assert l in ls && PlainLine(l);
      assert forall x :: x in ls[..|ls|-1] ==> x in ls;
      MeantPlain(ls[..|ls|-1]);
    }
  }

  lemma {:induction false} FirstOfKeys(keys: seq<string>, i: nat)
    requires PrefixFree(keys) && i < |keys| && |keys[i]| > 0
    ensures FirstKey(keys, keys[i]) == |keys[i]|
  {
    if i > 0 {
      assert !(keys[0] <= keys[i]);
      assert forall j :: 0 <= j < |keys| - 1 ==> keys[1..][j] == keys[j+1];
      FirstOfKeys(keys[1..], i - 1);
    }
  }

  lemma ExpandWhole(pat: Pattern, t: string, val: map<string, string>)
    requires t != "" && MatchLen(pat, t) == |t|
    ensures Expand(pat, t, val) == Lookup(val, t)
  {
    assert t[..|t|] == t && t[|t|..] == "";
    assert Lookup(val, t) + "" == Lookup(val, t);
  }

  lemma RandomMatches(k: nat)
    requires k < 9
    ensures RandomKey(k) != "" && MatchLen(PARAMS, RandomKey(k)) == |RandomKey(k)|
  {
    KeysArePrefixFree();
    RandomAmong(KEYS, FIXED_KEYS, 9, k);
    assert KEYS[8+k] in KEYS;
    OwnMatch(KEYS, 8 + k);
  }

  lemma RandomAmong(keys: seq<string>, fixed: seq<string>, n: nat, k: nat)
    requires keys == fixed + RandomKeys(n) && k < n
    ensures |keys| == |fixed| + n && keys[|fixed|+k] == RandomKey(k)
  {
  }

  lemma OwnMatch(keys: seq<string>, i: nat)
    requires i < |keys| && keys[i] != "" && PrefixFree(keys)
    ensures MatchLen(OneOf(keys), keys[i]) == |keys[i]|
  {
    FirstOfKeys(keys, i);
  }

  /** A value that is one random key becomes the string drawn for it. */
  lemma RandomExpands(p: Params, k: nat)
    requires Drawn(p) && |p.serviceId| >= 15 && k < 9
    ensures Expand(PARAMS, RandomKey(k), RequestValues(p)) == p.randoms[k]
  {
    RandomMatches(k);
    RandomValue(p, k);
    ExpandWhole(PARAMS, RandomKey(k), RequestValues(p));
  }

  /** The template and the request meet the conditions under which `adjust_params` is a plain expansion. */
  ghost predicate WellFormed(ls: seq<Line>, p: Params) {
    && Drawn(p) && PlainParams(p) && |p.serviceId| >= 15
    && (forall l :: l in ls ==> PlainFrame(l))
    && Separated(PARAMS, Render(ls, MARK))
    && var filled := Fill(ls, RequestValues(p));
       && PlainLines(filled) && ShorterLast(MarkTokens(filled))
       && OneLines(filled) && ByteValues(filled) && PlainBare(filled)
  }

  /**
   * The object was read from the text: its data are those of some lines that give this text and have the frames of the
   * template. Nothing is said of how the text came about.
   */
  ghost predicate ReadFrom(o: Object, text: string, ls: seq<Line>) {
    exists rs: seq<Line> ::
      SameFrames(rs, ls) && OneLines(rs) && Render(rs, "") == text && DecodeData(DataStrings(rs)) == Some(o.data)
  }

  /** What is read from the adjusted template are the filled-in and coded lines. */
  lemma ReadsCoded(o: Object, text: string, ls: seq<Line>, p: Params)
    requires WellFormed(ls, p) && Adjusted(Render(ls, MARK), p) == Some(text) && ReadFrom(o, text, ls)
    ensures DecodeData(DataStrings(Code(Fill(ls, RequestValues(p))))) == Some(o.data)
  {
    var coded := Code(Fill(ls, RequestValues(p)));
    SecretMeaning(ls, p);
    FillFrames(ls, RequestValues(p));
    CodeOneLines(Fill(ls, RequestValues(p)));
    var rs: seq<Line> :|
      SameFrames(rs, ls) && OneLines(rs) && Render(rs, "") == text && DecodeData(DataStrings(rs)) == Some(o.data);
    FramesMeet(rs, coded, ls);
    RenderInjective(rs, coded);
  }

  lemma FramesMeet(a: seq<Line>, b: seq<Line>, c: seq<Line>)
    requires SameFrames(a, c) && SameFrames(b, c)
    ensures SameFrames(a, b)
  {
    forall i | 0 <= i < |a| ensures SameFrame(a[i], b[i]) {
      assert SameFrame(a[i], c[i]) && SameFrame(b[i], c[i]);
    }
  }

  /**
   * The secret that is read from the adjusted template holds, in plain text, the string drawn for the random key of the
   * data line, and no value of it holds a `$`.
   */
  lemma SecretHoldsRandom(o: Object, text: string, ls: seq<Line>, p: Params, i: nat, k: nat)
    requires WellFormed(ls, p) && Adjusted(Render(ls, MARK), p) == Some(text) && ReadFrom(o, text, ls)
    requires LastOfKey(ls, i) && k < 9 && ls[i].value == RandomKey(k)
    ensures ls[i].key in o.data && o.data[ls[i].key] == p.randoms[k]
    ensures forall x :: x in o.data ==> NoDollar(o.data[x])
  {
    var val := RequestValues(p);
    var filled := Fill(ls, val);
    ReadsCoded(o, text, ls, p);
    DataDecodes(filled);
    MeantPlain(filled);
    FilledLast(ls, val, i);
    DataAt(filled, i);
    RandomExpands(p, k);
  }

  lemma FilledLast(ls: seq<Line>, val: map<string, string>, i: nat)
    requires LastOfKey(ls, i)
    ensures var filled := Fill(ls, val);
            LastOfKey(filled, i) && filled[i].key == ls[i].key && filled[i].value == Expand(PARAMS, ls[i].value, val)
  {
    forall j | i <= j < |ls| ensures Fill(ls, val)[j] == FillLine(ls[j], val) {
      FillAt(ls, val, j);
    }
  }

  // ---------------------------------------------------------------- from the secret to the environment

  /** The objects of an instance are exactly `os`, whatever else the cluster holds. */
  ghost predicate Holds(objects: Objects, id: string, os: seq<Object>) {
    && (forall o :: o in os ==> o.Key() in objects && objects[o.Key()] == o && o.Labelled(SERVICE_ID_LABEL, id))
    && (forall k :: k in objects && objects[k].Labelled(SERVICE_ID_LABEL, id) ==> objects[k] in os)
  }

  lemma {:induction false} AddedObjects(before: Objects, os: seq<Object>)
    requires Fabricator.Added(before, AddAll(before, os), os)
    ensures forall o :: o in os ==> o.Key() in AddAll(before, os) && AddAll(before, os)[o.Key()] == o
    ensures forall k :: k in AddAll(before, os) ==>
              AddAll(before, os)[k] in os || (k in before && AddAll(before, os)[k] == before[k])
  {
    if os != [] {
      var init, last := os[..|os|-1], os[|os|-1];
      assert os == init + [last];
      AddedObjects(before, init);
      forall o | o in init ensures o.Key() != last.Key() {
        var i :| 0 <= i < |init| && init[i] == o;
        assert os[i].Key() != os[|os|-1].Key();
      }
    }
  }

  /** After a successful creation the instance holds what its component lists. */
  lemma CreationHolds(before: Objects, after: Objects, os: seq<Object>, id: string)
    requires Fabricator.NoneOwned(before, id) && Fabricator.AllOwned(os, id) && Fabricator.Added(before, after, os)
    ensures Holds(after, id, os)
  {
    AddedObjects(before, os);
  }

  /** The reference to a listed secret is resolved to its value. */
  lemma {:induction false} SecretFound(secrets: seq<Object>, o: Object, key: string)
    requires o in secrets && key in o.data
    requires forall i, j :: 0 <= i < j < |secrets| ==> secrets[i].name != secrets[j].name
    ensures Bindings.FindSecretValue(secrets, o.name, key) == o.data[key]
  {
    if secrets[0] != o {
      var i :| 0 <= i < |secrets| && secrets[i] == o;
      assert secrets[1..][i-1] == o;
      assert forall i, j :: 0 <= i < j < |secrets| - 1 ==> secrets[1..][i].name != secrets[1..][j].name;
      SecretFound(secrets[1..], o, key);
    }
  }

  /** Each variable of the name is a reference to one key of one secret. */
  predicate Refers(env: seq<EnvVar>, name: string, secret: string, key: string) {
    forall v :: v in env && v.name == name ==> v.value == "" && v.from == FromSecret(secret, key)
  }

  predicate Defines(env: seq<EnvVar>, name: string) {
    exists i :: 0 <= i < |env| && env[i].name == name
  }

  /** A map gives a name this value, if any. */
  predicate Gives(m: map<string, string>, name: string, x: string) {
    name in m ==> m[name] == x
  }

  predicate PlainVars(env: seq<EnvVar>) {
    forall v :: v in env ==> NoDollar(v.value)
  }

  predicate PlainSecrets(secrets: seq<Object>) {
    forall o :: o in secrets ==> forall k :: k in o.data ==> NoDollar(o.data[k])
  }

  lemma {:induction false} FoundIsPlain(secrets: seq<Object>, name: string, key: string)
    requires PlainSecrets(secrets)
    ensures NoDollar(Bindings.FindSecretValue(secrets, name, key))
  {
    if secrets != [] {
      FoundIsPlain(secrets[1..], name, key);
      assert secrets[0] in secrets;
    }
  }

  lemma {:induction false} ContainerReads(env: seq<EnvVar>, secrets: seq<Object>, name: string, secret: string,
                                          key: string)
    requires Bindings.ContainerEnvs(env, secrets).Ok? && Refers(env, name, secret, key)
    requires PlainVars(env) && PlainSecrets(secrets)
    ensures var m := Bindings.ContainerEnvs(env, secrets).value;
            && Gives(m, name, Bindings.FindSecretValue(secrets, secret, key)) && PlainEnv(m)
            && (Defines(env, name) ==> name in m)
  {
    if env != [] {
      var init, last := env[..|env|-1], env[|env|-1];
      assert last in env && forall v :: v in init ==> v in env;
      ContainerReads(init, secrets, name, secret, key);
      if last.from.FromSecret? {
        FoundIsPlain(secrets, last.from.secret, last.from.key);
      }
      assert forall i :: 0 <= i < |init| ==> init[i] == env[i];
    }
  }

  /** What holds of a container's variables. */
  predicate SoundContainer(c: ContainerEnv, name: string, x: string) {
    Gives(c.envs, name, x) && PlainEnv(c.envs)
  }

  predicate SoundContainers(cs: seq<ContainerEnv>, name: string, x: string) {
    forall i :: 0 <= i < |cs| ==> SoundContainer(cs[i], name, x)
  }

  predicate SomeHas(cs: seq<ContainerEnv>, name: string) {
    exists i :: 0 <= i < |cs| && name in cs[i].envs
  }

  lemma SoundConcat(a: seq<ContainerEnv>, b: seq<ContainerEnv>, name: string, x: string)
    requires SoundContainers(a, name, x) && SoundContainers(b, name, x)
    ensures SoundContainers(a + b, name, x) && (SomeHas(a, name) || SomeHas(b, name) ==> SomeHas(a + b, name))
  {
    if SomeHas(a, name) {
      var i :| 0 <= i < |a| && name in a[i].envs;
      assert (a + b)[i] == a[i];
    }
    if SomeHas(b, name) {
      var i :| 0 <= i < |b| && name in b[i].envs;
      assert (a + b)[|a|+i] == b[i];
    }
  }

  /** The containers of an object refer to the secret under the name, and are otherwise plain. */
  predicate RefersAll(cs: seq<Container>, name: string, secret: string, key: string) {
    forall i :: 0 <= i < |cs| ==> Refers(cs[i].env, name, secret, key) && PlainVars(cs[i].env)
  }

  predicate DefinesOne(cs: seq<Container>, name: string) {
    exists i :: 0 <= i < |cs| && Defines(cs[i].env, name)
  }

  lemma {:induction false} ContainersRead(cs: seq<Container>, secrets: seq<Object>, name: string, secret: string,
                                          key: string)
    requires Bindings.SimpleContainers(cs, secrets).Ok? && RefersAll(cs, name, secret, key) && PlainSecrets(secrets)
    ensures var r := Bindings.SimpleContainers(cs, secrets).value;
            && SoundContainers(r, name, Bindings.FindSecretValue(secrets, secret, key))
            && (DefinesOne(cs, name) ==> SomeHas(r, name))
  {
    if cs != [] {
      var init, last := cs[..|cs|-1], cs[|cs|-1];
      ContainersRead(init, secrets, name, secret, key);
      ContainerReads(last.env, secrets, name, secret, key);
      var r, c := Bindings.SimpleContainers(init, secrets).value, Bindings.ContainerEnvs(last.env, secrets).value;
      var x := Bindings.FindSecretValue(secrets, secret, key);
      var more := [ContainerEnv(last.name, c)];
      assert Defines(last.env, name) ==> name in more[0].envs;
      SoundConcat(r, more, name, x);
      assert DefinesOne(cs, name) ==> DefinesOne(init, name) || Defines(last.env, name) by {
        if i :| 0 <= i < |cs| && Defines(cs[i].env, name) && i < |init| {
          assert Defines(init[i].env, name);
        }
      }
    }
  }

  lemma {:induction false} PodsRead(ws: seq<Object>, secrets: seq<Object>, name: string, secret: string, key: string)
    requires Bindings.PodsOf(ws, secrets).Ok? && PlainSecrets(secrets)
    requires forall i :: 0 <= i < |ws| ==> RefersAll(ws[i].containers, name, secret, key)
    ensures var r := AllContainers(Bindings.PodsOf(ws, secrets).value);
            && SoundContainers(r, name, Bindings.FindSecretValue(secrets, secret, key))
            && (SomeDefines(ws, name) ==> SomeHas(r, name))
  {
    if ws != [] {
      var init, last := ws[..|ws|-1], ws[|ws|-1];
      PodsRead(init, secrets, name, secret, key);
      ContainersRead(last.containers, secrets, name, secret, key);
      var pods := Bindings.PodsOf(init, secrets).value;
      var pod := PodEnvs(last.name, Bindings.SimpleContainers(last.containers, secrets).value);
      ContainersSnoc(pods, pod);
      SoundConcat(AllContainers(pods), pod.containers, name, Bindings.FindSecretValue(secrets, secret, key));
      DefinedAmong(ws, name);
    }
  }

  lemma ContainersSnoc(pods: seq<PodEnvs>, pod: PodEnvs)
    ensures AllContainers(pods + [pod]) == AllContainers(pods) + pod.containers
  {
    assert (pods + [pod])[..|pods|] == pods;
  }

  /** Some workload defines the variable. */
  predicate SomeDefines(ws: seq<Object>, name: string) {
    exists i :: 0 <= i < |ws| && DefinesOne(ws[i].containers, name)
  }

  lemma DefinedAmong(ws: seq<Object>, name: string)
    requires ws != []
    ensures SomeDefines(ws, name) ==> SomeDefines(ws[..|ws|-1], name) || DefinesOne(ws[|ws|-1].containers, name)
  {
    var init := ws[..|ws|-1];
    if i :| 0 <= i < |init| && DefinesOne(ws[i].containers, name) {
      assert DefinesOne(init[i].containers, name);
    }
  }

  lemma {:induction false} MergedReads(cs: seq<ContainerEnv>, name: string, x: string)
    requires SoundContainers(cs, name, x)
    ensures Gives(Merged(cs), name, x) && PlainEnv(Merged(cs)) && (SomeHas(cs, name) ==> name in Merged(cs))
  {
    MergedLastWins(cs, name);
    if cs != [] {
      MergedReads(cs[..|cs|-1], name, x);
    }
  }

  // ---------------------------------------------------------------- the whole path

  predicate IsWorkload(o: Object) {
    o.kind == Deployment || o.kind == StatefulSet
  }

  /**
   * Among the objects of an instance, the variable is a reference to this key of this secret wherever a workload has
   * it, and some workload has it.
   */
  ghost predicate Wired(os: seq<Object>, name: string, secret: string, key: string) {
    && (forall o :: o in os && IsWorkload(o) ==> RefersAll(o.containers, name, secret, key))
    && (exists o :: o in os && IsWorkload(o) && DefinesOne(o.containers, name))
  }

  /** The objects that are secrets. */
  function SecretsOf(os: seq<Object>): (r: seq<Object>)
    ensures forall o :: o in r <==> o in os && o.kind == Cluster.Secret
  {
    if os == [] then []
    else
      assert os == [os[0]] + os[1..];
      (if os[0].kind == Cluster.Secret then [os[0]] else []) + SecretsOf(os[1..])
  }

  /** No variable of a workload is without both a value and a source. */
  predicate Sourced(o: Object) {
    forall i :: 0 <= i < |o.containers| ==> SourcedVars(o.containers[i].env)
  }

  predicate SourcedVars(env: seq<EnvVar>) {
    forall j :: 0 <= j < |env| ==> !(env[j].value == "" && env[j].from.NoSource?)
  }

  predicate AllSourced(os: seq<Object>) {
    forall w :: w in os && IsWorkload(w) ==> Sourced(w)
  }

  lemma {:induction false} ContainerReadableIff(env: seq<EnvVar>, secrets: seq<Object>)
    ensures Bindings.ContainerEnvs(env, secrets).Ok? <==> SourcedVars(env)
  {
    if env != [] {
      var init := env[..|env|-1];
      ContainerReadableIff(init, secrets);
      assert forall j :: 0 <= j < |init| ==> init[j] == env[j];
    }
  }

  lemma {:induction false} ContainersReadableIff(cs: seq<Container>, secrets: seq<Object>)
    ensures Bindings.SimpleContainers(cs, secrets).Ok? <==> forall i :: 0 <= i < |cs| ==> SourcedVars(cs[i].env)
  {
    if cs != [] {
      var init := cs[..|cs|-1];
      ContainersReadableIff(init, secrets);
      ContainerReadableIff(cs[|cs|-1].env, secrets);
      assert forall j :: 0 <= j < |init| ==> init[j] == cs[j];
    }
  }

  /** The environment of workloads is read exactly when no variable lacks both a value and a source. */
  lemma {:induction false} PodsReadableIff(ws: seq<Object>, secrets: seq<Object>)
    ensures Bindings.PodsOf(ws, secrets).Ok? <==> forall i :: 0 <= i < |ws| ==> Sourced(ws[i])
  {
    if ws != [] {
      var init := ws[..|ws|-1];
      PodsReadableIff(init, secrets);
      ContainersReadableIff(ws[|ws|-1].containers, secrets);
      assert forall j :: 0 <= j < |init| ==> init[j] == ws[j];
    }
  }

  /** What the listings of a binding request return. */
  ghost predicate Listed(objects: Objects, id: string, ws: seq<Object>, n: nat, secrets: seq<Object>) {
    && n <= |ws|
    && Lists(ws[..n], objects, Deployment, SERVICE_ID_LABEL, id)
    && Lists(ws[n..], objects, StatefulSet, SERVICE_ID_LABEL, id)
    && Lists(secrets, objects, Cluster.Secret, SERVICE_ID_LABEL, id)
  }

  lemma WorkloadsListed(objects: Objects, id: string, os: seq<Object>, ws: seq<Object>, n: nat, secrets: seq<Object>)
    requires Holds(objects, id, os) && Listed(objects, id, ws, n, secrets)
    ensures forall w :: w in ws <==> w in os && IsWorkload(w)
    ensures forall o :: o in secrets <==> o in os && o.kind == Cluster.Secret
  {
    assert ws == ws[..n] + ws[n..];
    forall w | w in os && IsWorkload(w) ensures w in ws {
      assert objects[w.Key()] == w && w.Key().0 == w.kind;
    }
    forall o | o in os && o.kind == Cluster.Secret ensures o in secrets {
      assert objects[o.Key()] == o && o.Key().0 == o.kind;
    }
    forall w | w in ws[..n] || w in ws[n..] || w in secrets ensures w in os {
      assert objects[w.Key()] == w;
    }
  }

  /** The environment that a binding reads gives the variable the value that the secret holds. */
  lemma BindingReads(objects: Objects, id: string, os: seq<Object>, o: Object, name: string, key: string,
                     ws: seq<Object>, n: nat, secrets: seq<Object>)
    requires Holds(objects, id, os) && Listed(objects, id, ws, n, secrets) && Bindings.PodsOf(ws, secrets).Ok?
    requires o in os && o.kind == Cluster.Secret && key in o.data && Wired(os, name, o.name, key) &&
             PlainSecrets(SecretsOf(os))
    ensures var env := Merged(AllContainers(Bindings.PodsOf(ws, secrets).value));
            PlainEnv(env) && name in env && env[name] == o.data[key]
  {
    WorkloadsListed(objects, id, os, ws, n, secrets);
    SecretFound(secrets, o, key);
    var w :| w in os && IsWorkload(w) && DefinesOne(w.containers, name);
    assert SomeDefines(ws, name) by { assert w in ws; }
    forall i | 0 <= i < |ws| ensures RefersAll(ws[i].containers, name, o.name, key) {
      assert ws[i] in ws;
    }
    forall x | x in secrets ensures forall k :: k in x.data ==> NoDollar(x.data[k]) {
      assert x in SecretsOf(os);
    }
    PodsRead(ws, secrets, name, o.name, key);
    MergedReads(AllContainers(Bindings.PodsOf(ws, secrets).value), name, o.data[key]);
  }

  /** With every call done, there is an environment to read exactly when every variable is sourced. */
  lemma BindingSucceedsIff(objects: Objects, id: string, os: seq<Object>, name: string, secret: string, key: string,
                           ws: seq<Object>, secrets: seq<Object>)
    requires Holds(objects, id, os) && Wired(os, name, secret, key)
    requires forall k ::
               k in objects && k.0 in {Deployment, StatefulSet} && objects[k].Labelled(SERVICE_ID_LABEL, id) ==>
                 objects[k] in ws
    requires ws != [] ==> exists n :: Listed(objects, id, ws, n, secrets)
    ensures ws != [] && (Bindings.PodsOf(ws, secrets).Ok? <==> AllSourced(os))
  {
    var w :| w in os && IsWorkload(w) && DefinesOne(w.containers, name);
    assert objects[w.Key()] == w && w.Key().0 == w.kind;
    var n :| Listed(objects, id, ws, n, secrets);
    WorkloadsListed(objects, id, os, ws, n, secrets);
    PodsReadableIff(ws, secrets);
    assert AllSourced(os) <==> forall i :: 0 <= i < |ws| ==> Sourced(ws[i]) by {
      forall i | 0 <= i < |ws| && AllSourced(os) ensures Sourced(ws[i]) {
        assert ws[i] in ws;
      }
      forall x | x in os && IsWorkload(x) && (forall i :: 0 <= i < |ws| ==> Sourced(ws[i])) ensures Sourced(x) {
        assert x in ws;
      }
    }
  }

  /** The environment that `Bind` reads; with every call done there is one exactly when every variable is sourced. */
  method ReadEnvironment(api: Api, hasClient: bool, id: string, ghost os: seq<Object>, ghost o: Object,
                         ghost name: string, ghost key: string)
    returns (pods: Option<seq<PodEnvs>>)
    requires api.Valid() && Holds(api.objects, id, os)
    requires o in os && o.kind == Cluster.Secret && key in o.data && Wired(os, name, o.name, key) &&
             PlainSecrets(SecretsOf(os))
    modifies api`script
    ensures pods.Some? ==>
              var env := Merged(AllContainers(pods.value)); PlainEnv(env) && name in env && env[name] == o.data[key]
    ensures AllDone(old(api.script)) && hasClient ==> (pods.Some? <==> AllSourced(os))
  {
    var read, ws, secrets := Bindings.GetAllPodsEnvsByServiceId(api, hasClient, id);
    assert ws != [] ==> exists n :: Listed(api.objects, id, ws, n, secrets) by {
      if n :| 0 <= n <= |ws| && Lists(ws[..n], api.objects, Deployment, SERVICE_ID_LABEL, id) &&
              Lists(ws[n..], api.objects, StatefulSet, SERVICE_ID_LABEL, id) && ws != []
      {
        assert Listed(api.objects, id, ws, n, secrets);
      }
    }
    if AllDone(old(api.script)) && hasClient {
      BindingSucceedsIff(api.objects, id, os, name, o.name, key, ws, secrets);
    }
    if read.Err? {
      return None;
    }
    ghost var n :| Listed(api.objects, id, ws, n, secrets);
    BindingReads(api.objects, id, os, o, name, key, ws, n, secrets);
    return Some(read.value);
  }

  // ---------------------------------------------------------------- plans

  predicate Clustered(m: Credentials.Mapping) {
    m.uriTemplate != "" || m.replicaTemplate != ""
  }

  /** The hosts and the nodes of a clustered plan have their ports. */
  predicate Assembles(m: Credentials.Mapping, creds: seq<Credentials.ServiceCredential>) {
    Clustered(m) ==>
      Credentials.HostPorts(m.uriTemplate, creds).Ok? && Credentials.NodeTexts(m.replicaTemplate, creds).Ok?
  }

  /** The templates of a plan are filled in by plain expansion, whatever the environment. */
  ghost predicate FitsPlan(m: Credentials.Mapping, serviceName: string, creds: seq<Credentials.ServiceCredential>) {
    && NoDollar(serviceName)
    && if Clustered(m) then
         Assembles(m, creds) ==> Credentials.Fits(m, creds) && ShorterLast(Credentials.ClusteredTokens(m, creds))
       else
         && (creds != [] ==> NoDollar(creds[0].host))
         && Separated(PlanPattern(m, creds), m.credentialsMapping)
         && ShorterLast(FindAll(PlanPattern(m, creds), m.credentialsMapping))
  }

  /** The placeholders of a plan's text: of a clustered plan, or without services, only the name and the variables. */
  function PlanPattern(m: Credentials.Mapping, creds: seq<Credentials.ServiceCredential>): Pattern {
    if Clustered(m) || creds == [] then Credentials.COMMON else Credentials.SIMPLE
  }

  /**
   * The text whose placeholders are filled in: the mapping, of a clustered plan with the URI and the nodes inserted.
   */
  function PlanSource(m: Credentials.Mapping, creds: seq<Credentials.ServiceCredential>): string
    requires Assembles(m, creds)
  {
    if Clustered(m) then Credentials.AssembledText(m, creds) else m.credentialsMapping
  }

  function PlanPorts(m: Credentials.Mapping, creds: seq<Credentials.ServiceCredential>): seq<Ports.ServicePort> {
    if Clustered(m) || creds == [] then [] else creds[0].ports
  }

  function PlanFixed(m: Credentials.Mapping, serviceName: string,
                     creds: seq<Credentials.ServiceCredential>): map<string, string> {
    if Clustered(m) || creds == [] then map[Credentials.NAME := serviceName]
    else map[Credentials.HOSTNAME := creds[0].host, Credentials.NAME := serviceName]
  }

  /** The error of the first host or, if these have their ports, of the first node that has none. */
  function AssemblyError(m: Credentials.Mapping, creds: seq<Credentials.ServiceCredential>): string
    requires !Assembles(m, creds)
  {
    var hosts, nodes := Credentials.HostPorts(m.uriTemplate, creds), Credentials.NodeTexts(m.replicaTemplate, creds);
    if hosts.Err? then hosts.message else nodes.message
  }

  /** The credentials of a plan: its text with all placeholders expanded at once, or the error of its ports. */
  function PlanText(m: Credentials.Mapping, serviceName: string, creds: seq<Credentials.ServiceCredential>,
                    env: map<string, string>):
    Result<string>
  {
    if !Assembles(m, creds) then Err(AssemblyError(m, creds))
    else Credentials.Meaning(PlanPattern(m, creds), PlanSource(m, creds), PlanFixed(m, serviceName, creds),
                             PlanPorts(m, creds), env)
  }

  /** For a clustered plan it is enough that the three templates fit together, whatever the plain services. */
  lemma TemplatesFitPlan(m: Credentials.Mapping, serviceName: string, creds: seq<Credentials.ServiceCredential>)
    requires Clustered(m) && NoDollar(serviceName) && ClusterTemplates.TemplatesFit(m) &&
             ClusterTemplates.PlainCreds(creds)
    requires ShorterLast(ClusterTemplates.TemplateTokens(m, |creds|))
    ensures FitsPlan(m, serviceName, creds)
    ensures ClusterTemplates.NumericTargets(creds) && ClusterTemplates.NumericTemplates(m) ==> PortsReadable(m, creds)
  {
    if Assembles(m, creds) {
      ClusterTemplates.TemplatesSuffice(m, creds);
      CommonHasNoPorts(PlanSource(m, creds));
      PortsAmong(FindAll(PlanPattern(m, creds), PlanSource(m, creds)));
    }
    if ClusterTemplates.NumericTargets(creds) && ClusterTemplates.NumericTemplates(m) {
      ClusterTemplates.NumericAssembles(m, creds);
    }
  }

  lemma PortsAmong(toks: seq<string>)
    requires OfKind(PORTS, toks) == []
    ensures forall t :: t in toks ==> MatchLen(PORTS, t) == 0
  {
    OfKindElems(PORTS, toks);
  }

  lemma CommonHasNoPorts(s: string)
    ensures OfKind(PORTS, FindAll(Credentials.COMMON, s)) == []
  {
    var toks := FindAll(Credentials.COMMON, s);
    forall t | t in toks ensures MatchLen(PORTS, t) == 0 {
      Credentials.CommonToken(s, t);
      Credentials.SecondChar(t);
    }
    NoneOfKind(PORTS, toks);
  }

  lemma NoneOfKind(p: Pattern, toks: seq<string>)
    requires forall t :: t in toks ==> MatchLen(p, t) == 0
    ensures OfKind(p, toks) == []
  {
    OfKindElems(p, toks);
    if OfKind(p, toks) != [] {
      assert OfKind(p, toks)[0] in OfKind(p, toks);
    }
  }

  /** The code gives every plan its meaning. */
  lemma PlanMeaning(m: Credentials.Mapping, serviceName: string, creds: seq<Credentials.ServiceCredential>,
                    env: map<string, string>)
    requires FitsPlan(m, serviceName, creds) && PlainEnv(env)
    ensures Credentials.ParsedMapping(serviceName, creds, env, m) == PlanText(m, serviceName, creds, env)
  {
    if Clustered(m) && Assembles(m, creds) {
      Credentials.ClusteredMeaning(m, serviceName, creds, env);
      Credentials.AssembledMeaning(m, creds);
      CommonHasNoPorts(PlanSource(m, creds));
    } else if Clustered(m) {
      assert Credentials.Assembled(m, creds) == Err(AssemblyError(m, creds));
    } else if creds == [] {
      Credentials.CommonMeaning(m.credentialsMapping, serviceName, env);
      CommonHasNoPorts(m.credentialsMapping);
    } else {
      Credentials.SimplePlanMeaning(m, serviceName, creds, env);
    }
  }

  /**
   * Every port of the plan's service has a numeric target, and every port placeholder a number that fits; of a
   * clustered plan, its hosts and nodes have their ports.
   */
  predicate PortsReadable(m: Credentials.Mapping, creds: seq<Credentials.ServiceCredential>)
  {
    && Assembles(m, creds)
    && (forall p :: p in PlanPorts(m, creds) ==> Atoi(p.targetPort).Some?)
    && forall t :: t in FindAll(PlanPattern(m, creds), PlanSource(m, creds)) && MatchLen(PORTS, t) > 0 ==>
         Atoi(Ports.Suffix(t)).Some?
  }

  lemma ReadablePlan(m: Credentials.Mapping, serviceName: string, creds: seq<Credentials.ServiceCredential>,
                     env: map<string, string>)
    requires PortsReadable(m, creds)
    ensures PlanText(m, serviceName, creds, env).Ok?
  {
    var toks := FindAll(PlanPattern(m, creds), PlanSource(m, creds));
    OfKindElems(PORTS, toks);
    Ports.NumericIsOk(OfKind(PORTS, toks), {}, PlanPorts(m, creds));
  }

  // ---------------------------------------------------------------- the credential in the text

  predicate NameEnds(after: string) {
    after == "" || !ENVS.class_.Has(after[0])
  }

  /** The text has the variable's placeholder between these two texts. */
  predicate PlaceholderAt(s: string, before: string, name: string, after: string) {
    s == before + (ENV_HEAD + name + after) && NameEnds(after)
  }

  lemma PlaceholderMatches(g: Pattern, name: string, after: string)
    requires IsName(name) && NameEnds(after) && g in {Credentials.SIMPLE, Credentials.COMMON}
    ensures ValidPattern(g) && MatchLen(g, ENV_HEAD + name + after) == |ENV_HEAD + name|
  {
    Credentials.SimpleIsClear();
    MatchName(name, after);
    PartMatch(ENVS, g, ENV_HEAD + name + after);
  }

  /**
   * The credentials carry the value: they are the meaning of the plan in an environment that gives the variable this
   * value, and wherever the plan's text has the variable's placeholder, the value itself stands between what becomes of
   * the text before it and of the text after it.
   */
  ghost predicate Carries(r: Result<string>, m: Credentials.Mapping, serviceName: string,
                          creds: seq<Credentials.ServiceCredential>, name: string, x: string)
  {
    exists env: map<string, string>, val: map<string, string> ::
        CarriesFrom(r, m, serviceName, creds, name, x, env, val)
  }

  ghost predicate CarriesFrom(r: Result<string>, m: Credentials.Mapping, serviceName: string,
                              creds: seq<Credentials.ServiceCredential>,
                              name: string, x: string, env: map<string, string>, val: map<string, string>)
  {
    && name in env && env[name] == x && r == PlanText(m, serviceName, creds, env)
    && (r.Ok? ==> StandsIn(r.value, PlanPattern(m, creds), PlanSource(m, creds), name, x, val))
  }

  /** The text is an expansion of the source in which the value stands wherever the variable's placeholder stood. */
  ghost predicate StandsIn(text: string, g: Pattern, source: string, name: string, x: string, val: map<string, string>)
  {
    && text == Expand(g, source, val)
    && forall before, after :: PlaceholderAt(source, before, name, after) ==>
         text == Expand(g, before, val) + (x + Expand(g, after, val))
  }

  /** The values with which a text has its meaning, and the place of a variable's value in it. */
  lemma MeaningInText(g: Pattern, s: string, fixed: map<string, string>, ports: seq<Ports.ServicePort>,
                      env: map<string, string>,
                      name: string) returns (val: map<string, string>)
    requires g in {Credentials.SIMPLE, Credentials.COMMON} && IsName(name)
    requires fixed.Keys <= {Credentials.HOSTNAME, Credentials.NAME, Credentials.NODE_NAME}
    requires Credentials.Meaning(g, s, fixed, ports, env).Ok?
    ensures Credentials.Meaning(g, s, fixed, ports, env) == Ok(Expand(g, s, val))
    ensures forall before, after :: PlaceholderAt(s, before, name, after) ==>
              Expand(g, s, val) == Expand(g, before, val) + (Lookup(env, name) + Expand(g, after, val))
  {
    var toks := FindAll(g, s);
    var own := Ports.PortValues(OfKind(PORTS, toks), {}, ports).value;
    val := Credentials.Values(toks, fixed, own, env);
    forall before, after | PlaceholderAt(s, before, name, after)
      ensures Expand(g, s, val) == Expand(g, before, val) + (Lookup(env, name) + Expand(g, after, val))
    {
      PlaceholderMatches(g, name, after);
      ExpandName(g, before, name, after, val);
      PlaceholderValue(toks, fixed, own, env, name);
    }
  }

  lemma ExpandName(g: Pattern, before: string, name: string, after: string, val: map<string, string>)
    requires ValidPattern(g) && MatchLen(g, ENV_HEAD + name + after) == |ENV_HEAD + name|
    ensures var s := before + (ENV_HEAD + name + after);
            && ENV_HEAD + name in FindAll(g, s)
            && Expand(g, s, val) == Expand(g, before, val) + (Lookup(val, ENV_HEAD + name) + Expand(g, after, val))
  {
    ExpandAround(g, before, ENV_HEAD + name, after, val);
  }

  lemma ValueInText(m: Credentials.Mapping, serviceName: string, creds: seq<Credentials.ServiceCredential>,
                    env: map<string, string>,
                    name: string)
    requires IsName(name) && name in env
    ensures Carries(PlanText(m, serviceName, creds, env), m, serviceName, creds, name, env[name])
  {
    var r := PlanText(m, serviceName, creds, env);
    var val: map<string, string> := map[];
    if r.Ok? {
      val := MeaningInText(PlanPattern(m, creds), PlanSource(m, creds), PlanFixed(m, serviceName, creds),
                           PlanPorts(m, creds), env, name);
      assert StandsIn(r.value, PlanPattern(m, creds), PlanSource(m, creds), name, env[name], val);
    }
    assert CarriesFrom(r, m, serviceName, creds, name, env[name], env, val);
  }

  /** In the meaning of a mapping, the placeholder of a variable stands for the variable's value. */
  lemma PlaceholderValue(toks: seq<string>, fixed: map<string, string>, ports: map<string, string>,
                         env: map<string, string>,
                         name: string)
    requires IsName(name) && ENV_HEAD + name in toks
    requires fixed.Keys <= {Credentials.HOSTNAME, Credentials.NAME, Credentials.NODE_NAME}
    ensures Lookup(Credentials.Values(toks, fixed, ports, env), ENV_HEAD + name) == Lookup(env, name)
  {
    var t := ENV_HEAD + name;
    NameIsPlain(name);
    MatchName(name, "");
    assert t + "" == t;
    Credentials.FixedKeys();
    Credentials.EnvIsNoPort(t);
  }

  // ---------------------------------------------------------------- the whole path

  /** A binding of an instance of any plan, at any time at which the instance holds the objects of its component. */
  method Bind(api: Api, hasClient: bool, id: string, m: Credentials.Mapping, serviceName: string,
              creds: seq<Credentials.ServiceCredential>, ghost os: seq<Object>, ghost o: Object, ghost name: string,
              ghost key: string)
    returns (r: Option<Result<string>>)
    requires api.Valid() && Holds(api.objects, id, os) && FitsPlan(m, serviceName, creds) && IsName(name)
    requires o in os && o.kind == Cluster.Secret && key in o.data && Wired(os, name, o.name, key) &&
             PlainSecrets(SecretsOf(os))
    modifies api`script
    ensures r.Some? ==> Carries(r.value, m, serviceName, creds, name, o.data[key])
    ensures r.Some? && PortsReadable(m, creds) ==> r.value.Ok?
    ensures AllDone(old(api.script)) && hasClient ==> (r.Some? <==> AllSourced(os))
  {
    var pods := ReadEnvironment(api, hasClient, id, os, o, name, key);
    if pods.None? {
      return None;
    }
    ghost var env := Merged(AllContainers(pods.value));
    var text := Credentials.ParseCredentialMappingAdvanced(serviceName, creds, pods.value, m);
    PlanMeaning(m, serviceName, creds, env);
    ValueInText(m, serviceName, creds, env, name);
    if PortsReadable(m, creds) {
      ReadablePlan(m, serviceName, creds, env);
    }
    return Some(text);
  }

  /** The component with the object that was read from the secret's template among its secrets. */
  function WithSecret(c: Fabricator.Component, at: nat, o: Object): Fabricator.Component
    requires at <= |c.secrets|
  {
    c.(secrets := c.secrets[..at] + [o] + c.secrets[at..])
  }

  /**
   * What is asked of the object that is read from the adjusted template: its data are the lines', and its own name and
   * label.
   */
  ghost predicate ReadsSecret(unmarshal: string -> Option<Object>, ls: seq<Line>, p: Params, id: string, secret: string)
    requires Drawn(p)
  {
    var text := Adjusted(Render(ls, MARK), p);
    text.Some? && unmarshal(text.value).Some? ==>
      var o := unmarshal(text.value).value;
      ReadFrom(o, text.value, ls) && o.kind == Cluster.Secret && o.name == secret && o.Labelled(SERVICE_ID_LABEL, id)
  }

  /**
   * The objects of the instance, but for the values of the secret itself: all are its own, wired up, and hold no `$`.
   */
  ghost predicate Prepared(os: seq<Object>, id: string, name: string, secret: string, key: string) {
    && Wired(os, name, secret, key)
    && forall x :: x in os && x.kind == Cluster.Secret && x.name != secret ==>
         forall k :: k in x.data ==> NoDollar(x.data[k])
  }

  lemma SecretsArePlain(os: seq<Object>, id: string, name: string, o: Object, key: string)
    requires Prepared(os, id, name, o.name, key) && Fabricator.DistinctKeys(os) && o in os && o.kind == Cluster.Secret
    requires forall k :: k in o.data ==> NoDollar(o.data[k])
    ensures PlainSecrets(SecretsOf(os))
  {
    forall x | x in SecretsOf(os) ensures forall k :: k in x.data ==> NoDollar(x.data[k]) {
      if x.name == o.name {
        var i :| 0 <= i < |os| && os[i] == x;
        var j :| 0 <= j < |os| && os[j] == o;
        assert x.Key() == o.Key();
      }
    }
  }

  /**
   * End to end, for every plan: the secret's template is adjusted, the secret read from the text and created with the
   * other objects; if provisioning and the binding's reads succeed, then in the returned credentials the very string
   * that was drawn for the random key stands wherever the plan's text has the variable.
   */
  method ProvisionThenBind(api: Api, ss: State.StateService, space: string, id: string,
                           parameters: Fabricator.Parameters,
                           rest: Fabricator.Component, at: nat, template: string, p: Params,
                           unmarshal: string -> Option<Object>,
                           m: Credentials.Mapping, serviceName: string, creds: seq<Credentials.ServiceCredential>,
                           ghost ls: seq<Line>, ghost i: nat, ghost k: nat, ghost name: string, ghost secret: string)
    returns (r: Option<Result<string>>)
    requires api.Valid() && ss.Valid() && FitsPlan(m, serviceName, creds) && IsName(name)
    requires Fabricator.NoneOwned(api.objects, id) && Fabricator.ComponentOwned(rest, id) && at <= |rest.secrets|
    requires template == Render(ls, MARK) && WellFormed(ls, p) && ReadsSecret(unmarshal, ls, p, id, secret)
    requires LastOfKey(ls, i) && k < 9 && ls[i].value == RandomKey(k)
    requires forall o: Object :: o.kind == Cluster.Secret && o.name == secret ==>
               Prepared(InstanceObjects(WithSecret(rest, at, o), parameters, space), id, name, secret, ls[i].key)
    modifies api, ss`records, ss`log
    ensures r.Some? ==> Carries(r.value, m, serviceName, creds, name, p.randoms[k])
    ensures r.Some? && PortsReadable(m, creds) ==> r.value.Ok?
    ensures var text := Adjusted(template, p);
            text.Some? && unmarshal(text.value).Some? && AllDone(old(api.script)) && !parameters.BadJson? ==>
              var os := InstanceObjects(WithSecret(rest, at, unmarshal(text.value).value), parameters, space);
              Fabricator.CanAdd(old(api.objects), os) && AllSourced(os) ==> r.Some?
  {
    ghost var before := api.objects;
    var text := AdjustParams(template, p);
    if text.None? {
      return None;
    }
    var o := unmarshal(text.value);
    if o.None? {
      return None;
    }
    var component := WithSecret(rest, at, o.value);
    var made := Fabricator.FabricateService(api, ss, true, space, id, parameters, component);
    if !made.Fabricated? {
      return None;
    }
    ghost var os := InstanceObjects(component, parameters, space);
    OwnedWithSecret(rest, at, o.value, id);
    Fabricator.StagesOwned(component, Fabricator.ExtraEnv(parameters, space), id);
    CreationHolds(before, api.objects, os, id);
    SecretHoldsRandom(o.value, text.value, ls, p, i, k);
    SecretAmong(rest, at, o.value, parameters, space);
    SecretsArePlain(os, id, name, o.value, ls[i].key);
    r := Bind(api, true, id, m, serviceName, creds, os, o.value, name, ls[i].key);
  }

  /** The objects that a component's creation makes. */
  function InstanceObjects(c: Fabricator.Component, parameters: Fabricator.Parameters, space: string): seq<Object> {
    Fabricator.Items(Fabricator.Stages(c, Fabricator.ExtraEnv(parameters, space)))
  }

  lemma OwnedWithSecret(c: Fabricator.Component, at: nat, o: Object, id: string)
    requires at <= |c.secrets| && Fabricator.ComponentOwned(c, id) && o.Labelled(SERVICE_ID_LABEL, id)
    ensures Fabricator.ComponentOwned(WithSecret(c, at, o), id)
  {
  }

  lemma SecretAmong(c: Fabricator.Component, at: nat, o: Object, parameters: Fabricator.Parameters, space: string)
    requires at <= |c.secrets|
    ensures o in InstanceObjects(WithSecret(c, at, o), parameters, space)
  {
    var all := WithSecret(c, at, o);
    assert all.secrets[at] == o;
    FirstStageItems(Fabricator.Stages(all, Fabricator.ExtraEnv(parameters, space)), o);
  }

  lemma {:induction false} FirstStageItems(stages: seq<Fabricator.Stage>, o: Object)
    requires stages != [] && o in stages[0].objects
    ensures o in Fabricator.Items(stages)
  {
    if |stages| > 1 {
      FirstStageItems(stages[..|stages|-1], o);
    }
  }
}
