/** Environment placeholders: `parseEnvs` and `appendMaps` of app/tap/credential_parser.go. */
module Envs {
  import opened Text
  import opened Pieces
  import opened Scan
  import Stages
  import Embedding

  datatype ContainerEnv = ContainerEnv(name: string, envs: map<string, string>)
  datatype PodEnvs = PodEnvs(deploymentName: string, containers: seq<ContainerEnv>)

  function EnvName(t: string): string {
    if |t| >= |ENVS.head| then t[|ENVS.head|..] else ""
  }

  /** The values of the placeholders under an environment; a missing name gives "". */
  function EnvValues(toks: seq<string>, env: map<string, string>): map<string, string> {
    map t | t in toks :: Lookup(env, EnvName(t))
  }

  /** The containers of all pods, in order. */
  function AllContainers(pods: seq<PodEnvs>): seq<ContainerEnv> {
    if pods == [] then [] else AllContainers(pods[..|pods|-1]) + pods[|pods|-1].containers
  }

  function Merged(cs: seq<ContainerEnv>): map<string, string> {
    if cs == [] then map[] else Merged(cs[..|cs|-1]) + cs[|cs|-1].envs
  }

  /** The last container of the last pod that defines a name wins. */
  lemma {:induction false} MergedLastWins(cs: seq<ContainerEnv>, name: string)
    ensures name in Merged(cs) <==> exists i :: 0 <= i < |cs| && name in cs[i].envs
    ensures forall i :: 0 <= i < |cs| && name in cs[i].envs && (forall j :: i < j < |cs| ==> name !in cs[j].envs) ==>
                          name in Merged(cs) && Merged(cs)[name] == cs[i].envs[name]
  {
    if cs != [] {
      MergedLastWins(cs[..|cs|-1], name);
      MergedStep(cs, name);
    }
  }

  lemma MergedStep(cs: seq<ContainerEnv>, name: string)
    requires cs != []
    ensures var init, last := cs[..|cs|-1], cs[|cs|-1].envs;
            && (name in Merged(cs) <==> name in last || name in Merged(init))
            && (name in last ==> Merged(cs)[name] == last[name])
            && (name !in last && name in Merged(init) ==> Merged(cs)[name] == Merged(init)[name])
    ensures forall i :: 0 <= i < |cs| - 1 ==> cs[..|cs|-1][i] == cs[i]
  {
  }

  /** What the loop over the placeholders computes. */
  function EnvChain(s: string, env: map<string, string>): string {
    FindAllIsTokens(ENVS, s);
    Chain(s, FindAll(ENVS, s), EnvValues(FindAll(ENVS, s), env))
  }

  lemma EnvTokenName(s: string, t: string)
    requires t in FindAll(ENVS, s)
    ensures ReplaceAll(t, ENV_HEAD, "") == EnvName(t) && ENV_HEAD + EnvName(t) == t && ' ' !in t
  {
    TokenSplit(ENVS, s, t, ' ');
    ReplaceHead(ENV_HEAD, EnvName(t));
  }

  method AppendMaps(source: map<string, string>, newMap: map<string, string>) returns (merged: map<string, string>)
    ensures merged == source + newMap
  {
    merged := source;
    var keys := newMap.Keys;
    while keys != {}
      invariant keys <= newMap.Keys
      invariant merged == source + map k | k in newMap && k !in keys :: newMap[k]
    {
      var k :| k in keys;
      merged := merged[k := newMap[k]];
      keys := keys - {k};
    }
  }

  method CollectEnvs(pods: seq<PodEnvs>) returns (allEnv: map<string, string>)
    ensures allEnv == Merged(AllContainers(pods))
  {
    allEnv := map[];
    for i := 0 to |pods|
      invariant allEnv == Merged(AllContainers(pods[..i]))
    {
      var before, cs := AllContainers(pods[..i]), pods[i].containers;
      assert before + cs[..0] == before;
      for j := 0 to |cs|
        invariant allEnv == Merged(before + cs[..j])
      {
        MergedSnoc(before, cs, j);
        allEnv := AppendMaps(allEnv, cs[j].envs);
      }
      assert cs[..|cs|] == cs && pods[..i+1][..i] == pods[..i];
    }
    assert pods[..|pods|] == pods;
  }

  lemma MergedSnoc(before: seq<ContainerEnv>, cs: seq<ContainerEnv>, j: nat)
    requires j < |cs|
    ensures Merged(before + cs[..j+1]) == Merged(before + cs[..j]) + cs[j].envs
  {
    var grown := before + cs[..j+1];
    assert grown[..|grown|-1] == before + cs[..j];
  }

  method ParseEnvs(template: string, pods: seq<PodEnvs>) returns (text: string)
    ensures text == EnvChain(template, Merged(AllContainers(pods)))
  {
    FindAllIsTokens(ENVS, template);
    var list := FindAll(ENVS, template);
    var allEnv := CollectEnvs(pods);
    ghost var val := EnvValues(list, allEnv);
    text := template;
    for i := 0 to |list|
      invariant text == Chain(template, list[..i], val)
    {
      EnvTokenName(template, list[i]);
      var name := ReplaceAll(list[i], ENV_HEAD, "");
      text := ReplaceAll(text, ENV_HEAD + name, Lookup(allEnv, name));
      ChainSnoc(template, list, i, val);
    }
    assert list[..|list|] == list;
  }

  predicate PlainEnv(env: map<string, string>) {
    forall n :: n in env ==> NoDollar(env[n])
  }

  /** Every placeholder stands for the value of its variable, all at once. */
  ghost predicate ExpandsEnv(s: string, env: map<string, string>) {
    EnvChain(s, env) == Expand(ENVS, s, EnvValues(FindAll(ENVS, s), env))
  }

  lemma {:induction false} ChainAgrees(s: string, keys: seq<string>, v: map<string, string>, w: map<string, string>)
    requires AllKeys(keys) && forall i :: 0 <= i < |keys| ==> Lookup(v, keys[i]) == Lookup(w, keys[i])
    ensures Chain(s, keys, v) == Chain(s, keys, w)
  {
    if keys != [] {
      ChainAgrees(s, keys[..|keys|-1], v, w);
    }
  }

  lemma SafeExpandsEnv(s: string, env: map<string, string>)
    requires PlainEnv(env) && Safe(Parse(ENVS, s), FindAll(ENVS, s))
    ensures ExpandsEnv(s, env)
  {
    var toks := FindAll(ENVS, s);
    ParseRenders(ENVS, s);
    FindAllIsTokens(ENVS, s);
    ChainIsFill(Parse(ENVS, s), toks, EnvValues(toks, env));
    ExpandIsFill(ENVS, s, Elems(toks), EnvValues(toks, env));
  }

  /** The environment in which the placeholders have the given values. */
  function EnvOf(toks: seq<string>, val: map<string, string>): map<string, string> {
    map n | n in (set t | t in toks :: EnvName(t)) :: Lookup(val, ENV_HEAD + n)
  }

  lemma EnvOfValues(s: string, val: map<string, string>)
    ensures var toks := FindAll(ENVS, s);
            forall t :: t in toks ==> Lookup(EnvValues(toks, EnvOf(toks, val)), t) == Lookup(val, t)
  {
    var toks := FindAll(ENVS, s);
    forall t | t in toks ensures Lookup(EnvValues(toks, EnvOf(toks, val)), t) == Lookup(val, t) {
      EnvTokenName(s, t);
    }
  }

  lemma UnsafeMissesEnv(s: string) returns (env: map<string, string>)
    requires !Safe(Parse(ENVS, s), FindAll(ENVS, s))
    ensures PlainEnv(env) && !ExpandsEnv(s, env)
  {
    var ps, toks := Parse(ENVS, s), FindAll(ENVS, s);
    var val := UnsafeEnvValues(s, ps, toks);
    env := EnvOf(toks, val);
    EnvOfValues(s, val);
    SameLookups(s, toks, env, val);
  }

  lemma SameLookups(s: string, toks: seq<string>, env: map<string, string>, val: map<string, string>)
    requires toks == FindAll(ENVS, s) && AllKeys(toks)
    requires forall t :: t in toks ==> Lookup(EnvValues(toks, env), t) == Lookup(val, t)
    ensures EnvChain(s, env) == Chain(s, toks, val)
    ensures Expand(ENVS, s, EnvValues(toks, env)) == Fill(Parse(ENVS, s), Elems(toks), val)
  {
    ChainAgrees(s, toks, EnvValues(toks, env), val);
    ExpandAgrees(ENVS, s, EnvValues(toks, env), val);
    ExpandIsFill(ENVS, s, Elems(toks), val);
  }

  lemma UnsafeEnvValues(s: string, ps: seq<Piece>, toks: seq<string>) returns (val: map<string, string>)
    requires ps == Parse(ENVS, s) && toks == FindAll(ENVS, s) && !Safe(ps, toks)
    ensures PlainValues(val) && AllKeys(toks) && Chain(s, toks, val) != Fill(ps, Elems(toks), val)
  {
    ParseRenders(ENVS, s);
    FindAllIsTokens(ENVS, s);
    forall t | t in toks ensures ' ' !in t { EnvTokenName(s, t); }
    val := UnsafeIsVisible(ps, toks, ' ');
  }

  /**
   * Exactly when `parseEnvs` gives every placeholder the value of its own variable, whatever the environment
   * (with values that hold no `$`): when no step of the chain can capture foreign text.
   */
  lemma EnvsExpandIff(s: string)
    ensures (forall env: map<string, string> :: PlainEnv(env) ==> ExpandsEnv(s, env)) <==>
            Safe(Parse(ENVS, s), FindAll(ENVS, s))
  {
    if Safe(Parse(ENVS, s), FindAll(ENVS, s)) {
      forall env: map<string, string> | PlainEnv(env) ensures ExpandsEnv(s, env) {
        SafeExpandsEnv(s, env);
      }
    } else {
      var env := UnsafeMissesEnv(s);
    }
  }

  /** In particular when the placeholders are separated and none is a proper prefix of a later one. */
  lemma SeparatedEnvs(s: string, env: map<string, string>)
    requires PlainEnv(env) && Separated(ENVS, s) && ShorterLast(FindAll(ENVS, s))
    ensures ExpandsEnv(s, env)
  {
    SeparatedIsSafe(ENVS, s);
    SafeExpandsEnv(s, env);
  }

  /**
   * For separated placeholders this is exact: the template works for all environments iff no placeholder is a proper
   * prefix of one not replaced before it.
   */
  lemma SeparatedEnvsIff(s: string)
    requires Separated(ENVS, s)
    ensures (forall env: map<string, string> :: PlainEnv(env) ==> ExpandsEnv(s, env)) <==> ShorterLast(FindAll(ENVS, s))
  {
    var toks := FindAll(ENVS, s);
    EnvsExpandIff(s);
    if ShorterLast(toks) {
      SeparatedIsSafe(ENVS, s);
    } else {
      var i, t :| 0 <= i < |toks| && t in toks && t !in toks[..i] && ProperPrefix(toks[i], t);
      ShorterFirstIsUnsafe(s, i, t);
    }
  }

  /** A placeholder that is a proper prefix of another, and is replaced before it, makes the chain unsafe. */
  lemma ShorterFirstIsUnsafe(s: string, i: nat, u: string)
    requires i < |FindAll(ENVS, s)| && u in FindAll(ENVS, s)
    requires ProperPrefix(FindAll(ENVS, s)[i], u) && u !in FindAll(ENVS, s)[..i]
    ensures !Safe(Parse(ENVS, s), FindAll(ENVS, s))
  {
    FindAllIsTokens(ENVS, s);
    TokenCaptured(Parse(ENVS, s), Elems(FindAll(ENVS, s)[..i]), FindAll(ENVS, s)[i], u);
  }

  lemma {:induction false} TokenCaptured(ps: seq<Piece>, done: set<string>, k: string, u: string)
    requires u in Tokens(ps) && u !in done && ProperPrefix(k, u)
    ensures !SafeStep(ps, done, k)
  {
    if ps[0] == Tok(u) {
      PrefixExtends(k, u, Run(ps[1..]));
    } else {
      TokenCaptured(ps[1..], done, k, u);
    }
  }

  /** A variable name as the pattern reads it. */
  predicate IsName(name: string) {
    name != "" && forall i :: 0 <= i < |name| ==> ENVS.class_.Has(name[i])
  }

  lemma MatchName(name: string, x: string)
    requires IsName(name) && (x == "" || !ENVS.class_.Has(x[0]))
    ensures MatchLen(ENVS, ENV_HEAD + name + x) == |ENV_HEAD + name|
    ensures (ENV_HEAD + name + x)[..|ENV_HEAD + name|] == ENV_HEAD + name
    ensures (ENV_HEAD + name + x)[|ENV_HEAD + name|..] == x
  {
    Stages.RepeatMatches(ENVS, name, x);
  }

  lemma NameIsPlain(name: string)
    requires IsName(name)
    ensures NoDollar(name) && IsKey(ENV_HEAD + name) && EnvName(ENV_HEAD + name) == name
  {
    assert (ENV_HEAD + name)[1..] == ENV_HEAD[1..] + name;
  }

  /**
   * What the loop computes on every separated text: one pass in which, at every placeholder, the first found
   * placeholder that begins it gives its value.
   */
  lemma EnvsInOrder(s: string, env: map<string, string>)
    requires PlainEnv(env) && Separated(ENVS, s)
    ensures AllKeys(FindAll(ENVS, s))
    ensures EnvChain(s, env) == Expand(OneOf(FindAll(ENVS, s)), s, EnvValues(FindAll(ENVS, s), env))
  {
    var toks := FindAll(ENVS, s);
    FindAllIsTokens(ENVS, s);
    FoundMatch(ENVS, s);
    SeparatedForSome(ENVS, s, toks);
    KeysInOrder(toks, s, EnvValues(toks, env));
  }

  /**
   * What becomes of a placeholder in its text when a shorter one that begins it was found before it: the value of the
   * shorter, followed by the letters it has more, stands in the place of its own value. The MySQL cluster plan is an
   * instance, with MYSQL_USER and MYSQL_USERNAME.
   */
  lemma ShorterFirstCorrupts(s: string, before: string, name: string, after: string, i: nat, env: map<string, string>)
    requires PlainEnv(env) && Separated(ENVS, s) && IsName(name) && (after == "" || !ENVS.class_.Has(after[0]))
    requires s == before + (ENV_HEAD + name + after)
    requires var toks := FindAll(ENVS, s);
             i < |toks| && ProperPrefix(toks[i], ENV_HEAD + name) &&
                 forall u :: u in toks[..i] ==> !(u <= ENV_HEAD + name)
    ensures var toks := FindAll(ENVS, s);
            var g, val := OneOf(toks), EnvValues(toks, env);
            EnvChain(s, env) ==
            Expand(g, before, val) +
                (Lookup(env, EnvName(toks[i])) + ((ENV_HEAD + name)[|toks[i]|..] + Expand(g, after, val)))
  {
    var toks, t := FindAll(ENVS, s), ENV_HEAD + name;
    EnvsInOrder(s, env);
    FoundMatch(ENVS, s);
    NameIsPlain(name);
    FirstKeyIs(toks, t, i);
    NamesEnd(toks, name, after);
    KeyInText(toks, t, i, before, after, EnvValues(toks, env));
  }

  const MYSQL_USER := "MYSQL_USER"
  const MYSQL_USERNAME := "MYSQL_USERNAME"

  /**
   * The MySQL cluster plan: its mapping begins with `$env_MYSQL_USER` before a quote, and its URI has
   * `$env_MYSQL_USERNAME` before a colon. In the credentials the URI names the user MYSQL_USER with "NAME" appended,
   * whatever MYSQL_USERNAME is.
   */
  lemma MySqlUri(head: string, mid: string, tail: string, env: map<string, string>)
    requires var before := head + (ENV_HEAD + MYSQL_USER + ("\"" + mid));
             NoDollar(head) && Separated(ENVS, before + (ENV_HEAD + MYSQL_USERNAME + (":" + tail)))
    requires PlainEnv(env)
    ensures var before := head + (ENV_HEAD + MYSQL_USER + ("\"" + mid));
            var s := before + (ENV_HEAD + MYSQL_USERNAME + (":" + tail));
            var g, val := OneOf(FindAll(ENVS, s)), EnvValues(FindAll(ENVS, s), env);
            EnvChain(s, env) == Expand(g, before, val) +
                (Lookup(env, MYSQL_USER) + ("NAME" + Expand(g, ":" + tail, val)))
  {
    var more := "\"" + mid;
    var before, after := head + (ENV_HEAD + MYSQL_USER + more), ":" + tail;
    var rest := ENV_HEAD + MYSQL_USERNAME + after;
    var s := before + rest;
    NamesOfMySql();
    assert s == head + (ENV_HEAD + MYSQL_USER + (more + rest));
    FirstName(head, MYSQL_USER, more + rest);
    ShorterFirstCorrupts(s, before, MYSQL_USERNAME, after, 0, env);
  }

  lemma NamesOfMySql()
    ensures IsName(MYSQL_USER) && IsName(MYSQL_USERNAME) && EnvName(ENV_HEAD + MYSQL_USER) == MYSQL_USER
    ensures ProperPrefix(ENV_HEAD + MYSQL_USER, ENV_HEAD + MYSQL_USERNAME)
    ensures (ENV_HEAD + MYSQL_USERNAME)[|ENV_HEAD + MYSQL_USER|..] == "NAME"
  {
  }

  /** The first placeholder of a text. */
  lemma FirstName(head: string, name: string, after: string)
    requires NoDollar(head) && IsName(name) && (after == "" || !ENVS.class_.Has(after[0]))
    ensures var toks := FindAll(ENVS, head + (ENV_HEAD + name + after)); toks != [] && toks[0] == ENV_HEAD + name
  {
    MatchName(name, after);
    Stages.FindAllPlain(ENVS, head, ENV_HEAD + name + after);
  }

  lemma KeyInText(toks: seq<string>, t: string, i: nat, before: string, after: string, val: map<string, string>)
    requires AllKeys(toks) && IsKey(t) && i < |toks| && toks[i] <= t && FirstKey(toks, t + after) == |toks[i]|
    ensures Expand(OneOf(toks), before + (t + after), val) ==
            Expand(OneOf(toks), before, val) +
                (Lookup(val, toks[i]) + (t[|toks[i]|..] + Expand(OneOf(toks), after, val)))
  {
    var g, k, more := OneOf(toks), toks[i], t[|toks[i]|..];
    CutKey(t, k, after);
    Embedding.ExpandAround(g, before, k, more + after, val);
    Stages.ExpandPlain(g, more, after, val);
  }

  lemma CutKey(t: string, k: string, after: string)
    requires IsKey(t) && IsKey(k) && k <= t
    ensures t + after == k + (t[|k|..] + after) && NoDollar(t[|k|..])
  {
    KeyChars(t);
    assert forall i :: 0 <= i < |t| - |k| ==> t[|k|..][i] == t[|k|+i];
  }

  /** What follows a variable's name cannot make a longer placeholder of it. */
  lemma {:induction false} NamesEnd(toks: seq<string>, name: string, after: string)
    requires AllMatch(ENVS, toks) && IsName(name) && (after == "" || !ENVS.class_.Has(after[0]))
    ensures FirstKey(toks, ENV_HEAD + name + after) == FirstKey(toks, ENV_HEAD + name)
  {
    if toks != [] {
      var k, t := toks[0], ENV_HEAD + name;
      if k <= t + after {
        PrefixOfConcat(k, t, after);
      }
      if k <= t {
        PrefixExtends(k, t, after);
      }
      NamesEnd(toks[1..], name, after);
    }
  }

  // ---------------------------------------------------------------- the value in its place

  /** Container `j` of pod `i` defines the name, and none after it does. */
  predicate LastDefines(pods: seq<PodEnvs>, name: string, i: int, j: int) {
    && 0 <= i < |pods| && 0 <= j < |pods[i].containers| && name in pods[i].containers[j].envs
    && (forall l :: j < l < |pods[i].containers| ==> name !in pods[i].containers[l].envs)
    && (forall k :: i < k < |pods| ==> NowhereIn(pods[k].containers, name))
  }

  predicate NowhereIn(cs: seq<ContainerEnv>, name: string) {
    forall l :: 0 <= l < |cs| ==> name !in cs[l].envs
  }

  /** What the last container with the name has under it, or nothing. */
  ghost predicate ValueFrom(pods: seq<PodEnvs>, name: string, x: string) {
    && (forall i, j :: LastDefines(pods, name, i, j) ==> x == pods[i].containers[j].envs[name])
    && ((forall i :: 0 <= i < |pods| ==> NowhereIn(pods[i].containers, name)) ==> x == "")
  }

  lemma {:induction false} MergedConcat(a: seq<ContainerEnv>, b: seq<ContainerEnv>)
    ensures Merged(a + b) == Merged(a) + Merged(b)
  {
    if b == [] {
      assert a + b == a && Merged(a) + map[] == Merged(a);
    } else {
      var init, last := b[..|b|-1], b[|b|-1];
      assert (a + b)[..|a + b|-1] == a + init;
      MergedConcat(a, init);
      MapsAssoc(Merged(a), Merged(init), last.envs);
    }
  }

  lemma MapsAssoc(a: map<string, string>, b: map<string, string>, c: map<string, string>)
    ensures (a + b) + c == a + (b + c)
  {
  }

  lemma {:induction false} EnvMeaning(pods: seq<PodEnvs>, name: string)
    ensures ValueFrom(pods, name, Lookup(Merged(AllContainers(pods)), name))
  {
    if pods == [] {
      NoPods(name);
    } else {
      var init, last := pods[..|pods|-1], pods[|pods|-1];
      EnvMeaning(init, name);
      LastPod(init, last, name);
      assert pods == init + [last];
    }
  }

  lemma NoPods(name: string)
    ensures ValueFrom([], name, Lookup(Merged(AllContainers([])), name))
  {
  }

  lemma LastPod(init: seq<PodEnvs>, last: PodEnvs, name: string)
    requires ValueFrom(init, name, Lookup(Merged(AllContainers(init)), name))
    ensures ValueFrom(init + [last], name, Lookup(Merged(AllContainers(init + [last])), name))
  {
    PodAdded(init, last);
    OneMorePod(init, last, name, Merged(AllContainers(init)));
  }

  lemma PodAdded(init: seq<PodEnvs>, last: PodEnvs)
    ensures Merged(AllContainers(init + [last])) == Merged(AllContainers(init)) + Merged(last.containers)
  {
    assert (init + [last])[..|init|] == init;
    MergedConcat(AllContainers(init), last.containers);
  }

  lemma OneMorePod(init: seq<PodEnvs>, last: PodEnvs, name: string, m: map<string, string>)
    requires ValueFrom(init, name, Lookup(m, name))
    ensures ValueFrom(init + [last], name, Lookup(m + Merged(last.containers), name))
  {
    DefinedIn(last.containers, name);
    if name in Merged(last.containers) {
      LastPodDefines(init, last, name);
    } else {
      LastPodLacks(init, last, name, Lookup(m, name));
    }
  }

  lemma DefinedIn(cs: seq<ContainerEnv>, name: string)
    ensures name in Merged(cs) <==> !NowhereIn(cs, name)
  {
    MergedLastWins(cs, name);
  }

  lemma LastPodDefines(init: seq<PodEnvs>, last: PodEnvs, name: string)
    requires name in Merged(last.containers)
    ensures ValueFrom(init + [last], name, Merged(last.containers)[name])
  {
    var pods, cs := init + [last], last.containers;
    MergedLastWins(cs, name);
    assert pods[|init|] == last && !NowhereIn(cs, name);
    forall i, j | LastDefines(pods, name, i, j)
      ensures Merged(cs)[name] == pods[i].containers[j].envs[name]
    {
    }
  }

  lemma LastPodLacks(init: seq<PodEnvs>, last: PodEnvs, name: string, x: string)
    requires ValueFrom(init, name, x) && NowhereIn(last.containers, name)
    ensures ValueFrom(init + [last], name, x)
  {
    var pods := init + [last];
    assert pods[|init|] == last && forall i :: 0 <= i < |init| ==> pods[i] == init[i];
    forall i, j | LastDefines(pods, name, i, j) ensures LastDefines(init, name, i, j) {
      assert forall k :: i < k < |init| ==> init[k] == pods[k];
    }
  }

  /** A letter of the names that the expression takes. */
  predicate NameLetter(c: char) {
    'A' <= c <= 'Z' || 'a' <= c <= 'z' || c == '-' || c == '_'
  }

  /**
   * For separated placeholders with shorter ones last: in the place of `$env_` and a name, as far as its letters go,
   * stands what the last container that defines the name has under it.
   */
  lemma EnvInPlace(before: string, name: string, after: string, pods: seq<PodEnvs>) returns (x: string)
    requires NoDollar(before) && name != "" && (forall i :: 0 <= i < |name| ==> NameLetter(name[i]))
    requires after == "" || !NameLetter(after[0])
    requires PlainEnv(Merged(AllContainers(pods)))
    requires var s := before + ("$env_" + name + after); Separated(ENVS, s) && ShorterLast(FindAll(ENVS, s))
    ensures ValueFrom(pods, name, x)
    ensures var s, env := before + ("$env_" + name + after), Merged(AllContainers(pods));
            EnvChain(s, env) == before + (x + Expand(ENVS, after, EnvValues(FindAll(ENVS, s), env)))
  {
    var s, env := before + ("$env_" + name + after), Merged(AllContainers(pods));
    x := Lookup(env, name);
    EnvMeaning(pods, name);
    SeparatedEnvs(s, env);
    FirstInChain(before, name, after, env);
  }

  lemma FirstInChain(before: string, name: string, after: string, env: map<string, string>)
    requires NoDollar(before) && IsName(name) && (after == "" || !ENVS.class_.Has(after[0]))
    requires ExpandsEnv(before + (ENV_HEAD + name + after), env)
    ensures var s := before + (ENV_HEAD + name + after);
            EnvChain(s, env) == before + (Lookup(env, name) + Expand(ENVS, after, EnvValues(FindAll(ENVS, s), env)))
  {
    var s := before + (ENV_HEAD + name + after);
    var toks := FindAll(ENVS, s);
    FirstEnv(before, name, after, EnvValues(toks, env));
    Stages.RepeatToken(ENVS, before, name, after);
    FirstValue(toks, ENV_HEAD + name, FindAll(ENVS, after), env);
    NameIsPlain(name);
  }

  lemma FirstValue(toks: seq<string>, t: string, more: seq<string>, env: map<string, string>)
    requires toks == [t] + more
    ensures Lookup(EnvValues(toks, env), t) == Lookup(env, EnvName(t))
  {
    assert toks[0] == t;
  }

  lemma FirstEnv(before: string, name: string, after: string, val: map<string, string>)
    requires NoDollar(before) && IsName(name) && (after == "" || !ENVS.class_.Has(after[0]))
    ensures Expand(ENVS, before + (ENV_HEAD + name + after), val) ==
            before + (Lookup(val, ENV_HEAD + name) + Expand(ENVS, after, val))
  {
    var t := ENV_HEAD + name + after;
    Stages.ExpandPlain(ENVS, before, t, val);
    MatchName(name, after);
    ExpandStep(ENVS, t, val);
  }
}
