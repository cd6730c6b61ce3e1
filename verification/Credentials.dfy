/** Credential mappings: `ParseCredentialMappingAdvanced` of app/tap/credential_parser.go. */
module Credentials {
  import opened Text
  import opened Replacement
  import opened Embedding
  import opened Decimal
  import opened Pieces
  import opened Scan
  import opened Stages
  import opened Ports
  import opened Envs

  datatype ServiceCredential = ServiceCredential(name: string, host: string, ports: seq<ServicePort>)

  datatype Mapping = Mapping(credentialsMapping: string, replicaTemplate: string, uriTemplate: string)

  const HOSTNAME := "$hostname"
  const NODE_NAME := "$nodeName"
  const NODES := "$nodes"
  const URI := "$uri"
  const NAME := "$name"

  const HOSTS := OneOf([HOSTNAME])
  const NODE_NAMES := OneOf([NODE_NAME])
  const NAMES := OneOf([NAME])
  /** How a placeholder of the host list begins. */
  const URI_HOST := "$hostname:"
  /** `\$hostname:\$port_[0-9]+` */
  const HOST_PORT := Repeat("$hostname:$port_", Digit)

  /** The placeholders of a simple plan's mapping, and of a node template. */
  const SIMPLE := Either(HOSTS, Either(PORTS, COMMON))
  const NODE := Either(HOSTS, Either(NODE_NAMES, PORTS))
  /** The placeholders left to expand in an assembled mapping. */
  const COMMON := Either(NAMES, ENVS)

  // ---------------------------------------------------------------- the code

  function SimplePlan(template: string, creds: seq<ServiceCredential>): Result<string> {
    if creds == [] then Ok(template)
    else ParsedPorts(ReplaceAll(template, HOSTNAME, creds[0].host), creds[0].ports)
  }

  function NodeText(template: string, svc: ServiceCredential): Result<string> {
    ParsedPorts(ReplaceAll(ReplaceAll(template, HOSTNAME, svc.host), NODE_NAME, svc.name), svc.ports)
  }

  /** All the values, or the first error. */
  function AllOk(rs: seq<Result<string>>): Result<seq<string>> {
    if rs == [] then Ok([])
    else
      var init :- AllOk(rs[..|rs|-1]);
      var last :- rs[|rs|-1];
      Ok(init + [last])
  }

  function NodeResults(template: string, creds: seq<ServiceCredential>): (rs: seq<Result<string>>)
    ensures |rs| == |creds| && forall i :: 0 <= i < |creds| ==> rs[i] == NodeText(template, creds[i])
  {
    seq(|creds|, i requires 0 <= i < |creds| => NodeText(template, creds[i]))
  }

  function NodeTexts(template: string, creds: seq<ServiceCredential>): Result<seq<string>> {
    AllOk(NodeResults(template, creds))
  }

  /** The `host:port` of one service: the port of the first placeholder of the template that resolves. */
  function HostPort(template: string, svc: ServiceCredential): Result<string> {
    var port :- FirstPort(FindAll(PORTS, template), svc.ports);
    Ok(svc.host + ":" + port)
  }

  function HostResults(template: string, creds: seq<ServiceCredential>): (rs: seq<Result<string>>)
    ensures |rs| == |creds| && forall i :: 0 <= i < |creds| ==> rs[i] == HostPort(template, creds[i])
  {
    seq(|creds|, i requires 0 <= i < |creds| => HostPort(template, creds[i]))
  }

  function HostPorts(template: string, creds: seq<ServiceCredential>): Result<seq<string>> {
    AllOk(HostResults(template, creds))
  }

  /** `Regexp.ReplaceAllString`. */
  function ReplaceMatches(pat: Pattern, s: string, v: string): string {
    if s == "" then ""
    else
      var n := MatchLen(pat, s);
      if n > 0 then Replaced(v, s[..n]) + ReplaceMatches(pat, s[n..], v) else [s[0]] + ReplaceMatches(pat, s[1..], v)
  }

  function UriText(template: string, hosts: seq<string>): string {
    ReplaceMatches(HOST_PORT, template, Join(hosts, ","))
  }

  /** The mapping before the service name and the environment are filled in. */
  function Assembled(m: Mapping, creds: seq<ServiceCredential>): Result<string> {
    if m.uriTemplate != "" || m.replicaTemplate != "" then
      var hosts :- HostPorts(m.uriTemplate, creds);
      var nodes :- NodeTexts(m.replicaTemplate, creds);
      Ok(ReplaceAll(ReplaceAll(m.credentialsMapping, URI, UriText(m.uriTemplate, hosts)), NODES, Join(nodes, ",")))
    else
      SimplePlan(m.credentialsMapping, creds)
  }

  function ParsedMapping(serviceName: string, creds: seq<ServiceCredential>, env: map<string, string>,
                         m: Mapping): Result<string> {
    var text :- Assembled(m, creds);
    Ok(EnvChain(ReplaceAll(text, NAME, serviceName), env))
  }

  method ParseSvcCredsForSimplePlan(template: string, creds: seq<ServiceCredential>) returns (r: Result<string>)
    ensures r == SimplePlan(template, creds)
  {
    var text := template;
    if |creds| > 0 {
      text := ReplaceAll(text, HOSTNAME, creds[0].host);
      r := ParsePorts(text, creds[0].ports);
      return;
    }
    return Ok(text);
  }

  method ParseUriClusteredPlan(uriTemplate: string, mapping: string, creds: seq<ServiceCredential>)
    returns (r: Result<string>)
    ensures HostPorts(uriTemplate, creds).Err? ==> r.Err? && r.message == HostPorts(uriTemplate, creds).message
    ensures HostPorts(uriTemplate, creds).Ok? ==>
              r == Ok(ReplaceAll(mapping, URI, UriText(uriTemplate, HostPorts(uriTemplate, creds).value)))
  {
    var hosts: seq<string> := [];
    ghost var rs := HostResults(uriTemplate, creds);
    for i := 0 to |creds|
      invariant AllOk(rs[..i]) == Ok(hosts)
    {
      var port := GetPort(uriTemplate, creds[i].ports);
      AllOkNext(rs, i, hosts);
      if port.Err? {
        return port;
      }
      hosts := hosts + [creds[i].host + ":" + port.value];
    }
    assert rs[..|creds|] == rs;
    return Ok(ReplaceAll(mapping, URI, UriText(uriTemplate, hosts)));
  }

  lemma {:induction false} AllOkStop(rs: seq<Result<string>>, i: nat)
    requires i <= |rs| && AllOk(rs[..i]).Err?
    ensures AllOk(rs) == AllOk(rs[..i])
    decreases |rs|
  {
    if i == |rs| {
      assert rs[..i] == rs;
    } else {
      assert rs[..|rs|-1][..i] == rs[..i];
      AllOkStop(rs[..|rs|-1], i);
    }
  }

  lemma {:induction false} AllOkMeaning(rs: seq<Result<string>>)
    ensures AllOk(rs).Ok? <==> forall i :: 0 <= i < |rs| ==> rs[i].Ok?
    ensures AllOk(rs).Ok? ==> |AllOk(rs).value| == |rs| && forall i :: 0 <= i < |rs| ==> rs[i] == Ok(AllOk(rs).value[i])
  {
    if rs != [] {
      var init := rs[..|rs|-1];
      AllOkMeaning(init);
      assert forall i :: 0 <= i < |init| ==> init[i] == rs[i];
    }
  }

  /** One more result: it is added, or it is the error of the whole. */
  lemma AllOkNext(rs: seq<Result<string>>, i: nat, texts: seq<string>)
    requires i < |rs| && AllOk(rs[..i]) == Ok(texts)
    ensures rs[i].Ok? ==> AllOk(rs[..i+1]) == Ok(texts + [rs[i].value])
    ensures rs[i].Err? ==> AllOk(rs).Err? && AllOk(rs).message == rs[i].message
  {
    assert rs[..i+1][..i] == rs[..i];
    if rs[i].Err? {
      AllOkStop(rs, i + 1);
    }
  }

  method ParseSvcCredsForClusteredPlan(replicaTemplate: string, mapping: string, creds: seq<ServiceCredential>)
    returns (r: Result<string>)
    ensures NodeTexts(replicaTemplate, creds).Err? ==> r.Err? && r.message == NodeTexts(replicaTemplate, creds).message
    ensures NodeTexts(replicaTemplate, creds).Ok? ==>
              r == Ok(ReplaceAll(mapping, NODES, Join(NodeTexts(replicaTemplate, creds).value, ",")))
  {
    var replicas: seq<string> := [];
    ghost var rs := NodeResults(replicaTemplate, creds);
    for i := 0 to |creds|
      invariant AllOk(rs[..i]) == Ok(replicas)
    {
      var text := replicaTemplate;
      text := ReplaceAll(text, HOSTNAME, creds[i].host);
      text := ReplaceAll(text, NODE_NAME, creds[i].name);
      var parsed := ParsePorts(text, creds[i].ports);
      AllOkNext(rs, i, replicas);
      if parsed.Err? {
        return parsed;
      }
      replicas := replicas + [parsed.value];
    }
    assert rs[..|creds|] == rs;
    return Ok(ReplaceAll(mapping, NODES, Join(replicas, ",")));
  }

  method ParseCredentialMappingAdvanced(serviceName: string, creds: seq<ServiceCredential>, pods: seq<PodEnvs>,
                                        m: Mapping)
    returns (r: Result<string>)
    ensures r == ParsedMapping(serviceName, creds, Merged(AllContainers(pods)), m)
  {
    var parsed: Result<string> := Ok(m.credentialsMapping);
    if m.uriTemplate != "" || m.replicaTemplate != "" {
      parsed := ParseUriClusteredPlan(m.uriTemplate, parsed.value, creds);
      if parsed.Err? {
        return parsed;
      }
      parsed := ParseSvcCredsForClusteredPlan(m.replicaTemplate, parsed.value, creds);
      if parsed.Err? {
        return parsed;
      }
    } else {
      parsed := ParseSvcCredsForSimplePlan(parsed.value, creds);
      if parsed.Err? {
        return parsed;
      }
    }
    var text := ReplaceAll(parsed.value, NAME, serviceName);
    text := ParseEnvs(text, pods);
    return Ok(text);
  }

  // ---------------------------------------------------------------- meaning of the passes

  /** One replace-all is the expansion of its single key. */
  lemma {:induction false} ReplaceIsExpand(s: string, k: string, v: string, val: map<string, string>)
    requires |k| > 0 && Lookup(val, k) == v
    ensures ReplaceAll(s, k, v) == Expand(OneOf([k]), s, val)
  {
    if s != "" {
      assert [k][1..] == [];
      if k <= s {
        assert s[..|k|] == k;
        ReplaceIsExpand(s[|k|..], k, v, val);
      } else {
        ReplaceIsExpand(s[1..], k, v, val);
      }
    }
  }

  /** The two characters after the `$` of every lead are one of these pairs. */
  predicate Starts(g: Pattern, cs: set<(char, char)>) {
    forall a :: a in Leads(g) ==> |a| > 2 && (a[1], a[2]) in cs
  }

  /** The pattern is a proper one, and what its leads begin with. */
  predicate Clear(g: Pattern, cs: set<(char, char)>) {
    ValidPattern(g) && Unambiguous(g) && Starts(g, cs)
  }

  /** Patterns whose leads differ after the `$` never match at the same place. */
  lemma ClearEither(l: Pattern, cs: set<(char, char)>, r: Pattern, ds: set<(char, char)>)
    requires Clear(l, cs) && Clear(r, ds) && cs !! ds
    ensures Clear(Either(l, r), cs + ds)
  {
    forall a, b | a in Leads(l) && b in Leads(r) ensures Differ(a, b) {
      assert (a[1], a[2]) != (b[1], b[2]);
    }
    EitherIsClear(l, r);
  }

  lemma ClearKey(k: string, c: char, d: char)
    requires IsKey(k) && |k| > 2 && k[1] == c && k[2] == d
    ensures Clear(OneOf([k]), {(c, d)})
  {
  }

  lemma KeysAreClear()
    ensures Clear(HOSTS, {('h', 'o')}) && Clear(NAMES, {('n', 'a')}) && Clear(NODE_NAMES, {('n', 'o')})
  {
    ClearKey(HOSTNAME, 'h', 'o');
    ClearKey(NAME, 'n', 'a');
    ClearKey(NODE_NAME, 'n', 'o');
  }

  lemma RepeatsAreClear()
    ensures Clear(PORTS, {('p', 'o')}) && Clear(ENVS, {('e', 'n')})
  {
    assert PORT_HEAD[1] == 'p' && PORT_HEAD[2] == 'o' && ENV_HEAD[1] == 'e' && ENV_HEAD[2] == 'n';
  }

  lemma CommonIsClear()
    ensures Clear(COMMON, {('n', 'a')} + {('e', 'n')})
  {
    KeysAreClear();
    RepeatsAreClear();
    ClearEither(NAMES, {('n', 'a')}, ENVS, {('e', 'n')});
  }

  lemma SimpleIsClear()
    ensures ValidPattern(SIMPLE) && Unambiguous(SIMPLE) && ValidPattern(COMMON) && Unambiguous(COMMON)
    ensures PartOf(HOSTS, SIMPLE) && PartOf(PORTS, SIMPLE) && PartOf(NAMES, SIMPLE) && PartOf(ENVS, SIMPLE)
  {
    CommonIsClear();
    SimpleClear();
    PartsOfSimple(HOSTS, PORTS, NAMES, ENVS);
  }

  lemma SimpleClear()
    ensures Clear(SIMPLE, {('h', 'o')} + ({('p', 'o')} + ({('n', 'a')} + {('e', 'n')})))
  {
    CommonIsClear();
    KeysAreClear();
    RepeatsAreClear();
    BeginApart('h', 'p', 'n', 'e', 'o', 'o', 'a', 'n');
    ClearThree(HOSTS, {('h', 'o')}, PORTS, {('p', 'o')}, COMMON, {('n', 'a')} + {('e', 'n')});
  }

  lemma BeginApart(a: char, b: char, c: char, d: char, e: char, f: char, g: char, h: char)
    requires a != b && a != c && a != d && b != c && b != d
    ensures {(a, e)} !! {(b, f)} && {(a, e)} !! {(c, g)} + {(d, h)} && {(b, f)} !! {(c, g)} + {(d, h)}
  {
  }

  lemma ClearThree(k: Pattern, cs: set<(char, char)>, l: Pattern, ds: set<(char, char)>, r: Pattern,
                   es: set<(char, char)>)
    requires Clear(k, cs) && Clear(l, ds) && Clear(r, es) && cs !! ds && cs !! es && ds !! es
    ensures Clear(Either(k, Either(l, r)), cs + (ds + es))
  {
    ClearEither(l, ds, r, es);
    ClearEither(k, cs, Either(l, r), ds + es);
  }

  lemma PartsOfSimple(h: Pattern, p: Pattern, n: Pattern, e: Pattern)
    ensures var g := Either(h, Either(p, Either(n, e)));
            PartOf(h, g) && PartOf(p, g) && PartOf(n, g) && PartOf(e, g)
  {
    assert PartOf(n, Either(n, e)) && PartOf(e, Either(n, e));
    assert PartOf(n, Either(p, Either(n, e))) && PartOf(e, Either(p, Either(n, e)));
  }

  lemma NodeIsClear()
    ensures Clear(NODE, {('h', 'o')} + ({('n', 'o')} + {('p', 'o')}))
    ensures PartOf(HOSTS, NODE) && PartOf(NODE_NAMES, NODE) && PartOf(PORTS, NODE)
  {
    KeysAreClear();
    RepeatsAreClear();
    ClearThree(HOSTS, {('h', 'o')}, NODE_NAMES, {('n', 'o')}, PORTS, {('p', 'o')});
    assert PartOf(NODE_NAMES, Either(NODE_NAMES, PORTS)) && PartOf(PORTS, Either(NODE_NAMES, PORTS));
  }

  /** A replace-all of a single key, as one pass over a partly expanded text. */
  lemma KeyPass(k: string, g: Pattern, s: string, done: set<string>, val: map<string, string>)
    requires IsKey(k) && ValidPattern(g) && PartOf(OneOf([k]), g) && Unambiguous(g)
    requires PlainValues(val) && Separated(g, s)
    ensures ReplaceAll(Fill(Parse(g, s), done, val), k, Lookup(val, k)) ==
            Fill(Parse(g, s), done + Kind(OneOf([k]), FindAll(g, s)), val)
  {
    ReplaceIsExpand(Fill(Parse(g, s), done, val), k, Lookup(val, k), val);
    NextPass(OneOf([k]), g, s, done, val);
  }

  /** `parsePorts` as one pass over a partly expanded text. */
  lemma PortPass(g: Pattern, s: string, done: set<string>, val: map<string, string>, ports: seq<ServicePort>)
    requires ValidPattern(g) && PartOf(PORTS, g) && Unambiguous(g)
    requires PlainValues(val) && Separated(g, s) && ShorterLast(FindAll(g, s))
    requires forall t :: t in FindAll(g, s) && t in done ==> MatchLen(PORTS, t) == 0
    requires FitsPorts(FindAll(g, s), val, ports)
    ensures var r := PortValues(OfKind(PORTS, FindAll(g, s)), {}, ports);
            ParsedPorts(Fill(Parse(g, s), done, val), ports) ==
            if r.Err? then Err(r.message) else Ok(Fill(Parse(g, s), done + Kind(PORTS, FindAll(g, s)), val))
  {
    var toks, w := FindAll(g, s), Fill(Parse(g, s), done, val);
    NextPass(PORTS, g, s, done, val);
    OfKindWithout(PORTS, toks, done);
    OfKindShorterLast(PORTS, toks);
    OfKindElems(PORTS, toks);
    PortsMeaning(w, ports);
    var r := PortValues(OfKind(PORTS, toks), {}, ports);
    if r.Ok? {
      assert forall t :: t in FindAll(PORTS, w) ==> Lookup(val, t) == Lookup(r.value, t);
      ExpandAgrees(PORTS, w, val, r.value);
    }
  }

  /** `parseEnvs` as one pass over a partly expanded text. */
  lemma EnvPass(g: Pattern, s: string, done: set<string>, val: map<string, string>, env: map<string, string>)
    requires ValidPattern(g) && PartOf(ENVS, g) && Unambiguous(g)
    requires PlainValues(val) && PlainEnv(env) && Separated(g, s) && ShorterLast(FindAll(g, s))
    requires forall t :: t in FindAll(g, s) && t in done ==> MatchLen(ENVS, t) == 0
    requires FitsEnv(FindAll(g, s), val, env)
    ensures EnvChain(Fill(Parse(g, s), done, val), env) == Fill(Parse(g, s), done + Kind(ENVS, FindAll(g, s)), val)
  {
    var toks, w := FindAll(g, s), Fill(Parse(g, s), done, val);
    NextPass(ENVS, g, s, done, val);
    OfKindWithout(ENVS, toks, done);
    OfKindShorterLast(ENVS, toks);
    OfKindElems(ENVS, toks);
    SeparatedEnvs(w, env);
    ExpandAgrees(ENVS, w, val, EnvValues(FindAll(ENVS, w), env));
  }

  // ---------------------------------------------------------------- meaning of whole mappings

  /** The values of a text's placeholders: fixed keys first, then ports, then variables. */
  function Values(toks: seq<string>, fixed: map<string, string>, ports: map<string, string>, env: map<string, string>):
    map<string, string>
  {
    map t | t in Elems(toks) + fixed.Keys ::
      if t in fixed then fixed[t] else if MatchLen(PORTS, t) > 0 then Lookup(ports, t) else Lookup(env, EnvName(t))
  }

  /** The template with all its placeholders expanded at once, or the error of its ports. */
  function Meaning(g: Pattern, s: string, fixed: map<string, string>, ports: seq<ServicePort>,
                   env: map<string, string>):
    Result<string>
  {
    var toks := FindAll(g, s);
    var m :- PortValues(OfKind(PORTS, toks), {}, ports);
    Ok(Expand(g, s, Values(toks, fixed, m, env)))
  }

  /** The character after the `$` tells the kind of a placeholder. */
  lemma SecondChar(t: string)
    ensures MatchLen(HOSTS, t) > 0 ==> |t| > 1 && t[1] == 'h'
    ensures MatchLen(PORTS, t) > 0 ==> |t| > 1 && t[1] == 'p'
    ensures MatchLen(NAMES, t) > 0 ==> |t| > 1 && t[1] == 'n'
    ensures MatchLen(NODE_NAMES, t) > 0 ==> |t| > 1 && t[1] == 'n'
    ensures MatchLen(ENVS, t) > 0 ==> |t| > 1 && t[1] == 'e'
  {
    assert HOSTNAME[1] == 'h' && PORT_HEAD[1] == 'p' && NAME[1] == 'n' && NODE_NAME[1] == 'n' && ENV_HEAD[1] == 'e';
    KeyHead(HOSTNAME, t);
    KeyHead(NAME, t);
    KeyHead(NODE_NAME, t);
    RepeatHead(PORTS, t);
    RepeatHead(ENVS, t);
  }

  lemma KeyHead(k: string, t: string)
    requires |k| > 1
    ensures MatchLen(OneOf([k]), t) > 0 ==> |t| > 1 && t[1] == k[1]
  {
    assert [k][1..] == [];
  }

  lemma RepeatHead(p: Pattern, t: string)
    requires p.Repeat? && |p.head| > 1
    ensures MatchLen(p, t) > 0 ==> |t| > 1 && t[1] == p.head[1]
  {
  }

  /** A placeholder of one kind is of no kind with another second character. */
  lemma KindOnly(p: Pattern, q: Pattern, toks: seq<string>)
    requires p in {HOSTS, PORTS, NAMES, NODE_NAMES} && q in {PORTS, ENVS} && p != q
    ensures forall t :: t in Kind(p, toks) ==> MatchLen(q, t) == 0
  {
    forall t | t in Kind(p, toks) ensures MatchLen(q, t) == 0 {
      SecondChar(t);
    }
  }

  /** Fixed keys are not ports or variables. */
  lemma FixedKeys()
    ensures forall k :: k in {HOSTNAME, NAME, NODE_NAME} ==> MatchLen(PORTS, k) == 0 && MatchLen(ENVS, k) == 0
  {
    SecondChar(HOSTNAME);
    SecondChar(NAME);
    SecondChar(NODE_NAME);
    assert HOSTNAME[1] == 'h' && NAME[1] == 'n' && NODE_NAME[1] == 'n';
  }

  /** When every placeholder has been replaced, the text is the full expansion. */
  lemma AllDone(g: Pattern, s: string, done: set<string>, val: map<string, string>)
    requires forall t :: t in FindAll(g, s) ==> t in done
    ensures Fill(Parse(g, s), done, val) == Expand(g, s, val)
  {
    ExpandIsFill(g, s, done, val);
  }

  lemma SimpleKindsCover(s: string)
    ensures var toks := FindAll(SIMPLE, s);
            forall t :: t in toks ==>
              t in Kind(HOSTS, toks) || t in Kind(PORTS, toks) || t in Kind(NAMES, toks) || t in Kind(ENVS, toks)
  {
    var toks := FindAll(SIMPLE, s);
    forall t | t in toks
      ensures MatchLen(HOSTS, t) > 0 || MatchLen(PORTS, t) > 0 || MatchLen(NAMES, t) > 0 || MatchLen(ENVS, t) > 0
    {
      TokenMatches(SIMPLE, s, t);
      assert MatchLen(Either(PORTS, COMMON), t) > 0 || MatchLen(HOSTS, t) > 0;
      assert MatchLen(COMMON, t) > 0 || MatchLen(PORTS, t) > 0 || MatchLen(HOSTS, t) > 0;
    }
  }

  /**
   * The meaning of a simple plan's mapping: the four passes (host, ports, service name, variables) are one
   * simultaneous expansion of the mapping as written, or the error of its ports.
   */
  lemma SimplePlanMeaning(m: Mapping, serviceName: string, creds: seq<ServiceCredential>, env: map<string, string>)
    requires m.uriTemplate == "" && m.replicaTemplate == "" && creds != []
    requires NoDollar(serviceName) && NoDollar(creds[0].host) && PlainEnv(env)
    requires Separated(SIMPLE, m.credentialsMapping) && ShorterLast(FindAll(SIMPLE, m.credentialsMapping))
    ensures ParsedMapping(serviceName, creds, env, m) ==
            Meaning(SIMPLE, m.credentialsMapping, map["$hostname" := creds[0].host, "$name" := serviceName],
                    creds[0].ports, env)
  {
    var s, toks, host, ports := m.credentialsMapping, FindAll(SIMPLE, m.credentialsMapping), creds[0].host,
        creds[0].ports;
    var r := PortValues(OfKind(PORTS, toks), {}, ports);
    var fixed := map[HOSTNAME := host, NAME := serviceName];
    var val := Values(toks, fixed, if r.Ok? then r.value else map[], env);
    ValuesFit(toks, fixed, ports, env);
    SimpleHostsAndPorts(s, val, host, ports);
    if r.Ok? {
      SimpleNamesAndEnvs(s, val, serviceName, env);
      SimpleKindsCover(s);
      AllDone(SIMPLE, s, Kind(HOSTS, toks) + Kind(PORTS, toks) + Kind(NAMES, toks) + Kind(ENVS, toks), val);
    }
  }

  lemma ValuesFit(toks: seq<string>, fixed: map<string, string>, ports: seq<ServicePort>, env: map<string, string>)
    requires PlainValues(fixed) && PlainEnv(env) && fixed.Keys <= {HOSTNAME, NAME, NODE_NAME}
    ensures var r := PortValues(OfKind(PORTS, toks), {}, ports);
            var val := Values(toks, fixed, if r.Ok? then r.value else map[], env);
            && PlainValues(val) && FitsPorts(toks, val, ports) && FitsEnv(toks, val, env)
            && (forall k :: k in fixed ==> Lookup(val, k) == fixed[k])
  {
    var r := PortValues(OfKind(PORTS, toks), {}, ports);
    var m := if r.Ok? then r.value else map[];
    ValuesFitPorts(toks, fixed, m, env);
    ValuesFitEnv(toks, fixed, m, env);
  }

  lemma ValuesFitPorts(toks: seq<string>, fixed: map<string, string>, m: map<string, string>, env: map<string, string>)
    requires fixed.Keys <= {HOSTNAME, NAME, NODE_NAME}
    ensures var val := Values(toks, fixed, m, env);
            forall t :: t in toks && MatchLen(PORTS, t) > 0 ==> Lookup(val, t) == Lookup(m, t)
  {
    FixedKeys();
  }

  lemma ValuesFitEnv(toks: seq<string>, fixed: map<string, string>, m: map<string, string>, env: map<string, string>)
    requires fixed.Keys <= {HOSTNAME, NAME, NODE_NAME}
    ensures FitsEnv(toks, Values(toks, fixed, m, env), env)
  {
    FixedKeys();
    forall t | t in toks && MatchLen(ENVS, t) > 0
      ensures Lookup(Values(toks, fixed, m, env), t) == Lookup(env, EnvName(t))
    {
      EnvIsNoPort(t);
      ValueOf(toks, fixed, m, env, t);
    }
  }

  lemma ValueOf(toks: seq<string>, fixed: map<string, string>, m: map<string, string>, env: map<string, string>,
                t: string)
    requires t in toks && t !in fixed && MatchLen(PORTS, t) == 0
    ensures Lookup(Values(toks, fixed, m, env), t) == Lookup(env, EnvName(t))
  {
  }

  lemma EnvIsNoPort(t: string)
    requires MatchLen(ENVS, t) > 0
    ensures MatchLen(PORTS, t) == 0
  {
    SecondChar(t);
  }

  /** The placeholders of the mapping have the values that the passes give them. */
  ghost predicate FitsPorts(toks: seq<string>, val: map<string, string>, ports: seq<ServicePort>) {
    var r := PortValues(OfKind(PORTS, toks), {}, ports);
    r.Ok? ==> forall t :: t in toks && MatchLen(PORTS, t) > 0 ==> Lookup(val, t) == Lookup(r.value, t)
  }

  ghost predicate FitsEnv(toks: seq<string>, val: map<string, string>, env: map<string, string>) {
    forall t :: t in toks && MatchLen(ENVS, t) > 0 ==> Lookup(val, t) == Lookup(env, EnvName(t))
  }

  lemma SimpleHostsAndPorts(s: string, val: map<string, string>, host: string, ports: seq<ServicePort>)
    requires Separated(SIMPLE, s) && ShorterLast(FindAll(SIMPLE, s)) && PlainValues(val)
    requires Lookup(val, HOSTNAME) == host && FitsPorts(FindAll(SIMPLE, s), val, ports)
    ensures var toks := FindAll(SIMPLE, s);
            var r := PortValues(OfKind(PORTS, toks), {}, ports);
            ParsedPorts(ReplaceAll(s, HOSTNAME, host), ports) ==
            if r.Err? then Err(r.message) else Ok(Fill(Parse(SIMPLE, s), Kind(HOSTS, toks) + Kind(PORTS, toks), val))
  {
    var toks := FindAll(SIMPLE, s);
    SimpleIsClear();
    KindOnly(HOSTS, PORTS, toks);
    ParseRenders(SIMPLE, s);
    RenderAny(Parse(SIMPLE, s), val);
    KeyPass(HOSTNAME, SIMPLE, s, {}, val);
    assert {} + Kind(HOSTS, toks) == Kind(HOSTS, toks);
    PortPass(SIMPLE, s, Kind(HOSTS, toks), val, ports);
  }

  lemma SimpleNamesAndEnvs(s: string, val: map<string, string>, name: string, env: map<string, string>)
    requires Separated(SIMPLE, s) && ShorterLast(FindAll(SIMPLE, s)) && PlainValues(val) && PlainEnv(env)
    requires Lookup(val, NAME) == name
    requires FitsEnv(FindAll(SIMPLE, s), val, env)
    ensures var toks := FindAll(SIMPLE, s);
            var done := Kind(HOSTS, toks) + Kind(PORTS, toks);
            EnvChain(ReplaceAll(Fill(Parse(SIMPLE, s), done, val), NAME, name), env) ==
            Fill(Parse(SIMPLE, s), done + Kind(NAMES, toks) + Kind(ENVS, toks), val)
  {
    var toks := FindAll(SIMPLE, s);
    var done := Kind(HOSTS, toks) + Kind(PORTS, toks);
    SimpleIsClear();
    KindOnly(HOSTS, ENVS, toks);
    KindOnly(PORTS, ENVS, toks);
    KindOnly(NAMES, ENVS, toks);
    KeyPass(NAME, SIMPLE, s, done, val);
    EnvPass(SIMPLE, s, done + Kind(NAMES, toks), val, env);
  }

  /** The meaning of one node: its template with the host, name and ports of its own service. */
  lemma NodeMeaning(template: string, svc: ServiceCredential)
    requires NoDollar(svc.host) && NoDollar(svc.name)
    requires Separated(NODE, template) && ShorterLast(FindAll(NODE, template))
    ensures NodeText(template, svc) ==
            Meaning(NODE, template, map["$hostname" := svc.host, "$nodeName" := svc.name], svc.ports, map[])
  {
    NodeExpands(template, svc, map[HOSTNAME := svc.host, NODE_NAME := svc.name]);
  }

  lemma NodeExpands(template: string, svc: ServiceCredential, fixed: map<string, string>)
    requires NoDollar(svc.host) && NoDollar(svc.name) && fixed == map[HOSTNAME := svc.host, NODE_NAME := svc.name]
    requires Separated(NODE, template) && ShorterLast(FindAll(NODE, template))
    ensures NodeText(template, svc) == Meaning(NODE, template, fixed, svc.ports, map[])
  {
    var toks := FindAll(NODE, template);
    var r := PortValues(OfKind(PORTS, toks), {}, svc.ports);
    var val := Values(toks, fixed, if r.Ok? then r.value else map[], map[]);
    NodeValues(toks, svc, fixed);
    NodePasses(template, val, svc);
    NodeFilled(template, val);
  }

  lemma NodeValues(toks: seq<string>, svc: ServiceCredential, fixed: map<string, string>)
    requires NoDollar(svc.host) && NoDollar(svc.name) && fixed == map[HOSTNAME := svc.host, NODE_NAME := svc.name]
    ensures var r := PortValues(OfKind(PORTS, toks), {}, svc.ports);
            var val := Values(toks, fixed, if r.Ok? then r.value else map[], map[]);
            && PlainValues(val) && FitsPorts(toks, val, svc.ports)
            && Lookup(val, HOSTNAME) == svc.host && Lookup(val, NODE_NAME) == svc.name
  {
    assert fixed[HOSTNAME] == svc.host && fixed[NODE_NAME] == svc.name;
    ValuesFit(toks, fixed, svc.ports, map[]);
  }

  lemma NodeFilled(s: string, val: map<string, string>)
    ensures var toks := FindAll(NODE, s);
            Fill(Parse(NODE, s), Kind(HOSTS, toks) + Kind(NODE_NAMES, toks) + Kind(PORTS, toks), val) ==
            Expand(NODE, s, val)
  {
    var toks := FindAll(NODE, s);
    NodeKindsCover(s);
    AllDone(NODE, s, Kind(HOSTS, toks) + Kind(NODE_NAMES, toks) + Kind(PORTS, toks), val);
  }

  lemma NodePasses(s: string, val: map<string, string>, svc: ServiceCredential)
    requires Separated(NODE, s) && ShorterLast(FindAll(NODE, s)) && PlainValues(val)
    requires Lookup(val, HOSTNAME) == svc.host && Lookup(val, NODE_NAME) == svc.name
    requires FitsPorts(FindAll(NODE, s), val, svc.ports)
    ensures var toks := FindAll(NODE, s);
            var r := PortValues(OfKind(PORTS, toks), {}, svc.ports);
            NodeText(s, svc) ==
            if r.Err? then Err(r.message)
            else Ok(Fill(Parse(NODE, s), Kind(HOSTS, toks) + Kind(NODE_NAMES, toks) + Kind(PORTS, toks), val))
  {
    var toks := FindAll(NODE, s);
    NodeIsClear();
    KindOnly(HOSTS, PORTS, toks);
    KindOnly(NODE_NAMES, PORTS, toks);
    NodeKeys(s, val, svc);
    PortPass(NODE, s, Kind(HOSTS, toks) + Kind(NODE_NAMES, toks), val, svc.ports);
  }

  lemma NodeKeys(s: string, val: map<string, string>, svc: ServiceCredential)
    requires Separated(NODE, s) && PlainValues(val)
    requires Lookup(val, HOSTNAME) == svc.host && Lookup(val, NODE_NAME) == svc.name
    ensures var toks := FindAll(NODE, s);
            ReplaceAll(ReplaceAll(s, HOSTNAME, svc.host), NODE_NAME, svc.name) ==
            Fill(Parse(NODE, s), Kind(HOSTS, toks) + Kind(NODE_NAMES, toks), val)
  {
    NodeIsClear();
    assert IsKey(HOSTNAME) && IsKey(NODE_NAME);
    TwoKeys(NODE, s, HOSTNAME, NODE_NAME, val);
  }

  lemma TwoKeys(g: Pattern, s: string, k: string, l: string, val: map<string, string>)
    requires ValidPattern(g) && Unambiguous(g) && Separated(g, s) && PlainValues(val)
    requires IsKey(k) && IsKey(l) && PartOf(OneOf([k]), g) && PartOf(OneOf([l]), g)
    ensures var toks := FindAll(g, s);
            ReplaceAll(ReplaceAll(s, k, Lookup(val, k)), l, Lookup(val, l)) ==
            Fill(Parse(g, s), Kind(OneOf([k]), toks) + Kind(OneOf([l]), toks), val)
  {
    var toks := FindAll(g, s);
    ParseRenders(g, s);
    RenderAny(Parse(g, s), val);
    KeyPass(k, g, s, {}, val);
    assert {} + Kind(OneOf([k]), toks) == Kind(OneOf([k]), toks);
    KeyPass(l, g, s, Kind(OneOf([k]), toks), val);
  }

  lemma NodeKindsCover(s: string)
    ensures var toks := FindAll(NODE, s);
            forall t :: t in toks ==> t in Kind(HOSTS, toks) || t in Kind(NODE_NAMES, toks) || t in Kind(PORTS, toks)
  {
    var toks := FindAll(NODE, s);
    forall t | t in toks
      ensures MatchLen(HOSTS, t) > 0 || MatchLen(NODE_NAMES, t) > 0 || MatchLen(PORTS, t) > 0
    {
      TokenMatches(NODE, s, t);
      assert MatchLen(Either(NODE_NAMES, PORTS), t) > 0 || MatchLen(HOSTS, t) > 0;
    }
  }

  function NodeMeaningOf(template: string, svc: ServiceCredential): Result<string> {
    Meaning(NODE, template, map[HOSTNAME := svc.host, NODE_NAME := svc.name], svc.ports, map[])
  }

  /**
   * The node list of a clustered plan has exactly one instance of the node template per service, in the
   * order of the services, each with that service's host, name and ports; it fails iff one of them does.
   */
  lemma NodesMeaning(template: string, creds: seq<ServiceCredential>)
    requires forall svc :: svc in creds ==> NoDollar(svc.host) && NoDollar(svc.name)
    requires Separated(NODE, template) && ShorterLast(FindAll(NODE, template))
    ensures NodeTexts(template, creds).Ok? <==>
            forall i :: 0 <= i < |creds| ==> NodeMeaningOf(template, creds[i]).Ok?
    ensures NodeTexts(template, creds).Ok? ==>
              var nodes := NodeTexts(template, creds).value;
              |nodes| == |creds| && forall i :: 0 <= i < |creds| ==> NodeMeaningOf(template, creds[i]) == Ok(nodes[i])
  {
    AllOkMeaning(NodeResults(template, creds));
    forall i | 0 <= i < |creds| ensures NodeText(template, creds[i]) == NodeMeaningOf(template, creds[i]) {
      NodeMeaning(template, creds[i]);
    }
  }

  /**
   * The host list of the URI has the same length and order: one `host:port` per service, where the port is that of the
   * first placeholder of the template that resolves among the service's own ports, or empty.
   */
  lemma HostsMeaning(template: string, creds: seq<ServiceCredential>)
    ensures HostPorts(template, creds).Ok? <==>
            forall i :: 0 <= i < |creds| ==> FirstPort(FindAll(PORTS, template), creds[i].ports).Ok?
    ensures HostPorts(template, creds).Ok? ==>
              var hosts := HostPorts(template, creds).value;
              |hosts| == |creds| &&
              forall i :: 0 <= i < |creds| ==>
                  hosts[i] == creds[i].host + ":" + FirstOwn(FindAll(PORTS, template), creds[i].ports)
  {
    AllOkMeaning(HostResults(template, creds));
    forall i | 0 <= i < |creds| && FirstPort(FindAll(PORTS, template), creds[i].ports).Ok?
      ensures FirstPort(FindAll(PORTS, template), creds[i].ports).value ==
              FirstOwn(FindAll(PORTS, template), creds[i].ports)
    {
      FirstPortIsOwn(FindAll(PORTS, template), creds[i].ports);
    }
  }

  /** A template that names one port, however often: each host stands with its own service's NodePort for it. */
  lemma OnePortHosts(template: string, creds: seq<ServiceCredential>, t: string)
    requires t in FindAll(PORTS, template) && (forall u :: u in FindAll(PORTS, template) ==> u == t)
    requires HostPorts(template, creds).Ok?
    ensures var hosts := HostPorts(template, creds).value;
            |hosts| == |creds| &&
                forall i :: 0 <= i < |creds| ==> hosts[i] == creds[i].host + ":" + OwnPort(t, creds[i].ports)
  {
    HostsMeaning(template, creds);
    forall i | 0 <= i < |creds|
      ensures FirstOwn(FindAll(PORTS, template), creds[i].ports) == OwnPort(t, creds[i].ports)
    {
      FirstOwnOfOne(FindAll(PORTS, template), t, creds[i].ports);
    }
  }

  // ---------------------------------------------------------------- assembling a clustered mapping

  const INSERTS := OneOf([URI, NODES])

  /** No `$` of the text begins `k` or could come to begin it. */
  predicate Inert(u: string, k: string) {
    u == "" ||
    ((u[0] == '$' ==> !(k <= HeadSegment(u)) && !(HeadSegment(u) <= k)) && Inert(u[1..], k))
  }

  lemma {:induction false} ReplaceInert(u: string, x: string, k: string, v: string)
    requires IsKey(k) && Inert(u, k)
    ensures ReplaceAll(u + x, k, v) == u + ReplaceAll(x, k, v)
  {
    if u == "" {
      assert u + x == x;
    } else {
      ReplaceInert(u[1..], x, k, v);
      NoKeyHere(u, x, k);
      HeadTail(u, x);
      ReplaceStep(u + x, k, v);
      ConcatHead(u, ReplaceAll(x, k, v));
    }
  }

  lemma NoKeyHere(u: string, x: string, k: string)
    requires IsKey(k) && u != "" && Inert(u, k)
    ensures !(k <= u + x)
  {
    if u[0] == '$' {
      InertHead(u, x, k);
    } else {
      HeadTail(u, x);
    }
  }

  /** What the host list does to a text in which no placeholder can begin, and at a placeholder. */
  lemma {:induction false} UriPlain(u: string, x: string, hosts: seq<string>)
    requires Inert(u, URI_HOST)
    ensures UriText(u + x, hosts) == u + UriText(x, hosts)
  {
    if u == "" {
      assert u + x == x;
    } else {
      UriPlain(u[1..], x, hosts);
      NoUriHere(u, x);
      UriStep(u, x, hosts);
      ConcatHead(u, UriText(x, hosts));
    }
  }

  lemma UriStep(u: string, x: string, hosts: seq<string>)
    requires u != "" && MatchLen(HOST_PORT, u + x) == 0
    ensures UriText(u + x, hosts) == [u[0]] + UriText(u[1..] + x, hosts)
  {
    assert (u + x)[0] == u[0] && (u + x)[1..] == u[1..] + x;
  }

  lemma PrefixOfPrefix(k: string, head: string, s: string)
    requires k <= head && head <= s
    ensures k <= s
  {
  }

  /** A text in which `k` cannot begin holds no beginning of a longer head either. */
  lemma NoHeadHere(u: string, x: string, k: string, head: string)
    requires u != "" && IsKey(k) && k <= head && Inert(u, k)
    ensures !(head <= u + x)
  {
    if u[0] == '$' {
      InertHead(u, x, k);
    } else {
      assert (u + x)[0] == u[0] && k[0] == '$';
    }
    if head <= u + x {
      PrefixOfPrefix(k, head, u + x);
    }
  }

  lemma NoUriHere(u: string, x: string)
    requires u != "" && Inert(u, URI_HOST)
    ensures MatchLen(HOST_PORT, u + x) == 0
  {
    UriHostIsKey();
    NoHeadHere(u, x, URI_HOST, HOST_PORT.head);
  }

  lemma UriHostIsKey()
    ensures IsKey(URI_HOST) && URI_HOST <= HOST_PORT.head
  {
  }

  /**
   * The meaning of the URI template: each `$hostname:$port_N` is replaced by the whole list of hosts, and the text
   * before it, which may hold other placeholders, stays.
   */
  lemma UriMeaning(before: string, digits: string, after: string, hosts: seq<string>)
    requires Inert(before, URI_HOST) && digits != "" && AllDigits(digits) && (after == "" || !IsDigit(after[0]))
    requires forall h :: h in hosts ==> NoDollar(h)
    ensures UriText(before + ("$hostname:$port_" + (digits + after)), hosts) ==
            before + (Join(hosts, ",") + UriText(after, hosts))
  {
    UriReplaced(before, digits, after, hosts);
    JoinPlain(hosts);
    ReplacedPlain(Join(hosts, ","), "$hostname:$port_" + digits);
  }

  /** With any hosts: what stands there is the list with its references expanded. */
  lemma UriReplaced(before: string, digits: string, after: string, hosts: seq<string>)
    requires Inert(before, URI_HOST) && digits != "" && AllDigits(digits) && (after == "" || !IsDigit(after[0]))
    ensures UriText(before + ("$hostname:$port_" + (digits + after)), hosts) ==
            before + (Replaced(Join(hosts, ","), "$hostname:$port_" + digits) + UriText(after, hosts))
  {
    var s := HOST_PORT.head + (digits + after);
    UriPlain(before, s, hosts);
    HostPortHere(digits, after);
    UriAtMatch(s, hosts);
    assert s[..|HOST_PORT.head + digits|] == HOST_PORT.head + digits;
  }

  /**
   * Behind the text before it, the URI has one list, whose parts at the commas are one `host:port` per service,
   * in order.
   */
  lemma UriHosts(before: string, digits: string, after: string, creds: seq<ServiceCredential>) returns (list: string)
    requires Inert(before, "$hostname:") && digits != "" && AllDigits(digits) && (after == "" || !IsDigit(after[0]))
    requires creds != [] && forall svc :: svc in creds ==> NoDollar(svc.host) && ',' !in svc.host
    requires HostPorts(before + ("$hostname:$port_" + (digits + after)), creds).Ok?
    ensures var template := before + ("$hostname:$port_" + (digits + after));
            var hosts := HostPorts(template, creds).value;
            && UriText(template, hosts) == before + (list + UriText(after, hosts))
            && |SplitOn(list, ',')| == |creds|
            && forall i :: 0 <= i < |creds| ==>
                 SplitOn(list, ',')[i] == creds[i].host + ":" + FirstOwn(FindAll(PORTS, template), creds[i].ports)
  {
    var template := before + ("$hostname:$port_" + (digits + after));
    var hosts := HostPorts(template, creds).value;
    HostsMeaning(template, creds);
    forall i | 0 <= i < |hosts| ensures NoDollar(hosts[i]) && ',' !in hosts[i] {
      FirstOwnDigits(FindAll(PORTS, template), creds[i].ports);
      assert creds[i] in creds;
    }
    list := Join(hosts, ",");
    SplitOfJoin(hosts, ',');
    UriMeaning(before, digits, after, hosts);
  }

  lemma {:induction false} FirstOwnDigits(toks: seq<string>, ports: seq<ServicePort>)
    ensures AllDigits(FirstOwn(toks, ports)) && NoDollar(FirstOwn(toks, ports)) && ',' !in FirstOwn(toks, ports)
  {
    if toks != [] {
      OwnIsDigits(toks[0], ports);
      FirstOwnDigits(toks[1..], ports);
    }
  }

  /**
   * In a mapping, the place of `$nodes` takes the text of every service, one after the other with one comma
   * between.
   */
  lemma NodesInPlace(before: string, after: string, template: string, creds: seq<ServiceCredential>, i: nat)
    returns (list: string)
    requires NoDollar(before) && i < |creds| && NodeTexts(template, creds).Ok?
    ensures var nodes := NodeTexts(template, creds).value;
            && |nodes| == |creds| && NodeText(template, creds[i]) == Ok(nodes[i])
            && ReplaceAll(before + ("$nodes" + after), NODES, Join(nodes, ",")) ==
               before + (list + ReplaceAll(after, NODES, Join(nodes, ",")))
            && StandsAt(list, nodes, ',', i)
  {
    var nodes := NodeTexts(template, creds).value;
    AllOkMeaning(NodeResults(template, creds));
    list := Join(nodes, ",");
    JoinAt(nodes, ',', i);
    InsertKeys();
    ReplacePlain(before, "$nodes" + after, NODES, list);
    ReplaceHit(after, NODES, list);
  }

  lemma UriAtMatch(s: string, hosts: seq<string>)
    requires MatchLen(HOST_PORT, s) > 0
    ensures var n := MatchLen(HOST_PORT, s);
            UriText(s, hosts) == Replaced(Join(hosts, ","), s[..n]) + UriText(s[n..], hosts)
  {
  }

  lemma HostPortHere(digits: string, after: string)
    requires digits != "" && AllDigits(digits) && (after == "" || !IsDigit(after[0]))
    ensures var s, n := HOST_PORT.head + (digits + after), |HOST_PORT.head| + |digits|;
            MatchLen(HOST_PORT, s) == n && s[n..] == after
  {
    RepeatMatches(HOST_PORT, digits, after);
    assert HOST_PORT.head + digits + after == HOST_PORT.head + (digits + after);
  }

  lemma {:induction false} JoinPlain(hosts: seq<string>)
    requires forall h :: h in hosts ==> NoDollar(h)
    ensures NoDollar(Join(hosts, ","))
  {
    if hosts != [] {
      assert hosts[0] in hosts;
      JoinPlain(hosts[1..]);
    }
  }

  lemma InertHead(u: string, x: string, k: string)
    requires IsKey(k) && u != "" && u[0] == '$'
    requires !(k <= HeadSegment(u)) && !(HeadSegment(u) <= k)
    ensures !(k <= u + x)
  {
    PrefixExtends(HeadSegment(u), u, x);
    if k <= u + x {
      PrefixesCompare(k, HeadSegment(u), u + x);
    }
  }

  lemma InsertKeys()
    ensures IsKey(URI) && IsKey(NODES) && !(URI <= NODES) && !(NODES <= URI) && ValidPattern(INSERTS)
  {
    assert URI[1] == 'u' && NODES[1] == 'n';
  }

  lemma InsertMatch(s: string)
    ensures MatchLen(INSERTS, s) == if URI <= s then |URI| else if NODES <= s then |NODES| else 0
  {
    assert [URI, NODES][1..] == [NODES] && [NODES][1..] == [];
    assert FirstKey([NODES], s) == if NODES <= s then |NODES| else 0;
  }

  /** A `$` that begins neither insert begins none after the URI is inserted. */
  lemma NoInsertHere(s: string, u: string)
    requires s != "" && s[0] == '$' && Separated(INSERTS, s) && !(URI <= s) && !(NODES <= s)
    ensures !(NODES <= ReplaceAll(s, URI, u))
  {
    InsertKeys();
    InsertMatch(s);
    var seg := HeadSegment(s);
    var t := s[|seg|..];
    TakeDrop(s, |seg|);
    PrefixExtendsNot(URI, seg, t);
    ReplaceMiss(seg, t, URI, u);
    PrefixExtendsNot(NODES, seg, t);
    InsertMatch(t);
    assert t == "" || t[0] == '$';
    if NODES <= seg + ReplaceAll(t, URI, u) {
      KeyChars(NODES);
      PrefixOfConcat(NODES, seg, ReplaceAll(t, URI, u));
      assert ProperPrefix(seg, INSERTS.keys[1]);
    }
  }

  lemma PrefixExtendsNot(k: string, s: string, t: string)
    ensures !(k <= s + t) ==> !(k <= s)
  {
    if k <= s {
      PrefixExtends(k, s, t);
    }
  }

  /** Inserting the URI and then the node list is one expansion of the two, whatever they contain. */
  lemma {:induction false} AssemblyMeaning(s: string, u: string, nodes: string)
    requires Separated(INSERTS, s) && Inert(u, NODES)
    ensures ReplaceAll(ReplaceAll(s, URI, u), NODES, nodes) == Expand(INSERTS, s, map["$uri" := u, "$nodes" := nodes])
  {
    InsertKeys();
    InsertMatch(s);
    if s != "" {
      if URI <= s {
        assert s[..|URI|] == URI;
        SeparatedDrop(INSERTS, s, |URI|);
        AssemblyMeaning(s[|URI|..], u, nodes);
        ReplaceInert(u, ReplaceAll(s[|URI|..], URI, u), NODES, nodes);
      } else if NODES <= s {
        var t := s[|NODES|..];
        assert s[..|NODES|] == NODES && s == NODES + t;
        SeparatedDrop(INSERTS, s, |NODES|);
        AssemblyMeaning(t, u, nodes);
        ReplaceMiss(NODES, t, URI, u);
        ReplaceHit(ReplaceAll(t, URI, u), NODES, nodes);
      } else {
        AssemblyMeaning(s[1..], u, nodes);
        var x := ReplaceAll(s[1..], URI, u);
        if s[0] == '$' {
          NoInsertHere(s, u);
        }
        assert ([s[0]] + x)[1..] == x;
      }
    }
  }

  /** The last two passes, over any text. */
  lemma CommonMeaning(s: string, name: string, env: map<string, string>)
    requires NoDollar(name) && PlainEnv(env) && Separated(COMMON, s) && ShorterLast(FindAll(COMMON, s))
    ensures EnvChain(ReplaceAll(s, NAME, name), env) ==
            Expand(COMMON, s, Values(FindAll(COMMON, s), map[NAME := name], map[], env))
  {
    var toks := FindAll(COMMON, s);
    var val := Values(toks, map[NAME := name], map[], env);
    ValuesFitEnv(toks, map[NAME := name], map[], env);
    CommonPasses(s, name, val, env);
    CommonKindsCover(s);
    AllDone(COMMON, s, Kind(NAMES, toks) + Kind(ENVS, toks), val);
  }

  lemma CommonPasses(s: string, name: string, val: map<string, string>, env: map<string, string>)
    requires PlainValues(val) && PlainEnv(env) && Separated(COMMON, s) && ShorterLast(FindAll(COMMON, s))
    requires Lookup(val, NAME) == name && FitsEnv(FindAll(COMMON, s), val, env)
    ensures EnvChain(ReplaceAll(s, NAME, name), env) ==
            Fill(Parse(COMMON, s), Kind(NAMES, FindAll(COMMON, s)) + Kind(ENVS, FindAll(COMMON, s)), val)
  {
    var toks := FindAll(COMMON, s);
    SimpleIsClear();
    KindOnly(NAMES, ENVS, toks);
    ParseRenders(COMMON, s);
    RenderAny(Parse(COMMON, s), val);
    KeyPass(NAME, COMMON, s, {}, val);
    assert {} + Kind(NAMES, toks) == Kind(NAMES, toks);
    EnvPass(COMMON, s, Kind(NAMES, toks), val, env);
  }

  lemma CommonKindsCover(s: string)
    ensures var toks := FindAll(COMMON, s); forall t :: t in toks ==> t in Kind(NAMES, toks) || t in Kind(ENVS, toks)
  {
    forall t | t in FindAll(COMMON, s) ensures MatchLen(NAMES, t) > 0 || MatchLen(ENVS, t) > 0 {
      CommonToken(s, t);
    }
  }

  lemma CommonToken(s: string, t: string)
    requires t in FindAll(COMMON, s)
    ensures MatchLen(NAMES, t) > 0 || MatchLen(ENVS, t) > 0
  {
    TokenMatches(COMMON, s, t);
  }

  // ---------------------------------------------------------------- exactly when

  /** The last two passes give every placeholder the value of its own. */
  ghost predicate CommonExpands(s: string, name: string, env: map<string, string>) {
    EnvChain(ReplaceAll(s, NAME, name), env) ==
    Expand(COMMON, s, Values(FindAll(COMMON, s), map[NAME := name], map[], env))
  }

  /** Whether they do is decided by the environment's placeholders alone. */
  lemma CommonIsEnvs(s: string, name: string, env: map<string, string>)
    requires NoDollar(name) && PlainEnv(env) && Separated(COMMON, s)
    ensures var r := ReplaceAll(s, NAME, name);
            && Separated(ENVS, r) && FindAll(ENVS, r) == OfKind(ENVS, FindAll(COMMON, s))
            && (CommonExpands(s, name, env) <==> ExpandsEnv(r, env))
  {
    var toks := FindAll(COMMON, s);
    var val := Values(toks, map[NAME := name], map[], env);
    ValuesFitEnv(toks, map[NAME := name], map[], env);
    NamePass(s, name, val);
    var r := ReplaceAll(s, NAME, name);
    NextPass(ENVS, COMMON, s, Kind(NAMES, toks), val);
    OfKindWithout(ENVS, toks, Kind(NAMES, toks));
    OfKindElems(ENVS, toks);
    ExpandAgrees(ENVS, r, val, EnvValues(FindAll(ENVS, r), env));
    CommonKindsCover(s);
    AllDone(COMMON, s, Kind(NAMES, toks) + Kind(ENVS, toks), val);
  }

  lemma NamePass(s: string, name: string, val: map<string, string>)
    requires PlainValues(val) && Separated(COMMON, s) && Lookup(val, NAME) == name
    ensures ValidPattern(COMMON) && Unambiguous(COMMON) && ValidPattern(ENVS) && PartOf(ENVS, COMMON)
    ensures ReplaceAll(s, NAME, name) == Fill(Parse(COMMON, s), Kind(NAMES, FindAll(COMMON, s)), val)
    ensures forall t :: t in Kind(NAMES, FindAll(COMMON, s)) ==> MatchLen(ENVS, t) == 0
  {
    var toks := FindAll(COMMON, s);
    SimpleIsClear();
    KindOnly(NAMES, ENVS, toks);
    ParseRenders(COMMON, s);
    RenderAny(Parse(COMMON, s), val);
    KeyPass(NAME, COMMON, s, {}, val);
    assert {} + Kind(NAMES, toks) == Kind(NAMES, toks);
  }

  /** A name is no proper prefix of a variable, nor the other way round. */
  lemma ShorterLastOfEnvs(toks: seq<string>)
    requires forall t :: t in toks ==> t != "" && (MatchLen(NAMES, t) == |t| || MatchLen(ENVS, t) > 0)
    requires ShorterLast(OfKind(ENVS, toks))
    ensures ShorterLast(toks)
  {
    forall i, t | 0 <= i < |toks| && t in toks && t !in toks[..i] ensures !ProperPrefix(toks[i], t) {
      SecondChar(toks[i]);
      SecondChar(t);
      if MatchLen(ENVS, toks[i]) > 0 && MatchLen(ENVS, t) > 0 {
        var k := OfKindIndex(ENVS, toks, i);
        OfKindElems(ENVS, toks);
        OfKindElems(ENVS, toks[..i]);
      } else {
        NamesAreEqual(toks[i], t);
      }
    }
  }

  lemma NamesAreEqual(t: string, u: string)
    requires MatchLen(NAMES, t) == |t| || MatchLen(NAMES, u) == |u|
    requires MatchLen(NAMES, t) == |t| || MatchLen(ENVS, t) > 0
    requires MatchLen(NAMES, u) == |u| || MatchLen(ENVS, u) > 0
    requires t != "" && u != ""
    ensures !ProperPrefix(t, u)
  {
    SecondChar(t);
    SecondChar(u);
    assert [NAME][1..] == [];
  }

  lemma TokensOfCommon(s: string)
    ensures forall t :: t in FindAll(COMMON, s) ==> t != "" && (MatchLen(NAMES, t) == |t| || MatchLen(ENVS, t) > 0)
  {
    forall t | t in FindAll(COMMON, s) ensures t != "" && (MatchLen(NAMES, t) == |t| || MatchLen(ENVS, t) > 0) {
      TokenMatches(COMMON, s, t);
      if MatchLen(NAMES, t) > 0 {
        NameToken(s, t);
      }
    }
  }

  lemma {:induction false} NameToken(s: string, t: string)
    requires t in FindAll(COMMON, s) && MatchLen(NAMES, t) > 0
    ensures MatchLen(NAMES, t) == |t|
  {
    var n := MatchLen(COMMON, s);
    if n > 0 && t == s[..n] {
      if MatchLen(NAMES, s) > 0 {
        NameLength(s);
        NameLength(t);
      } else {
        SecondChar(s);
        SecondChar(t);
      }
    } else {
      NameToken(s[Step(COMMON, s)..], t);
    }
  }

  lemma NameLength(s: string)
    requires MatchLen(NAMES, s) > 0
    ensures MatchLen(NAMES, s) == |NAME|
  {
    assert [NAME][1..] == [];
  }

  /**
   * The last two passes work for all environments exactly when no placeholder is a proper prefix of one not replaced
   * before it.
   */
  lemma CommonMeaningIff(s: string, name: string)
    requires NoDollar(name) && Separated(COMMON, s)
    ensures (forall env: map<string, string> :: PlainEnv(env) ==> CommonExpands(s, name, env)) <==>
              ShorterLast(FindAll(COMMON, s))
  {
    var r := ReplaceAll(s, NAME, name);
    assert PlainEnv(map[]);
    CommonIsEnvs(s, name, map[]);
    forall env: map<string, string> | PlainEnv(env) ensures CommonExpands(s, name, env) <==> ExpandsEnv(r, env) {
      CommonIsEnvs(s, name, env);
    }
    SeparatedEnvsIff(r);
    TokensOfCommon(s);
    if ShorterLast(FindAll(COMMON, s)) {
      OfKindShorterLast(ENVS, FindAll(COMMON, s));
    } else if ShorterLast(OfKind(ENVS, FindAll(COMMON, s))) {
      ShorterLastOfEnvs(FindAll(COMMON, s));
    }
  }

  // ---------------------------------------------------------------- clustered plans

  /** The placeholders of a clustered plan's mapping, the inserts among them. */
  const MAPPING := Either(INSERTS, COMMON)

  lemma MappingIsClear()
    ensures ValidPattern(INSERTS) && ValidPattern(COMMON) && ValidPattern(MAPPING) && Unambiguous(MAPPING)
    ensures PartOf(INSERTS, MAPPING)
  {
    InsertKeys();
    CommonIsClear();
    assert URI[1] == 'u' && URI[2] == 'r' && NODES[1] == 'n' && NODES[2] == 'o';
    assert Clear(INSERTS, {('u', 'r'), ('n', 'o')});
    ClearEither(INSERTS, {('u', 'r'), ('n', 'o')}, COMMON, {('n', 'a')} + {('e', 'n')});
  }

  function Uri(m: Mapping, creds: seq<ServiceCredential>): string
    requires HostPorts(m.uriTemplate, creds).Ok?
  {
    UriText(m.uriTemplate, HostPorts(m.uriTemplate, creds).value)
  }

  /** What is inserted into a clustered plan's mapping. */
  function Inserts(m: Mapping, creds: seq<ServiceCredential>): map<string, string>
    requires HostPorts(m.uriTemplate, creds).Ok? && NodeTexts(m.replicaTemplate, creds).Ok?
  {
    map[URI := Uri(m, creds), NODES := Join(NodeTexts(m.replicaTemplate, creds).value, ",")]
  }

  /** The mapping with the URI and the comma-joined nodes inserted at once. */
  function AssembledText(m: Mapping, creds: seq<ServiceCredential>): string
    requires HostPorts(m.uriTemplate, creds).Ok? && NodeTexts(m.replicaTemplate, creds).Ok?
  {
    Expand(INSERTS, m.credentialsMapping, Inserts(m, creds))
  }

  /** Its placeholders: those of the mapping, and in place of the inserts those of the URI and of the nodes. */
  function ClusteredTokens(m: Mapping, creds: seq<ServiceCredential>): seq<string>
    requires HostPorts(m.uriTemplate, creds).Ok? && NodeTexts(m.replicaTemplate, creds).Ok?
  {
    EmbeddedTokens(INSERTS, COMMON, m.credentialsMapping, Inserts(m, creds))
  }

  /**
   * The three texts of a clustered plan fit together: the placeholders and inserts of the mapping are separated, the
   * URI cannot begin or complete `$nodes`, and the placeholders left in the URI and in the nodes stay what they are
   * where they are inserted.
   */
  ghost predicate Fits(m: Mapping, creds: seq<ServiceCredential>) {
    && HostPorts(m.uriTemplate, creds).Ok? && NodeTexts(m.replicaTemplate, creds).Ok?
    && Separated(MAPPING, m.credentialsMapping) && Inert(Uri(m, creds), NODES)
    && InsertsFit(INSERTS, COMMON, m.credentialsMapping, Inserts(m, creds))
  }

  lemma AssembledMeaning(m: Mapping, creds: seq<ServiceCredential>)
    requires (m.uriTemplate != "" || m.replicaTemplate != "") && Fits(m, creds)
    ensures Assembled(m, creds) == Ok(AssembledText(m, creds))
    ensures Separated(COMMON, AssembledText(m, creds)) &&
            FindAll(COMMON, AssembledText(m, creds)) == ClusteredTokens(m, creds)
  {
    MappingIsClear();
    PartSeparated(INSERTS, MAPPING, m.credentialsMapping);
    AssemblyMeaning(m.credentialsMapping, Uri(m, creds), Join(NodeTexts(m.replicaTemplate, creds).value, ","));
    EmbedAll(INSERTS, COMMON, m.credentialsMapping, Inserts(m, creds));
  }

  /** A clustered plan's mapping with all its placeholders expanded at once. */
  function ClusteredText(m: Mapping, serviceName: string, creds: seq<ServiceCredential>,
                         env: map<string, string>): string
    requires HostPorts(m.uriTemplate, creds).Ok? && NodeTexts(m.replicaTemplate, creds).Ok?
  {
    Expand(COMMON, AssembledText(m, creds), Values(ClusteredTokens(m, creds), map[NAME := serviceName], map[], env))
  }

  /**
   * The meaning of a clustered plan's mapping: the URI and the comma-joined nodes inserted at once, and then the
   * service name and the variables expanded at once over the whole.
   */
  lemma ClusteredMeaning(m: Mapping, serviceName: string, creds: seq<ServiceCredential>, env: map<string, string>)
    requires (m.uriTemplate != "" || m.replicaTemplate != "") && NoDollar(serviceName) && PlainEnv(env)
    requires Fits(m, creds) && ShorterLast(ClusteredTokens(m, creds))
    ensures ParsedMapping(serviceName, creds, env, m) == Ok(ClusteredText(m, serviceName, creds, env))
  {
    AssembledMeaning(m, creds);
    CommonMeaning(AssembledText(m, creds), serviceName, env);
  }

  /**
   * For texts that fit together this is exact: the mapping means this for all environments exactly when no placeholder
   * of the three texts is a proper prefix of one not replaced before it.
   */
  lemma ClusteredMeaningIff(m: Mapping, serviceName: string, creds: seq<ServiceCredential>)
    requires (m.uriTemplate != "" || m.replicaTemplate != "") && NoDollar(serviceName) && Fits(m, creds)
    ensures (forall env: map<string, string> :: PlainEnv(env) ==>
               ParsedMapping(serviceName, creds, env, m) == Ok(ClusteredText(m, serviceName, creds, env))) <==>
            ShorterLast(ClusteredTokens(m, creds))
  {
    AssembledMeaning(m, creds);
    CommonMeaningIff(AssembledText(m, creds), serviceName);
    forall env: map<string, string>
      ensures ParsedMapping(serviceName, creds, env, m) == Ok(ClusteredText(m, serviceName, creds, env)) <==>
              CommonExpands(AssembledText(m, creds), serviceName, env)
    {
    }
  }

  // ---------------------------------------------------------------- texts that hold placeholders themselves

  /**
   * The passes come in this order: host, then ports, or the URI, then the nodes; and then name and variables. What a
   * pass inserts is seen by the later ones.
   */
  lemma PassesInTurn(name: string, env: map<string, string>, svc: ServiceCredential, m: Mapping,
                     creds: seq<ServiceCredential>)
    ensures name == "$env_A" ==> ParsedMapping(name, [], env, Mapping("$name", "", "")) == Ok(Lookup(env, "A"))
    ensures svc.host == "$port_1" && svc.ports != [] && svc.ports[0].targetPort == "1" ==>
              SimplePlan("$hostname", [svc]) == Ok(Itoa(svc.ports[0].nodePort))
    ensures m.credentialsMapping == "$uri" && (m.uriTemplate != "" || m.replicaTemplate != "")
            && HostPorts(m.uriTemplate, creds).Ok? && NodeTexts(m.replicaTemplate, creds).Ok?
            && Uri(m, creds) == "$nodes" ==>
              Assembled(m, creds) == Ok(Join(NodeTexts(m.replicaTemplate, creds).value, ","))
  {
    WholeKey("$name", "$env_A");
    if name == "$env_A" {
      OneEnv(env);
    }
    WholeKey("$hostname", "$port_1");
    if svc.host == "$port_1" && svc.ports != [] && svc.ports[0].targetPort == "1" {
      OnePort(svc.ports);
    }
    if m.credentialsMapping == "$uri" && (m.uriTemplate != "" || m.replicaTemplate != "")
       && HostPorts(m.uriTemplate, creds).Ok? && NodeTexts(m.replicaTemplate, creds).Ok? && Uri(m, creds) == "$nodes" {
      UriThenNodes(m, creds);
    }
  }

  lemma WholeKey(k: string, v: string)
    requires k != ""
    ensures ReplaceAll(k, k, v) == v
  {
    assert k + "" == k && v + "" == v;
    ReplaceHit("", k, v);
  }

  lemma OneToken(pat: Pattern, run: string, t: string)
    requires ValidPattern(pat) && pat.Repeat? && t == pat.head + run && run != ""
    requires forall i :: 0 <= i < |run| ==> pat.class_.Has(run[i])
    ensures FindAll(pat, t) == [t]
  {
    Stages.RepeatToken(pat, "", run, "");
    assert "" + (pat.head + run + "") == t && FindAll(pat, "") == [];
  }

  lemma OneEnv(env: map<string, string>)
    ensures EnvChain("$env_A", env) == Lookup(env, "A")
  {
    var t, val := "$env_A", EnvValues(["$env_A"], env);
    assert ENV_HEAD + "A" == t;
    OneToken(ENVS, "A", t);
    Envs.NameIsPlain("A");
    assert [t][..0] == [];
    assert Chain(t, [t][..0], val) == t;
    WholeKey(t, Lookup(env, "A"));
  }

  lemma OnePort(ports: seq<ServicePort>)
    requires ports != [] && ports[0].targetPort == "1"
    ensures ParsedPorts("$port_1", ports) == Ok(Itoa(ports[0].nodePort))
  {
    var t := "$port_1";
    assert PORT_HEAD + "1" == t;
    OneToken(PORTS, "1", t);
    assert PORT_HEAD + "1" == t && (PORT_HEAD + "1")[|PORT_HEAD|..] == "1";
    AtoiOne();
    WholeKey(t, Itoa(ports[0].nodePort));
    assert Ports.PortFor(1, ports) == Ok(Some(Itoa(ports[0].nodePort)));
    assert FirstPort([t], ports) == Ok(Itoa(ports[0].nodePort));
    assert [t][1..] == [] && Ports.PortRounds(Itoa(ports[0].nodePort), [], ports) == Ok(Itoa(ports[0].nodePort));
  }

  lemma AtoiOne()
    ensures Atoi("1") == Some(1)
  {
    assert "1"[..0] == "";
    assert DigitsValue("1"[..0]) == 0;
  }

  lemma UriThenNodes(m: Mapping, creds: seq<ServiceCredential>)
    requires m.credentialsMapping == "$uri" && (m.uriTemplate != "" || m.replicaTemplate != "")
    requires HostPorts(m.uriTemplate, creds).Ok? && NodeTexts(m.replicaTemplate, creds).Ok?
    requires Uri(m, creds) == "$nodes"
    ensures Assembled(m, creds) == Ok(Join(NodeTexts(m.replicaTemplate, creds).value, ","))
  {
    WholeKey("$uri", "$nodes");
    WholeKey("$nodes", Join(NodeTexts(m.replicaTemplate, creds).value, ","));
  }
}
