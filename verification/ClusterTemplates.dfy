/** Conditions on the three templates of a clustered plan under which its texts fit together, whatever the services. */
module ClusterTemplates {
  import opened Text
  import opened Decimal
  import opened Pieces
  import opened Scan
  import opened Stages
  import opened Embedding
  import opened Credentials
  import Ports
  import Replacement

  // ---------------------------------------------------------------- filling in plain values

  /** The placeholders that are not replaced stay as they are. */
  lemma {:induction false} TokensStay(i: Pattern, g: Pattern, s: string, val: map<string, string>)
    requires ValidPattern(i) && ValidPattern(g) && Unambiguous(Either(i, g)) && PlainValues(val)
    ensures EmbeddedTokens(i, g, s, val) == FindAll(g, s)
    decreases |s|
  {
    if s != "" {
      var n := MatchLen(i, s);
      if n > 0 {
        TokensStay(i, g, s[n..], val);
        InsertStay(i, g, s, val);
      } else {
        TokensStay(i, g, s[Step(g, s)..], val);
        TokensStep(i, g, s, val);
        FindAllStep(g, s);
      }
    }
  }

  lemma InsertStay(i: Pattern, g: Pattern, s: string, val: map<string, string>)
    requires ValidPattern(i) && ValidPattern(g) && Unambiguous(Either(i, g)) && PlainValues(val) && MatchLen(i, s) > 0
    requires EmbeddedTokens(i, g, s[MatchLen(i, s)..], val) == FindAll(g, s[MatchLen(i, s)..])
    ensures EmbeddedTokens(i, g, s, val) == FindAll(g, s)
  {
    SkipInsert(i, g, s);
    NoneInPlain(g, Lookup(val, s[..MatchLen(i, s)]));
  }

  lemma NoneInPlain(g: Pattern, p: string)
    requires ValidPattern(g) && NoDollar(p)
    ensures FindAll(g, p) == []
  {
    FindAllPlain(g, p, "");
    assert p + "" == p;
  }

  lemma SkipInsert(i: Pattern, g: Pattern, s: string)
    requires ValidPattern(i) && ValidPattern(g) && Unambiguous(Either(i, g)) && MatchLen(i, s) > 0
    ensures FindAll(g, s) == FindAll(g, s[MatchLen(i, s)..])
  {
    var n := MatchLen(i, s);
    NotBoth(i, g, s);
    MatchIsKey(i, s);
    KeyThenRest(s, n);
    FindAllPlain(g, s[1..n], s[n..]);
    NothingHere(g, s);
  }

  lemma NothingHere(g: Pattern, s: string)
    requires s != "" && MatchLen(g, s) == 0
    ensures FindAll(g, s) == FindAll(g, s[1..])
  {
  }

  lemma KeyThenRest(s: string, n: nat)
    requires 1 <= n <= |s| && IsKey(s[..n])
    ensures s[1..] == s[1..n] + s[n..] && NoDollar(s[1..n])
  {
    assert s[..n][1..] == s[1..n];
  }

  lemma NotBoth(i: Pattern, g: Pattern, s: string)
    requires Unambiguous(Either(i, g)) && MatchLen(i, s) > 0
    ensures MatchLen(g, s) == 0
  {
    if MatchLen(g, s) > 0 {
      OneSideOnly(i, g, s);
    }
  }

  /** What can neither hold nor begin a key still cannot. */
  lemma {:induction false} InertExpand(i: Pattern, s: string, k: string, val: map<string, string>)
    requires ValidPattern(i) && PlainValues(val) && IsKey(k) && Inert(s, k)
    ensures Inert(Expand(i, s, val), k)
    decreases |s|
  {
    if s != "" {
      if s[0] == '$' && MatchLen(i, s) == 0 {
        var seg, x := SegmentCut(s);
        InertDrop(s, |seg|, k);
        InertExpand(i, x, k, val);
        ExpandSegment(i, seg, x, val);
        InertSegment(seg, Expand(i, x, val), k);
      } else {
        var m := Step(i, s);
        InertDrop(s, m, k);
        InertExpand(i, s[m..], k, val);
        ExpandStep(i, s, val);
        InertPlain(Shown(i, s, val), Expand(i, s[m..], val), k);
      }
    }
  }

  lemma {:induction false} InertDrop(s: string, n: nat, k: string)
    requires n <= |s| && Inert(s, k)
    ensures Inert(s[n..], k)
  {
    if n > 0 {
      InertDrop(s[1..], n - 1, k);
      assert s[1..][n-1..] == s[n..];
    }
  }

  lemma {:induction false} InertPlain(p: string, x: string, k: string)
    requires NoDollar(p) && Inert(x, k)
    ensures Inert(p + x, k)
  {
    if p == "" {
      assert p + x == x;
    } else {
      InertPlain(p[1..], x, k);
      assert (p + x)[1..] == p[1..] + x && (p + x)[0] == p[0];
    }
  }

  lemma InertSegment(seg: string, y: string, k: string)
    requires IsKey(seg) && Inert(y, k) && !(k <= seg) && !(seg <= k)
    ensures Inert(seg + y, k)
  {
    SegmentOfConcat(seg, y);
    assert (seg + y)[1..] == seg[1..] + y && (seg + y)[0] == seg[0];
    InertPlain(seg[1..], y, k);
    var whole := HeadSegment(seg + y);
    if k <= whole {
      PrefixesCompare(k, seg, whole);
    }
    if whole <= k {
      PrefixTwice(seg, whole, k);
    }
  }

  lemma PrefixTwice(a: string, b: string, c: string)
    requires a <= b && b <= c
    ensures a <= c
  {
  }

  // ---------------------------------------------------------------- a filled-in template

  /** A template whose placeholders of one kind take plain values: those that are left stay separated. */
  lemma FilledIsSeparated(i: Pattern, g: Pattern, s: string, val: map<string, string>)
    requires ValidPattern(i) && ValidPattern(g) && Unambiguous(Either(i, g)) && PlainValues(val)
    requires Separated(Either(i, g), s)
    ensures Separated(g, Expand(i, s, val)) && FindAll(g, Expand(i, s, val)) == FindAll(g, s)
    ensures Separated(g, s)
  {
    PlainInserts(i, g, s, val);
    EmbedAll(i, g, s, val);
    TokensStay(i, g, s, val);
    PartSeparated(g, Either(i, g), s);
  }

  // ---------------------------------------------------------------- the URI

  /** What of the URI template is replaced: the host and the port of each pair. */
  const URI_PARTS := Either(OneOf([URI_HOST]), PORTS)

  /** In the template `$hostname:` and the port placeholders come in pairs only. */
  predicate Paired(s: string) {
    s == "" ||
    if MatchLen(HOST_PORT, s) > 0 then Paired(s[MatchLen(HOST_PORT, s)..])
    else !(URI_HOST <= s) && MatchLen(PORTS, s) == 0 && Paired(s[1..])
  }

  /** In a pair the host is nothing and the port is the list of all hosts. */
  predicate PairValues(s: string, joined: string, val: map<string, string>) {
    Lookup(val, URI_HOST) == "" && forall t :: t in FindAll(PORTS, s) ==> Lookup(val, t) == joined
  }

  /** A pair is a host and a port. */
  lemma PairSplits(s: string)
    requires MatchLen(HOST_PORT, s) > 0
    ensures var h := |URI_HOST|;
            && MatchLen(URI_PARTS, s) == h && s[..h] == URI_HOST && MatchLen(PORTS, s) == 0
            && MatchLen(URI_PARTS, s[h..]) == MatchLen(PORTS, s[h..]) == MatchLen(HOST_PORT, s) - h
            && s[h..][MatchLen(PORTS, s[h..])..] == s[MatchLen(HOST_PORT, s)..]
  {
    var h := |URI_HOST|;
    HeadIsPair();
    SplitRepeat(URI_HOST, PORT_HEAD, s);
    HostHere(s);
    NoHostHere(s[h..]);
  }

  lemma HeadIsPair()
    ensures HOST_PORT.head == URI_HOST + PORT_HEAD
  {
  }

  lemma HostHere(s: string)
    requires URI_HOST + PORT_HEAD <= s
    ensures s[..|URI_HOST|] == URI_HOST && MatchLen(URI_PARTS, s) == |URI_HOST| && MatchLen(PORTS, s) == 0
  {
    CutTwo(URI_HOST, PORT_HEAD, s);
    assert s[..|URI_HOST|] == (URI_HOST + PORT_HEAD)[..|URI_HOST|] == URI_HOST;
    HostKey(s);
    assert s[1] == URI_HOST[1] == 'h' && PORT_HEAD[1] == 'p';
  }

  lemma NoHostHere(s: string)
    requires PORT_HEAD <= s
    ensures MatchLen(URI_PARTS, s) == MatchLen(PORTS, s)
  {
    HostKey(s);
    assert s[1] == PORT_HEAD[1] == 'p' && URI_HOST[1] == 'h';
  }

  lemma HostKey(s: string)
    ensures FirstKey([URI_HOST], s) == if URI_HOST <= s then |URI_HOST| else 0
  {
    assert [URI_HOST][1..] == [];
  }

  lemma SplitRepeat(a: string, b: string, s: string)
    requires MatchLen(Repeat(a + b, Digit), s) > 0
    ensures |a| <= |s| && MatchLen(Repeat(b, Digit), s[|a|..]) == MatchLen(Repeat(a + b, Digit), s) - |a|
    ensures b <= s[|a|..] && s[|a|..][MatchLen(Repeat(a + b, Digit), s)-|a|..] == s[MatchLen(Repeat(a + b, Digit), s)..]
  {
    CutTwo(a, b, s);
    SliceSlice(s, |a|, MatchLen(Repeat(a + b, Digit), s) - |a|);
  }

  lemma CutTwo(a: string, b: string, s: string)
    requires a + b <= s
    ensures b <= s[|a|..] && s[|a|..][|b|..] == s[|a+b|..]
  {
    assert s[|a|..][..|b|] == (a + b)[|a|..] == b;
  }

  lemma {:induction false} UriIsExpand(s: string, joined: string, val: map<string, string>)
    requires Paired(s) && NoDollar(joined) && PairValues(s, joined, val)
    ensures ReplaceMatches(HOST_PORT, s, joined) == Expand(URI_PARTS, s, val)
    decreases |s|
  {
    if s != "" {
      var n := MatchLen(HOST_PORT, s);
      if n > 0 {
        PairValuesDrop(s, joined, val);
        UriIsExpand(s[n..], joined, val);
        PairExpands(s, joined, val);
        Replacement.ReplacedPlain(joined, s[..n]);
      } else {
        Unpaired(s, joined, val);
        UriIsExpand(s[1..], joined, val);
      }
    }
  }

  lemma Unpaired(s: string, joined: string, val: map<string, string>)
    requires s != "" && MatchLen(HOST_PORT, s) == 0 && !(URI_HOST <= s) && MatchLen(PORTS, s) == 0
    ensures ReplaceMatches(HOST_PORT, s, joined) == [s[0]] + ReplaceMatches(HOST_PORT, s[1..], joined)
    ensures Expand(URI_PARTS, s, val) == [s[0]] + Expand(URI_PARTS, s[1..], val)
    ensures FindAll(PORTS, s) == FindAll(PORTS, s[1..])
  {
    NoPartHere(s);
    ExpandStep(URI_PARTS, s, val);
    NoMatchStep(HOST_PORT, s, joined);
    NothingHere(PORTS, s);
  }

  lemma NoMatchStep(g: Pattern, s: string, joined: string)
    requires s != "" && MatchLen(g, s) == 0
    ensures ReplaceMatches(g, s, joined) == [s[0]] + ReplaceMatches(g, s[1..], joined)
  {
  }

  lemma NoPartHere(s: string)
    requires s != "" && !(URI_HOST <= s) && MatchLen(PORTS, s) == 0
    ensures MatchLen(URI_PARTS, s) == 0 && Step(URI_PARTS, s) == 1 && Step(PORTS, s) == 1
  {
    HostKey(s);
  }

  /** The first of the pair's ports, and those after the pair. */
  lemma PairValuesDrop(s: string, joined: string, val: map<string, string>)
    requires MatchLen(HOST_PORT, s) > 0 && PairValues(s, joined, val)
    ensures PairValues(s[MatchLen(HOST_PORT, s)..], joined, val)
    ensures var rest := s[|URI_HOST|..];
            MatchLen(PORTS, rest) > 0 && Lookup(val, rest[..MatchLen(PORTS, rest)]) == joined
  {
    PairTokens(s);
    var rest := s[|URI_HOST|..];
    assert rest[..MatchLen(PORTS, rest)] in FindAll(PORTS, s);
    assert forall t :: t in FindAll(PORTS, s[MatchLen(HOST_PORT, s)..]) ==> t in FindAll(PORTS, s);
  }

  lemma PairTokens(s: string)
    requires MatchLen(HOST_PORT, s) > 0
    ensures var rest := s[|URI_HOST|..];
            && MatchLen(PORTS, rest) > 0
            && FindAll(PORTS, s) == [rest[..MatchLen(PORTS, rest)]] + FindAll(PORTS, s[MatchLen(HOST_PORT, s)..])
  {
    PairSplits(s);
    PortAfterHost(s);
    PortsStep(s[|URI_HOST|..]);
  }

  lemma PortsStep(s: string)
    requires MatchLen(PORTS, s) > 0
    ensures FindAll(PORTS, s) == [s[..MatchLen(PORTS, s)]] + FindAll(PORTS, s[MatchLen(PORTS, s)..])
  {
  }

  lemma PortAfterHost(s: string)
    requires URI_HOST <= s
    ensures FindAll(PORTS, s) == FindAll(PORTS, s[|URI_HOST|..])
  {
    PortsUriIsClear();
    HostKey(s);
    SkipInsert(OneOf([URI_HOST]), PORTS, s);
  }

  lemma UriHostStarts()
    ensures Clear(OneOf([URI_HOST]), {('h', 'o')})
  {
    UriHostIsKey();
    ClearKey(URI_HOST, 'h', 'o');
  }

  lemma PortsUriIsClear()
    ensures Clear(URI_PARTS, {('h', 'o')} + {('p', 'o')})
  {
    UriHostStarts();
    RepeatsAreClear();
    ClearEither(OneOf([URI_HOST]), {('h', 'o')}, PORTS, {('p', 'o')});
  }

  /** A pair becomes the list. */
  lemma PairExpands(s: string, joined: string, val: map<string, string>)
    requires MatchLen(HOST_PORT, s) > 0 && Lookup(val, URI_HOST) == ""
    requires var rest := s[|URI_HOST|..]; MatchLen(PORTS, rest) > 0 ==>
               Lookup(val, rest[..MatchLen(PORTS, rest)]) == joined
    ensures Expand(URI_PARTS, s, val) == joined + Expand(URI_PARTS, s[MatchLen(HOST_PORT, s)..], val)
  {
    PairSplits(s);
    var rest := s[|URI_HOST|..];
    ExpandStep(URI_PARTS, s, val);
    ExpandStep(URI_PARTS, rest, val);
    assert "" + Expand(URI_PARTS, rest, val) == Expand(URI_PARTS, rest, val);
  }

  /** The values with which the URI template is filled in. */
  function PairMap(s: string, joined: string): map<string, string> {
    map t | t in Elems(FindAll(PORTS, s)) :: joined
  }

  lemma PairMapFits(s: string, joined: string)
    requires NoDollar(joined)
    ensures PlainValues(PairMap(s, joined)) && PairValues(s, joined, PairMap(s, joined))
  {
    assert URI_HOST[1] == 'h' && PORT_HEAD[1] == 'p';
    forall t | t in FindAll(PORTS, s) ensures t != URI_HOST {
      FindAllShape(PORTS, s, t);
    }
  }

  /** What is asked of the URI template. */
  predicate UriFits(s: string) {
    Paired(s) && Separated(Either(URI_PARTS, COMMON), s) && Inert(s, NODES)
  }

  lemma UriPartsAreClear()
    ensures ValidPattern(URI_PARTS) && ValidPattern(COMMON) && Unambiguous(Either(URI_PARTS, COMMON))
  {
    PortsUriIsClear();
    CommonIsClear();
    ClearEither(URI_PARTS, {('h', 'o')} + {('p', 'o')}, COMMON, {('n', 'a')} + {('e', 'n')});
  }

  /** The URI of a fitting template is separated, cannot become `$nodes`, and has the template's placeholders. */
  lemma UriSeparated(s: string, hosts: seq<string>)
    requires UriFits(s) && forall h :: h in hosts ==> NoDollar(h)
    ensures var u := UriText(s, hosts);
            Separated(COMMON, u) && Inert(u, NODES) && FindAll(COMMON, u) == FindAll(COMMON, s)
  {
    var joined := Join(hosts, ",");
    var val := PairMap(s, joined);
    JoinPlain(hosts);
    PairMapFits(s, joined);
    UriIsExpand(s, joined, val);
    UriPartsAreClear();
    FilledIsSeparated(URI_PARTS, COMMON, s, val);
    InsertKeys();
    InertExpand(URI_PARTS, s, NODES, val);
  }

  // ---------------------------------------------------------------- the nodes

  predicate NodeFits(s: string) {
    Separated(Either(NODE, COMMON), s) && ShorterLast(FindAll(NODE, s))
  }

  predicate PlainCreds(creds: seq<ServiceCredential>) {
    forall svc :: svc in creds ==> NoDollar(svc.host) && NoDollar(svc.name)
  }

  lemma NodeAndCommonAreClear()
    ensures ValidPattern(NODE) && ValidPattern(COMMON) && Unambiguous(Either(NODE, COMMON)) && Unambiguous(NODE)
  {
    NodeIsClear();
    CommonIsClear();
    ClearEither(NODE, {('h', 'o')} + ({('n', 'o')} + {('p', 'o')}), COMMON, {('n', 'a')} + {('e', 'n')});
  }

  /** A node of a fitting template is separated and has the template's placeholders. */
  lemma NodeSeparated(s: string, svc: ServiceCredential)
    requires NodeFits(s) && NoDollar(svc.host) && NoDollar(svc.name) && NodeText(s, svc).Ok?
    ensures var node := NodeText(s, svc).value; Separated(COMMON, node) && FindAll(COMMON, node) == FindAll(COMMON, s)
  {
    var toks, fixed := FindAll(NODE, s), map[HOSTNAME := svc.host, NODE_NAME := svc.name];
    NodeAndCommonAreClear();
    PartSeparated(NODE, Either(NODE, COMMON), s);
    NodeMeaning(s, svc);
    ValuesFit(toks, fixed, svc.ports, map[]);
    var m := Ports.PortValues(OfKind(PORTS, toks), {}, svc.ports).value;
    FilledIsSeparated(NODE, COMMON, s, Values(toks, fixed, m, map[]));
  }

  lemma NodeTemplateSeparated(s: string)
    requires NodeFits(s)
    ensures Separated(COMMON, s)
  {
    NodeAndCommonAreClear();
    PartSeparated(COMMON, Either(NODE, COMMON), s);
  }

  /** Texts with the same placeholders have the same when they are joined. */
  lemma {:induction false} JoinTokens(g: Pattern, a: seq<string>, b: seq<string>)
    requires ValidPattern(g) && Foreign(g, ',') && |a| == |b|
    requires forall i :: 0 <= i < |a| ==>
               Separated(g, a[i]) && Separated(g, b[i]) && FindAll(g, a[i]) == FindAll(g, b[i])
    ensures FindAll(g, Join(a, ",")) == FindAll(g, Join(b, ","))
  {
    if |a| > 1 {
      JoinTokens(g, a[1..], b[1..]);
      JoinSeparated(g, a);
      JoinSeparated(g, b);
    }
  }

  /** Inserted texts with the same placeholders give the same placeholders. */
  lemma {:induction false} TokensAgree(i: Pattern, g: Pattern, s: string, v: map<string, string>,
                                       w: map<string, string>)
    requires forall k :: FindAll(g, Lookup(v, k)) == FindAll(g, Lookup(w, k))
    ensures EmbeddedTokens(i, g, s, v) == EmbeddedTokens(i, g, s, w)
  {
    if s != "" {
      var n, m := MatchLen(i, s), MatchLen(g, s);
      TokensAgree(i, g, s[if n > 0 then n else if m > 0 then m else 1..], v, w);
    }
  }

  // ---------------------------------------------------------------- the three templates

  /** Behind every insert stands a character of no placeholder, such as the quote at the end of a JSON string. */
  predicate InsertsEnd(s: string) {
    s == "" ||
    var n := MatchLen(INSERTS, s);
    if n > 0 then n < |s| && Foreign(COMMON, s[n]) && InsertsEnd(s[n..]) else InsertsEnd(s[1..])
  }

  /** The templates fit together: a condition that can be checked before there are services. */
  predicate TemplatesFit(m: Mapping) {
    && Separated(MAPPING, m.credentialsMapping) && InsertsEnd(m.credentialsMapping)
    && UriFits(m.uriTemplate) && NodeFits(m.replicaTemplate)
  }

  lemma {:induction false} InsertsStand(s: string, val: map<string, string>)
    requires InsertsEnd(s) && forall k :: k in val ==> Separated(COMMON, val[k])
    ensures InsertsFit(INSERTS, COMMON, s, val)
  {
    if s != "" {
      var n := MatchLen(INSERTS, s);
      InsertsStand(s[if n > 0 then n else 1..], val);
    }
  }

  function Copies(s: string, n: nat): (r: seq<string>)
    ensures |r| == n && forall i :: 0 <= i < n ==> r[i] == s
  {
    if n == 0 then [] else [s] + Copies(s, n - 1)
  }

  /** The placeholders of the assembled text, read off the templates: the node's once per service. */
  function TemplateTokens(m: Mapping, n: nat): seq<string> {
    EmbeddedTokens(INSERTS, COMMON, m.credentialsMapping,
                   map[URI := m.uriTemplate, NODES := Join(Copies(m.replicaTemplate, n), ",")])
  }

  lemma HostsPlain(template: string, creds: seq<ServiceCredential>)
    requires PlainCreds(creds) && HostPorts(template, creds).Ok?
    ensures forall h :: h in HostPorts(template, creds).value ==> NoDollar(h)
  {
    HostsMeaning(template, creds);
    var hosts := HostPorts(template, creds).value;
    forall i | 0 <= i < |hosts| ensures NoDollar(hosts[i]) {
      FirstOwnDigits(FindAll(PORTS, template), creds[i].ports);
      assert creds[i] in creds;
    }
  }

  /**
   * Whatever the services are, as long as their hosts and names hold no `$`: what is assembled of fitting templates
   * fits.
   */
  lemma TemplatesSuffice(m: Mapping, creds: seq<ServiceCredential>)
    requires TemplatesFit(m) && PlainCreds(creds)
    requires HostPorts(m.uriTemplate, creds).Ok? && NodeTexts(m.replicaTemplate, creds).Ok?
    ensures Credentials.Fits(m, creds) && ClusteredTokens(m, creds) == TemplateTokens(m, |creds|)
  {
    UriFilled(m, creds);
    NodesFit(m, creds);
    InsertKeys();
    var u, nodes := Uri(m, creds), Join(NodeTexts(m.replicaTemplate, creds).value, ",");
    TwoStand(m.credentialsMapping, URI, NODES, u, nodes);
    TwoAgree(m.credentialsMapping, URI, NODES, u, nodes, m.uriTemplate, Join(Copies(m.replicaTemplate, |creds|), ","));
  }

  lemma TwoStand(s: string, k: string, l: string, u: string, x: string)
    requires InsertsEnd(s) && Separated(COMMON, u) && Separated(COMMON, x)
    ensures InsertsFit(INSERTS, COMMON, s, map[k := u, l := x])
  {
    InsertsStand(s, map[k := u, l := x]);
  }

  lemma TwoAgree(s: string, k: string, l: string, u: string, x: string, v: string, y: string)
    requires k != l && FindAll(COMMON, u) == FindAll(COMMON, v) && FindAll(COMMON, x) == FindAll(COMMON, y)
    ensures EmbeddedTokens(INSERTS, COMMON, s, map[k := u, l := x]) ==
            EmbeddedTokens(INSERTS, COMMON, s, map[k := v, l := y])
  {
    TokensAgree(INSERTS, COMMON, s, map[k := u, l := x], map[k := v, l := y]);
  }

  lemma CommaIsForeign()
    ensures Foreign(COMMON, ',')
  {
  }

  lemma UriFilled(m: Mapping, creds: seq<ServiceCredential>)
    requires UriFits(m.uriTemplate) && PlainCreds(creds) && HostPorts(m.uriTemplate, creds).Ok?
    ensures Separated(COMMON, Uri(m, creds)) && Inert(Uri(m, creds), NODES)
    ensures FindAll(COMMON, Uri(m, creds)) == FindAll(COMMON, m.uriTemplate)
  {
    HostsPlain(m.uriTemplate, creds);
    UriSeparated(m.uriTemplate, HostPorts(m.uriTemplate, creds).value);
  }

  lemma NodesFit(m: Mapping, creds: seq<ServiceCredential>)
    requires NodeFits(m.replicaTemplate) && PlainCreds(creds) && NodeTexts(m.replicaTemplate, creds).Ok?
    ensures var nodes := NodeTexts(m.replicaTemplate, creds).value;
            && Separated(COMMON, Join(nodes, ","))
            && FindAll(COMMON, Join(nodes, ",")) == FindAll(COMMON, Join(Copies(m.replicaTemplate, |creds|), ","))
  {
    var nodes := NodeTexts(m.replicaTemplate, creds).value;
    AllOkMeaning(NodeResults(m.replicaTemplate, creds));
    forall i | 0 <= i < |nodes|
      ensures Separated(COMMON, nodes[i]) && FindAll(COMMON, nodes[i]) == FindAll(COMMON, m.replicaTemplate)
    {
      assert creds[i] in creds;
      NodeSeparated(m.replicaTemplate, creds[i]);
    }
    NodeTemplateSeparated(m.replicaTemplate);
    CommonIsClear();
    CommaIsForeign();
    JoinSeparated(COMMON, nodes);
    JoinTokens(COMMON, nodes, Copies(m.replicaTemplate, |creds|));
  }

  // ---------------------------------------------------------------- the ports of the services

  /** Every port of every service has a numeric target. */
  predicate NumericTargets(creds: seq<ServiceCredential>) {
    forall svc :: svc in creds ==> forall p :: p in svc.ports ==> Atoi(p.targetPort).Some?
  }

  /** The numbers of the templates' port placeholders fit. */
  predicate NumericTemplates(m: Mapping) {
    && (forall t :: t in FindAll(PORTS, m.uriTemplate) ==> Atoi(Ports.Suffix(t)).Some?)
    && (forall t :: t in FindAll(NODE, m.replicaTemplate) && MatchLen(PORTS, t) > 0 ==> Atoi(Ports.Suffix(t)).Some?)
  }

  /** With readable numbers every host and every node has its ports. */
  lemma NumericAssembles(m: Mapping, creds: seq<ServiceCredential>)
    requires TemplatesFit(m) && PlainCreds(creds) && NumericTargets(creds) && NumericTemplates(m)
    ensures HostPorts(m.uriTemplate, creds).Ok? && NodeTexts(m.replicaTemplate, creds).Ok?
  {
    HostsMeaning(m.uriTemplate, creds);
    NodeAndCommonAreClear();
    PartSeparated(NODE, Either(NODE, COMMON), m.replicaTemplate);
    NodesMeaning(m.replicaTemplate, creds);
    var toks := FindAll(NODE, m.replicaTemplate);
    OfKindElems(PORTS, toks);
    forall i | 0 <= i < |creds|
      ensures Ports.FirstPort(FindAll(PORTS, m.uriTemplate), creds[i].ports).Ok? &&
              NodeMeaningOf(m.replicaTemplate, creds[i]).Ok?
    {
      assert creds[i] in creds;
      Ports.NumericFirstPort(FindAll(PORTS, m.uriTemplate), creds[i].ports);
      Ports.NumericIsOk(OfKind(PORTS, toks), {}, creds[i].ports);
    }
  }
}
