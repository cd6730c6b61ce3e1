/** Port placeholders of which one begins another: exactly when `parsePorts` is one substitution. */
module PortOrder {
  import opened Text
  import opened Decimal
  import opened Pieces
  import opened Scan
  import opened Stages
  import opened Embedding
  import opened Ports

  const NO_VALUES: map<string, string> := map[]

  /** The numbers of the placeholders fit. */
  predicate Readable(toks: seq<string>) {
    forall t :: t in toks ==> Atoi(Suffix(t)).Some?
  }

  /** Without service ports every placeholder resolves to nothing. */
  lemma {:induction false} NoPorts(toks: seq<string>)
    requires Readable(toks)
    ensures FirstPort(toks, []) == Ok("")
  {
    if toks != [] {
      assert toks[0] in toks;
      NoPorts(toks[1..]);
    }
  }

  lemma {:induction false} NoPortValues(toks: seq<string>, done: set<string>)
    requires Readable(toks)
    ensures PortValues(toks, done, []).Ok? &&
            forall t :: t in PortValues(toks, done, []).value ==> PortValues(toks, done, []).value[t] == ""
  {
    if toks != [] {
      WithoutElems(toks, done);
      NoPorts(Without(toks, done));
      NoPortValues(toks[1..], done + {toks[0]});
    }
  }

  // ---------------------------------------------------------------- what a new scan finds

  /** Where some placeholders were replaced by nothing, a scan finds only placeholders of the template. */
  lemma {:induction false} EmbeddedWithin(s: string, keys: seq<string>)
    requires AllMatch(PORTS, keys)
    ensures forall t :: t in EmbeddedTokens(OneOf(keys), PORTS, s, NO_VALUES) ==> t in FindAll(PORTS, s)
    decreases |s|
  {
    if s != "" {
      var n := FirstKey(keys, s);
      if n > 0 {
        EmbeddedWithin(s[n..], keys);
        WithinMatch(s, keys);
      } else {
        EmbeddedWithin(s[Step(PORTS, s)..], keys);
        TokensStep(OneOf(keys), PORTS, s, NO_VALUES);
        FindAllStep(PORTS, s);
      }
    }
  }

  /** A key is part of a placeholder, of which only digits are left. */
  lemma WithinMatch(s: string, keys: seq<string>)
    requires AllMatch(PORTS, keys) && FirstKey(keys, s) > 0
    ensures FirstKey(keys, s) <= MatchLen(PORTS, s)
    ensures FindAll(PORTS, s) == [s[..MatchLen(PORTS, s)]] + FindAll(PORTS, s[FirstKey(keys, s)..])
  {
    var n, m := FirstKey(keys, s), MatchLen(PORTS, s);
    KeysArePart(PORTS, s, keys);
    assert Matches(PORTS, s[..n]);
    LongestMatch(PORTS, s, s[m..], s[..n]);
    MatchIsKey(PORTS, s);
    RestOfKey(s, n, m);
    FindAllPlain(PORTS, s[n..m], s[m..]);
    FindAllStep(PORTS, s);
  }

  /** What a cut leaves of a key. */
  lemma RestOfKey(s: string, n: nat, m: nat)
    requires 1 <= n <= m <= |s| && IsKey(s[..m])
    ensures s[n..] == s[n..m] + s[m..] && NoDollar(s[n..m])
  {
    KeyChars(s[..m]);
    assert forall i :: 0 <= i < m - n ==> s[n..m][i] == s[..m][n+i];
  }

  lemma RescanWithin(s: string, keys: seq<string>)
    requires Separated(PORTS, s) && AllMatch(PORTS, keys) && AllKeys(keys)
    ensures forall t :: t in FindAll(PORTS, Expand(OneOf(keys), s, NO_VALUES)) ==> t in FindAll(PORTS, s)
  {
    SeparatedForSome(PORTS, s, keys);
    PlainInserts(OneOf(keys), PORTS, s, NO_VALUES);
    assert ValidPattern(PORTS);
    EmbedAll(OneOf(keys), PORTS, s, NO_VALUES);
    EmbeddedWithin(s, keys);
  }

  // ---------------------------------------------------------------- the rounds without service ports

  lemma SomeKeys(toks: seq<string>, j: nat)
    requires j <= |toks| && AllMatch(PORTS, toks) && AllKeys(toks)
    ensures AllMatch(PORTS, toks[..j]) && AllKeys(toks[..j])
  {
  }

  /** Without service ports the rounds are the chain that replaces every placeholder by nothing. */
  lemma {:induction false} RoundsAreChain(s: string, toks: seq<string>, j: nat)
    requires toks == FindAll(PORTS, s) && Separated(PORTS, s) && Readable(toks) && AllMatch(PORTS, toks) &&
             AllKeys(toks)
    requires j <= |toks|
    ensures AllKeys(toks[..j]) && AllKeys(toks[j..])
    ensures PortRounds(Chain(s, toks[..j], NO_VALUES), toks[j..], []) == Ok(Chain(s, toks, NO_VALUES))
    decreases |toks| - j
  {
    SomeKeys(toks, j);
    if j == |toks| {
      assert toks[..j] == toks;
    } else {
      ChainSnoc(s, toks, j, NO_VALUES);
      RoundsAreChain(s, toks, j + 1);
      SeparatedForSome(PORTS, s, toks[..j]);
      KeysInOrder(toks[..j], s, NO_VALUES);
      RescanWithin(s, toks[..j]);
      NoPorts(FindAll(PORTS, Chain(s, toks[..j], NO_VALUES)));
      RoundHere(Chain(s, toks[..j], NO_VALUES), toks, j);
    }
  }

  lemma RoundHere(text: string, toks: seq<string>, j: nat)
    requires j < |toks| && AllKeys(toks) && FirstPort(FindAll(PORTS, text), []) == Ok("")
    ensures AllKeys(toks[j..]) && AllKeys(toks[j+1..])
    ensures PortRounds(text, toks[j..], []) == PortRounds(ReplaceAll(text, toks[j], ""), toks[j+1..], [])
  {
    assert toks[j..][1..] == toks[j+1..];
  }

  // ---------------------------------------------------------------- what is left of the longer placeholders

  lemma {:induction false} FirstKeyWithin(keys: seq<string>, s: string, m: nat)
    requires m <= |s| && forall i :: 0 <= i < |keys| && keys[i] <= s ==> keys[i] <= s[..m]
    ensures FirstKey(keys, s) == FirstKey(keys, s[..m])
  {
    if keys != [] && !(keys[0] <= s) {
      assert !(keys[0] <= s[..m]) by { assert s[..m] <= s; }
      FirstKeyWithin(keys[1..], s, m);
    }
  }

  /** At a placeholder the first key is one that begins the placeholder. */
  lemma KeyOfToken(s: string, keys: seq<string>)
    requires AllMatch(PORTS, keys) && AllKeys(keys) && MatchLen(PORTS, s) > 0 && s[..MatchLen(PORTS, s)] in keys
    ensures 0 < FirstKey(keys, s) <= MatchLen(PORTS, s) && FirstKey(keys, s) == FirstKey(keys, s[..MatchLen(PORTS, s)])
  {
    var m := MatchLen(PORTS, s);
    forall i | 0 <= i < |keys| && keys[i] <= s ensures keys[i] <= s[..m] {
      assert s[..m] + s[m..] == s;
      LongestMatch(PORTS, s, s[m..], keys[i]);
    }
    FirstKeyWithin(keys, s, m);
    KeyFound(keys, s, s[..m]);
    WithinMatch(s, keys);
  }

  predicate SomeCut(s: string, keys: seq<string>) {
    exists t :: t in FindAll(PORTS, s) && !Whole(keys, t)
  }

  /** The chain leaves as much text as the substitution, and more when a placeholder is cut. */
  predicate LeavesMore(s: string, keys: seq<string>) {
    |Expand(OneOf(keys), s, NO_VALUES)| >= |Expand(PORTS, s, NO_VALUES)| + if SomeCut(s, keys) then 1 else 0
  }

  lemma {:induction false} CutLeavesMore(s: string, keys: seq<string>)
    requires AllMatch(PORTS, keys) && AllKeys(keys) && forall t :: t in FindAll(PORTS, s) ==> t in keys
    ensures LeavesMore(s, keys)
    decreases |s|
  {
    if s != "" {
      var m := MatchLen(PORTS, s);
      FindAllStep(PORTS, s);
      if m > 0 {
        assert s[..m] in FindAll(PORTS, s);
        forall t | t in FindAll(PORTS, s[m..]) ensures t in keys { assert t in FindAll(PORTS, s); }
        CutLeavesMore(s[m..], keys);
        CutHere(s, keys);
      } else {
        CutLeavesMore(s[1..], keys);
        KeysArePart(PORTS, s, keys);
      }
    }
  }

  lemma CutHere(s: string, keys: seq<string>)
    requires AllMatch(PORTS, keys) && AllKeys(keys) && MatchLen(PORTS, s) > 0 && s[..MatchLen(PORTS, s)] in keys
    requires LeavesMore(s[MatchLen(PORTS, s)..], keys)
    ensures LeavesMore(s, keys)
  {
    KeyOfToken(s, keys);
    CutLengths(s, keys);
    CutAmong(s, keys);
  }

  lemma CutAmong(s: string, keys: seq<string>)
    requires MatchLen(PORTS, s) > 0
    ensures SomeCut(s, keys) ==> SomeCut(s[MatchLen(PORTS, s)..], keys) || !Whole(keys, s[..MatchLen(PORTS, s)])
  {
    FindAllStep(PORTS, s);
  }

  lemma CutLengths(s: string, keys: seq<string>)
    requires AllKeys(keys) && 0 < FirstKey(keys, s) <= MatchLen(PORTS, s)
    ensures var n, m := FirstKey(keys, s), MatchLen(PORTS, s);
            && |Expand(OneOf(keys), s, NO_VALUES)| == m - n + |Expand(OneOf(keys), s[m..], NO_VALUES)|
            && |Expand(PORTS, s, NO_VALUES)| == |Expand(PORTS, s[m..], NO_VALUES)|
  {
    var n, m := FirstKey(keys, s), MatchLen(PORTS, s);
    assert ValidPattern(PORTS);
    MatchIsKey(PORTS, s);
    RestOfKey(s, n, m);
    ExpandStep(OneOf(keys), s, NO_VALUES);
    ExpandStep(PORTS, s, NO_VALUES);
    ExpandPlain(OneOf(keys), s[n..m], s[m..], NO_VALUES);
  }

  /**
   * Of separated placeholders whose numbers fit, also those of which one begins another: `parsePorts` is one
   * substitution, whatever the ports, exactly when no placeholder is a proper prefix of one that is not replaced before
   * it.
   */
  lemma PortsSubstitutedIff(s: string)
    requires Separated(PORTS, s) && Readable(FindAll(PORTS, s))
    ensures (forall ports: seq<ServicePort> ::
               ParsedPorts(s, ports) == Substituted(PORTS, s, PortValues(FindAll(PORTS, s), {}, ports))) <==>
            ShorterLast(FindAll(PORTS, s))
  {
    var toks := FindAll(PORTS, s);
    if ShorterLast(toks) {
      forall ports: seq<ServicePort>
        ensures ParsedPorts(s, ports) == Substituted(PORTS, s, PortValues(toks, {}, ports))
      {
        PortsMeaning(s, ports);
      }
    } else {
      NoPortsDiffer(s);
    }
  }

  lemma NoPortsDiffer(s: string)
    requires Separated(PORTS, s) && Readable(FindAll(PORTS, s)) && !ShorterLast(FindAll(PORTS, s))
    ensures ParsedPorts(s, []) != Substituted(PORTS, s, PortValues(FindAll(PORTS, s), {}, []))
  {
    var toks := FindAll(PORTS, s);
    assert ValidPattern(PORTS);
    FindAllIsTokens(PORTS, s);
    FoundMatch(PORTS, s);
    NoPortsChain(s, toks);
    NoPortsSubstituted(s, toks);
    WholeIffShorterLast(toks);
    CutLeavesMore(s, toks);
  }

  lemma NoPortsChain(s: string, toks: seq<string>)
    requires toks == FindAll(PORTS, s) && Separated(PORTS, s) && Readable(toks) && AllMatch(PORTS, toks) &&
             AllKeys(toks)
    ensures ParsedPorts(s, []) == Ok(Expand(OneOf(toks), s, NO_VALUES))
  {
    RoundsAreChain(s, toks, 0);
    assert toks[..0] == [] && toks[0..] == toks;
    SeparatedForSome(PORTS, s, toks);
    KeysInOrder(toks, s, NO_VALUES);
  }

  lemma NoPortsSubstituted(s: string, toks: seq<string>)
    requires toks == FindAll(PORTS, s) && Readable(toks)
    ensures Substituted(PORTS, s, PortValues(toks, {}, [])) == Ok(Expand(PORTS, s, NO_VALUES))
  {
    NoPortValues(toks, {});
    ExpandAgrees(PORTS, s, PortValues(toks, {}, []).value, NO_VALUES);
  }
}
