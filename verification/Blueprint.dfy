/** Turning a blueprint into objects: `adjust_params` of catalog/kubernetes_service_blueprint.go. */
module Blueprint {
  import opened Text
  import opened Decimal
  import opened Pieces
  import opened Scan
  import opened Base64

  // ---------------------------------------------------------------- parameters

  const RANDOM_HEAD := "$random"
  const ORG := "$org"
  const SPACE := "$space"
  const CATALOG_SERVICE_ID := "$catalog_service_id"
  const CATALOG_PLAN_ID := "$catalog_plan_id"
  const SERVICE_ID := "$service_id"
  const STORAGE_CLASS := "$storage_class"
  const IDX_AND_SHORT_ID := "$idx_and_short_serviceid"
  const SHORT_ID := "$short_serviceid"
  const FIXED_KEYS :=
    [ORG, SPACE, CATALOG_SERVICE_ID, CATALOG_PLAN_ID, SERVICE_ID, STORAGE_CLASS, IDX_AND_SHORT_ID, SHORT_ID]

  function RandomKey(i: nat): string {
    RANDOM_HEAD + Itoa(i)
  }

  /** `$random0` up to `$random(n-1)`. */
  function RandomKeys(n: nat): (keys: seq<string>)
    ensures |keys| == n && forall i :: 0 <= i < n ==> keys[i] == RandomKey(i)
  {
    if n == 0 then [] else RandomKeys(n - 1) + [RandomKey(n - 1)]
  }

  const KEYS := FIXED_KEYS + RandomKeys(9)
  const PARAMS := OneOf(KEYS)

  /** What a provisioning request substitutes; `randoms` are the strings drawn for one file. */
  datatype Params = Params(
    org: string, space: string, serviceId: string, svcMetaId: string, planMetaId: string, storageClass: string,
    idx: nat, randoms: seq<string>
  )

  predicate Drawn(p: Params) {
    |p.randoms| == 9
  }

  /** `cf_id_to_domain_valid_name`; taking the first 15 bytes of a shorter id is a run-time panic. */
  function DomainName(id: string): Option<string> {
    if |id| < 15 then None else Some("x" + ReplaceAll(id[..15], "-", ""))
  }

  function ParamValues(p: Params, longName: string, shortName: string): map<string, string>
    requires Drawn(p)
  {
    var fixed := [p.org, p.space, p.svcMetaId, p.planMetaId, p.serviceId, p.storageClass, longName, shortName];
    Table(KEYS, fixed + p.randoms)
  }

  /** The map from distinct keys to values at the same position. */
  function Table(keys: seq<string>, values: seq<string>): (m: map<string, string>)
    requires |keys| == |values|
    ensures m.Keys == Elems(keys)
  {
    if keys == [] then map[]
    else
      ElemsSnoc(keys);
      Table(keys[..|keys|-1], values[..|keys|-1])[keys[|keys|-1] := values[|keys|-1]]
  }

  // ---------------------------------------------------------------- the keys are prefix-free

  lemma KeyDigit(i: nat)
    requires i < 10
    ensures Itoa(i) == [DigitChar(i)] && RandomKey(i) == RANDOM_HEAD + [DigitChar(i)]
  {
  }

  lemma RandomKeysFree(n: nat)
    requires n <= 10
    ensures PrefixFree(RandomKeys(n)) && AllKeys(RandomKeys(n))
  {
    forall i | 0 <= i < n ensures IsKey(RandomKeys(n)[i]) {
      KeyDigit(i);
      assert RandomKey(i)[1..] == RANDOM_HEAD[1..] + [DigitChar(i)];
    }
    forall i, j | 0 <= i < n && 0 <= j < n && i != j ensures !(RandomKeys(n)[i] <= RandomKeys(n)[j]) {
      KeyDigit(i);
      KeyDigit(j);
      assert RandomKey(i)[7] == DigitChar(i) && RandomKey(j)[7] == DigitChar(j);
    }
  }

  /** Two texts that differ at a position both have. */
  predicate DifferAt(a: string, b: string, i: nat) {
    i < |a| && i < |b| && a[i] != b[i]
  }

  lemma ConsFree(k: string, keys: seq<string>)
    requires IsKey(k) && AllKeys(keys) && PrefixFree(keys)
    requires forall j :: 0 <= j < |keys| ==>
               DifferAt(k, keys[j], 1) || DifferAt(k, keys[j], 2) || DifferAt(k, keys[j], 9)
    ensures AllKeys([k] + keys) && PrefixFree([k] + keys)
  {
    var all := [k] + keys;
    forall i, j | 0 <= i < |all| && 0 <= j < |all| && i != j ensures !(all[i] <= all[j]) {
      if i == 0 || j == 0 {
        var other := if i == 0 then keys[j-1] else keys[i-1];
        assert DifferAt(k, other, 1) || DifferAt(k, other, 2) || DifferAt(k, other, 9);
      } else {
        assert all[i] == keys[i-1] && all[j] == keys[j-1];
      }
    }
  }

  /** The two characters after the `$`. */
  predicate Starts(k: string, a: char, b: char) {
    IsKey(k) && |k| > 2 && k[1] == a && k[2] == b
  }

  predicate StartsIn(keys: seq<string>, starts: set<(char, char)>) {
    forall j :: 0 <= j < |keys| ==> |keys[j]| > 2 && (keys[j][1], keys[j][2]) in starts
  }

  lemma AddKey(k: string, keys: seq<string>, starts: set<(char, char)>, a: char, b: char)
    requires AllKeys(keys) && PrefixFree(keys) && StartsIn(keys, starts)
    requires Starts(k, a, b) && (a, b) !in starts
    ensures AllKeys([k] + keys) && PrefixFree([k] + keys) && StartsIn([k] + keys, starts + {(a, b)})
  {
    forall j | 0 <= j < |keys| ensures DifferAt(k, keys[j], 1) || DifferAt(k, keys[j], 2) {
      assert (keys[j][1], keys[j][2]) != (a, b);
    }
    ConsFree(k, keys);
  }

  lemma RandomStart(i: nat)
    ensures |RandomKey(i)| > 2 && RandomKey(i)[1] == 'r' && RandomKey(i)[2] == 'a'
  {
    assert RANDOM_HEAD[1] == 'r' && RANDOM_HEAD[2] == 'a';
  }

  lemma RandomStarts(n: nat)
    requires n <= 10
    ensures StartsIn(RandomKeys(n), {('r', 'a')})
  {
    forall j | 0 <= j < n ensures |RandomKeys(n)[j]| > 2 && (RandomKeys(n)[j][1], RandomKeys(n)[j][2]) == ('r', 'a') {
      RandomStart(j);
    }
  }

  lemma ServiceStarts()
    ensures Starts(ORG, 'o', 'r') && Starts(SPACE, 's', 'p')
    ensures Starts(SERVICE_ID, 's', 'e') && Starts(STORAGE_CLASS, 's', 't')
  {
  }

  lemma KeyOfChars(k: string)
    requires k != "" && k[0] == '$' && forall i :: 1 <= i < |k| ==> k[i] != '$'
    ensures IsKey(k)
  {
  }

  lemma IdxStart()
    ensures Starts(IDX_AND_SHORT_ID, 'i', 'd')
  {
    KeyOfChars(IDX_AND_SHORT_ID);
  }

  lemma ShortStart()
    ensures Starts(SHORT_ID, 's', 'h')
  {
    assert SHORT_ID[1..] == "short_serviceid";
  }

  lemma CatalogStarts()
    ensures Starts(CATALOG_SERVICE_ID, 'c', 'a') && Starts(CATALOG_PLAN_ID, 'c', 'a')
    ensures DifferAt(CATALOG_SERVICE_ID, CATALOG_PLAN_ID, 9)
  {
  }

  /** Prefix-free keys, with the characters they start with. */
  predicate Free(keys: seq<string>, starts: set<(char, char)>) {
    AllKeys(keys) && PrefixFree(keys) && StartsIn(keys, starts)
  }

  const ID_KEYS := [IDX_AND_SHORT_ID] + ([SHORT_ID] + RandomKeys(9))
  const SERVICE_KEYS := [SERVICE_ID] + ([STORAGE_CLASS] + ID_KEYS)

  lemma IdKeysFree()
    ensures Free(ID_KEYS, {('r', 'a')} + {('s', 'h')} + {('i', 'd')})
  {
    RandomKeysFree(9);
    RandomStarts(9);
    IdxStart();
    ShortStart();
    AddKey(SHORT_ID, RandomKeys(9), {('r', 'a')}, 's', 'h');
    AddKey(IDX_AND_SHORT_ID, [SHORT_ID] + RandomKeys(9), {('r', 'a')} + {('s', 'h')}, 'i', 'd');
  }

  lemma ServiceKeysFree() returns (starts: set<(char, char)>)
    ensures Free(SERVICE_KEYS, starts)
    ensures ('c', 'a') !in starts && ('s', 'p') !in starts && ('o', 'r') !in starts
    ensures forall c :: c in starts ==> c.0 != 'b'
  {
    IdKeysFree();
    ServiceStarts();
    starts := {('r', 'a')} + {('s', 'h')} + {('i', 'd')};
    AddKey(STORAGE_CLASS, ID_KEYS, starts, 's', 't');
    starts := starts + {('s', 't')};
    AddKey(SERVICE_ID, [STORAGE_CLASS] + ID_KEYS, starts, 's', 'e');
    starts := starts + {('s', 'e')};
  }

  /** The seventeen keys of `adjust_params`: none is a prefix of another. */
  lemma KeysArePrefixFree()
    ensures AllKeys(KEYS) && PrefixFree(KEYS)
  {
    var starts := KeysStarts();
  }

  lemma KeysStarts() returns (starts: set<(char, char)>)
    ensures Free(KEYS, starts) && forall c :: c in starts ==> c.0 != 'b'
  {
    starts := ServiceKeysFree();
    ServiceStarts();
    CatalogStarts();
    AddKey(CATALOG_PLAN_ID, SERVICE_KEYS, starts, 'c', 'a');
    var more := [CATALOG_PLAN_ID] + SERVICE_KEYS;
    CatalogServiceApart(SERVICE_KEYS, starts);
    ConsFree(CATALOG_SERVICE_ID, more);
    more, starts := [CATALOG_SERVICE_ID] + more, starts + {('c', 'a')};
    AddKey(SPACE, more, starts, 's', 'p');
    more, starts := [SPACE] + more, starts + {('s', 'p')};
    AddKey(ORG, more, starts, 'o', 'r');
    starts := starts + {('o', 'r')};
    assert KEYS == [ORG] + more;
  }

  lemma CatalogServiceApart(keys: seq<string>, starts: set<(char, char)>)
    requires StartsIn(keys, starts) && ('c', 'a') !in starts
    ensures var more := [CATALOG_PLAN_ID] + keys;
            forall j :: 0 <= j < |more| ==>
              DifferAt(CATALOG_SERVICE_ID, more[j], 1) || DifferAt(CATALOG_SERVICE_ID, more[j], 2) ||
              DifferAt(CATALOG_SERVICE_ID, more[j], 9)
  {
    CatalogStarts();
    forall j | 0 <= j < |keys|
      ensures DifferAt(CATALOG_SERVICE_ID, keys[j], 1) || DifferAt(CATALOG_SERVICE_ID, keys[j], 2)
    {
      assert (keys[j][1], keys[j][2]) != ('c', 'a');
    }
  }

  // ---------------------------------------------------------------- the values of the keys

  lemma PrefixFreeTake(keys: seq<string>, n: nat)
    requires PrefixFree(keys) && n <= |keys|
    ensures PrefixFree(keys[..n])
  {
  }

  lemma {:induction false} TableAt(keys: seq<string>, values: seq<string>, i: nat)
    requires |keys| == |values| && PrefixFree(keys) && i < |keys|
    ensures keys[i] in Table(keys, values) && Table(keys, values)[keys[i]] == values[i]
  {
    var n := |keys| - 1;
    if i < n {
      assert !(keys[i] <= keys[n]);
      PrefixFreeTake(keys, n);
      TableAt(keys[..n], values[..n], i);
    }
  }

  /** The value of the `i`-th key. */
  function ValueAt(p: Params, longName: string, shortName: string, i: nat): string
    requires Drawn(p) && i < |KEYS|
  {
    var fixed := [p.org, p.space, p.svcMetaId, p.planMetaId, p.serviceId, p.storageClass, longName, shortName];
    (fixed + p.randoms)[i]
  }

  lemma ValuesOfKeys(p: Params, longName: string, shortName: string)
    requires Drawn(p)
    ensures |KEYS| == 17 && AllKeys(KEYS)
    ensures forall i :: 0 <= i < |KEYS| ==>
              Lookup(ParamValues(p, longName, shortName), KEYS[i]) == ValueAt(p, longName, shortName, i)
  {
    KeysArePrefixFree();
    var fixed := [p.org, p.space, p.svcMetaId, p.planMetaId, p.serviceId, p.storageClass, longName, shortName];
    forall i | 0 <= i < |KEYS|
      ensures Lookup(ParamValues(p, longName, shortName), KEYS[i]) == ValueAt(p, longName, shortName, i)
    {
      TableAt(KEYS, fixed + p.randoms, i);
    }
  }

  predicate PlainParams(p: Params) {
    && NoDollar(p.org) && NoDollar(p.space) && NoDollar(p.serviceId) && NoDollar(p.svcMetaId) && NoDollar(p.planMetaId)
    && NoDollar(p.storageClass) && forall i :: 0 <= i < |p.randoms| ==> NoDollar(p.randoms[i])
  }

  lemma {:induction false} TablePlain(keys: seq<string>, values: seq<string>)
    requires |keys| == |values| && forall i :: 0 <= i < |values| ==> NoDollar(values[i])
    ensures PlainValues(Table(keys, values))
  {
    if keys != [] {
      TablePlain(keys[..|keys|-1], values[..|keys|-1]);
    }
  }

  // ---------------------------------------------------------------- base64 markers

  const MARK := "$base64-"

  /** The position of the last quote of the first line. */
  function LastQuote(s: string): (q: Option<nat>)
    ensures q.Some? ==> q.value < |s| && s[q.value] == '"'
  {
    if s == "" || s[0] == '\n' then None
    else
      var later := LastQuote(s[1..]);
      if later.Some? then Some(later.value + 1)
      else if s[0] == '"' then Some(0)
      else None
  }

  /** `\$base64\-(.*)\"`: greedy within the line. */
  function MarkLen(s: string): (n: nat)
    ensures n <= |s|
  {
    if MARK <= s && LastQuote(s[|MARK|..]).Some? then |MARK| + LastQuote(s[|MARK|..]).value + 1 else 0
  }

  function FindMarks(s: string): seq<string> {
    if s == "" then []
    else if MarkLen(s) > 0 then [s[..MarkLen(s)]] + FindMarks(s[MarkLen(s)..])
    else FindMarks(s[1..])
  }

  /** What the loop takes for the marked value: the match without markers and quotes. */
  function MarkedValue(m: string): string {
    ReplaceAll(ReplaceAll(m, MARK, ""), "\"", "")
  }

  function EncodeRounds(s: string, marks: seq<string>): string {
    if marks == [] then s
    else
      var v := MarkedValue(marks[|marks|-1]);
      ReplaceAll(EncodeRounds(s, marks[..|marks|-1]), MARK + v, Encode(v))
  }

  function EncodedText(s: string): string {
    EncodeRounds(s, FindMarks(s))
  }

  method EncodeByte64ToString(content: string) returns (text: string)
    ensures text == EncodedText(content)
  {
    var list := FindMarks(content);
    text := content;
    for i := 0 to |list|
      invariant text == EncodeRounds(content, list[..i])
    {
      var sub := ReplaceAll(list[i], MARK, "");
      sub := ReplaceAll(sub, "\"", "");
      text := ReplaceAll(text, MARK + sub, Encode(sub));
      assert list[..i+1][..i] == list[..i];
    }
    assert list[..|list|] == list;
  }

  // ---------------------------------------------------------------- adjust_params

  /** The text after the replacements and before the encoding. */
  function Replaced(content: string, p: Params): Option<string>
    requires Drawn(p)
  {
    var longName, shortName := DomainName(p.serviceId + "x" + Itoa(p.idx)), DomainName(p.serviceId);
    if longName.None? || shortName.None? then None
    else
      KeysArePrefixFree();
      Some(Chain(content, KEYS, ParamValues(p, longName.value, shortName.value)))
  }

  function Adjusted(content: string, p: Params): Option<string>
    requires Drawn(p)
  {
    var text := Replaced(content, p);
    if text.None? then None else Some(EncodedText(text.value))
  }

  method AdjustParams(content: string, p: Params) returns (r: Option<string>)
    requires Drawn(p)
    ensures r == Adjusted(content, p)
  {
    var longName, shortName := DomainName(p.serviceId + "x" + Itoa(p.idx)), DomainName(p.serviceId);
    if longName.None? || shortName.None? {
      return None;
    }
    var text := ReplaceAll(content, ORG, p.org);
    text := ReplaceAll(text, SPACE, p.space);
    text := ReplaceAll(text, CATALOG_SERVICE_ID, p.svcMetaId);
    text := ReplaceAll(text, CATALOG_PLAN_ID, p.planMetaId);
    text := ReplaceAll(text, SERVICE_ID, p.serviceId);
    text := ReplaceAll(text, STORAGE_CLASS, p.storageClass);
    text := ReplaceAll(text, IDX_AND_SHORT_ID, longName.value);
    text := ReplaceAll(text, SHORT_ID, shortName.value);
    ghost var val := ParamValues(p, longName.value, shortName.value);
    KeyNames();
    FixedRounds(content, p, longName.value, shortName.value);
    for i := 0 to 9
      invariant text == Chain(content, KEYS[..8+i], val)
    {
      RandomRound(content, p, longName.value, shortName.value, i);
      text := ReplaceAll(text, RANDOM_HEAD + Itoa(i), p.randoms[i]);
    }
    AllKeysTaken();
    text := EncodeByte64ToString(text);
    return Some(text);
  }

  lemma AllKeysTaken()
    ensures KEYS[..8+9] == KEYS
  {
  }

  lemma KeyNames()
    ensures |KEYS| == 17 && AllKeys(KEYS)
    ensures KEYS[0] == ORG && KEYS[1] == SPACE && KEYS[2] == CATALOG_SERVICE_ID && KEYS[3] == CATALOG_PLAN_ID
    ensures KEYS[4] == SERVICE_ID && KEYS[5] == STORAGE_CLASS && KEYS[6] == IDX_AND_SHORT_ID && KEYS[7] == SHORT_ID
    ensures forall i :: 0 <= i < 9 ==> KEYS[8+i] == RandomKey(i)
  {
    KeysArePrefixFree();
    EightFirst(ORG, SPACE, CATALOG_SERVICE_ID, CATALOG_PLAN_ID, SERVICE_ID, STORAGE_CLASS, IDX_AND_SHORT_ID, SHORT_ID,
               RandomKeys(9));
  }

  lemma EightFirst(k0: string, k1: string, k2: string, k3: string, k4: string, k5: string, k6: string, k7: string,
                   more: seq<string>)
    ensures var keys := [k0, k1, k2, k3, k4, k5, k6, k7] + more;
            && |keys| == 8 + |more|
            && keys[0] == k0 && keys[1] == k1 && keys[2] == k2 && keys[3] == k3
            && keys[4] == k4 && keys[5] == k5 && keys[6] == k6 && keys[7] == k7
            && forall i :: 0 <= i < |more| ==> keys[8+i] == more[i]
  {
  }

  /** One replacement of `adjust_params` is one step of the chain. */
  lemma KeyRound(content: string, p: Params, longName: string, shortName: string, i: nat)
    requires Drawn(p) && i < |KEYS| && AllKeys(KEYS)
    ensures var val := ParamValues(p, longName, shortName);
            |KEYS[i]| > 0 &&
            Chain(content, KEYS[..i+1], val) ==
            ReplaceAll(Chain(content, KEYS[..i], val), KEYS[i], ValueAt(p, longName, shortName, i))
  {
    ValuesOfKeys(p, longName, shortName);
    ChainSnoc(content, KEYS, i, ParamValues(p, longName, shortName));
  }

  lemma RandomAt(p: Params, longName: string, shortName: string, i: nat)
    requires Drawn(p) && i < 9 && |KEYS| == 17
    ensures ValueAt(p, longName, shortName, 8 + i) == p.randoms[i]
  {
  }

  lemma RandomRound(content: string, p: Params, longName: string, shortName: string, i: nat)
    requires Drawn(p) && i < 9 && AllKeys(KEYS) && |KEYS| == 17
    ensures var val := ParamValues(p, longName, shortName);
            Chain(content, KEYS[..8+(i+1)], val) ==
            ReplaceAll(Chain(content, KEYS[..8+i], val), RANDOM_HEAD + Itoa(i), p.randoms[i])
  {
    KeyNames();
    KeyRound(content, p, longName, shortName, 8 + i);
    RandomAt(p, longName, shortName, i);
  }

  lemma FixedRounds(content: string, p: Params, longName: string, shortName: string)
    requires Drawn(p) && |KEYS| == 17 && AllKeys(KEYS)
    requires KEYS[0] == ORG && KEYS[1] == SPACE && KEYS[2] == CATALOG_SERVICE_ID && KEYS[3] == CATALOG_PLAN_ID
    requires KEYS[4] == SERVICE_ID && KEYS[5] == STORAGE_CLASS && KEYS[6] == IDX_AND_SHORT_ID && KEYS[7] == SHORT_ID
    ensures var text := ReplaceAll(ReplaceAll(content, ORG, p.org), SPACE, p.space);
            var more := ReplaceAll(ReplaceAll(text, CATALOG_SERVICE_ID, p.svcMetaId), CATALOG_PLAN_ID, p.planMetaId);
            var ids := ReplaceAll(ReplaceAll(more, SERVICE_ID, p.serviceId), STORAGE_CLASS, p.storageClass);
            ReplaceAll(ReplaceAll(ids, IDX_AND_SHORT_ID, longName), SHORT_ID, shortName) ==
            Chain(content, KEYS[..8], ParamValues(p, longName, shortName))
  {
    assert KEYS[..0] == [];
    KeyRound(content, p, longName, shortName, 0);
    KeyRound(content, p, longName, shortName, 1);
    KeyRound(content, p, longName, shortName, 2);
    KeyRound(content, p, longName, shortName, 3);
    KeyRound(content, p, longName, shortName, 4);
    KeyRound(content, p, longName, shortName, 5);
    KeyRound(content, p, longName, shortName, 6);
    KeyRound(content, p, longName, shortName, 7);
  }

  // ---------------------------------------------------------------- meaning of the parameters

  lemma NamesArePlain(p: Params)
    requires PlainParams(p) && |p.serviceId| >= 15
    ensures DomainName(p.serviceId).Some? && NoDollar(DomainName(p.serviceId).value)
    ensures var n := DomainName(p.serviceId + "x" + Itoa(p.idx)); n.Some? && NoDollar(n.value)
  {
    var id := p.serviceId + "x" + Itoa(p.idx);
    ReplaceLacks(p.serviceId[..15], "-", "", '$');
    assert id[..15] == p.serviceId[..15];
  }

  /** The values a provisioning request gives to the keys. */
  function RequestValues(p: Params): map<string, string>
    requires Drawn(p) && |p.serviceId| >= 15
  {
    ParamValues(p, DomainName(p.serviceId + "x" + Itoa(p.idx)).value, DomainName(p.serviceId).value)
  }

  lemma RequestValuesPlain(p: Params)
    requires Drawn(p) && PlainParams(p) && |p.serviceId| >= 15
    ensures PlainValues(RequestValues(p))
  {
    NamesArePlain(p);
    var longName, shortName := DomainName(p.serviceId + "x" + Itoa(p.idx)).value, DomainName(p.serviceId).value;
    var fixed := [p.org, p.space, p.svcMetaId, p.planMetaId, p.serviceId, p.storageClass, longName, shortName];
    TablePlain(KEYS, fixed + p.randoms);
  }

  /** The value that a request gives to a random key is the string drawn for it. */
  lemma RandomValue(p: Params, i: nat)
    requires Drawn(p) && |p.serviceId| >= 15 && i < 9
    ensures RandomKey(i) == "$random" + ["012345678"[i]]
    ensures Lookup(RequestValues(p), RandomKey(i)) == p.randoms[i]
  {
    KeyDigit(i);
    DigitIs(i);
    KeyNames();
    ValuesOfKeys(p, DomainName(p.serviceId + "x" + Itoa(p.idx)).value, DomainName(p.serviceId).value);
    assert KEYS[8+i] == RandomKey(i);
  }

  /** A text without its dashes. */
  function Dashless(s: string): (r: string)
    ensures '-' !in r
  {
    if s == "" then "" else Dashless(s[..|s|-1]) + (if s[|s|-1] == '-' then "" else [s[|s|-1]])
  }

  lemma {:induction false} DashlessConcat(a: string, b: string)
    ensures Dashless(a + b) == Dashless(a) + Dashless(b)
  {
    if b == "" {
      assert a + b == a;
    } else {
      assert (a + b)[..|a + b|-1] == a + b[..|b|-1];
      DashlessConcat(a, b[..|b|-1]);
    }
  }

  lemma {:induction false} DashesRemoved(s: string)
    ensures ReplaceAll(s, "-", "") == Dashless(s)
  {
    if s != "" {
      DashesRemoved(s[1..]);
      FirstDash(s);
      DashlessConcat(s[..1], s[1..]);
      TakeDrop(s, 1);
    }
  }

  lemma FirstDash(s: string)
    requires s != ""
    ensures ReplaceAll(s, "-", "") == Dashless(s[..1]) + ReplaceAll(s[1..], "-", "")
  {
    DashAlone(s[0]);
    assert s[..1] == [s[0]];
    if s[0] == '-' {
      assert "-" <= s;
      assert ReplaceAll(s, "-", "") == "" + ReplaceAll(s[1..], "-", "");
    } else {
      ReplaceStep(s, "-", "");
    }
  }

  lemma DashAlone(c: char)
    ensures Dashless([c]) == if c == '-' then "" else [c]
  {
    assert [c][..0] == "";
    assert Dashless([c]) == Dashless([c][..0]) + (if c == '-' then "" else [c]);
  }

  /**
   * What a request gives to the keys that are not drawn. The two short ids are the same: an `x` before the first
   * fifteen characters of the service id without their dashes; the index never gets into them.
   */
  lemma FixedValues(p: Params)
    requires Drawn(p) && |p.serviceId| >= 15
    ensures var v := RequestValues(p);
            && Lookup(v, "$org") == p.org && Lookup(v, "$space") == p.space
            && Lookup(v, "$catalog_service_id") == p.svcMetaId && Lookup(v, "$catalog_plan_id") == p.planMetaId
            && Lookup(v, "$service_id") == p.serviceId && Lookup(v, "$storage_class") == p.storageClass
            && Lookup(v, "$short_serviceid") == "x" + Dashless(p.serviceId[..15])
            && Lookup(v, "$idx_and_short_serviceid") == "x" + Dashless(p.serviceId[..15])
  {
    var id := p.serviceId + "x" + Itoa(p.idx);
    assert id[..15] == p.serviceId[..15];
    DashesRemoved(p.serviceId[..15]);
    KeyNames();
    ValuesOfKeys(p, DomainName(id).value, DomainName(p.serviceId).value);
    FixedAt(p, DomainName(id).value, DomainName(p.serviceId).value);
  }

  lemma FixedAt(p: Params, longName: string, shortName: string)
    requires Drawn(p) && |KEYS| == 17
    ensures ValueAt(p, longName, shortName, 0) == p.org && ValueAt(p, longName, shortName, 1) == p.space
    ensures ValueAt(p, longName, shortName, 2) == p.svcMetaId && ValueAt(p, longName, shortName, 3) == p.planMetaId
    ensures ValueAt(p, longName, shortName, 4) == p.serviceId && ValueAt(p, longName, shortName, 5) == p.storageClass
    ensures ValueAt(p, longName, shortName, 6) == longName && ValueAt(p, longName, shortName, 7) == shortName
  {
  }

  /**
   * The seventeen chained replace-alls are one left-to-right substitution of all keys at once, whatever the
   * request, on every template in which no `$` that could still grow into a key stands before a key; no key
   * survives. The only other outcome is the panic on a service id below 15 bytes.
   */
  lemma ParamsMeaning(content: string, p: Params)
    requires Drawn(p) && PlainParams(p) && Separated(PARAMS, content)
    ensures Replaced(content, p).Some? <==> |p.serviceId| >= 15
    ensures |p.serviceId| >= 15 ==>
              && Replaced(content, p).value == Expand(PARAMS, content, RequestValues(p))
              && FindAll(PARAMS, Replaced(content, p).value) == []
  {
    if |p.serviceId| >= 15 {
      ReplacedIsChain(content, p);
      RequestValuesPlain(p);
      ChainOfKeys(content, KEYS, RequestValues(p));
    }
  }

  lemma ReplacedIsChain(content: string, p: Params)
    requires Drawn(p) && PlainParams(p) && |p.serviceId| >= 15
    ensures AllKeys(KEYS) && Replaced(content, p) == Some(Chain(content, KEYS, RequestValues(p)))
  {
    NamesArePlain(p);
    KeysArePrefixFree();
  }

  /** The order of the replacements does not matter, and every key is gone afterwards. */
  lemma ChainOfKeys(content: string, order: seq<string>, val: map<string, string>)
    requires Elems(order) == Elems(KEYS) && PlainValues(val) && Separated(PARAMS, content)
    ensures AllKeys(order) && Chain(content, order, val) == Expand(PARAMS, content, val)
    ensures FindAll(PARAMS, Chain(content, order, val)) == []
  {
    KeysArePrefixFree();
    forall i | 0 <= i < |order| ensures IsKey(order[i]) {
      assert order[i] in Elems(order);
    }
    forall k | k in order ensures k in KEYS {
      assert k in Elems(order);
    }
    KeysAreSafe(KEYS, order, content);
    ParseRenders(PARAMS, content);
    ChainIsFill(Parse(PARAMS, content), order, val);
    KeysFound(KEYS, content);
    ExpandIsFill(PARAMS, content, Elems(order), val);
    FindAllRemaining(PARAMS, content, Elems(order), val);
    NothingLeft(FindAll(PARAMS, content), Elems(order));
  }

  lemma {:induction false} NothingLeft(toks: seq<string>, done: set<string>)
    requires forall t :: t in toks ==> t in done
    ensures Without(toks, done) == []
  {
    if toks != [] {
      NothingLeft(toks[1..], done);
    }
  }

  lemma ShortKeysLack(x: char)
    requires x in {' ', '"', '\n'}
    ensures x !in ORG && x !in SPACE && x !in SERVICE_ID && x !in STORAGE_CLASS
  {
  }

  lemma CatalogKeysLack(x: char)
    requires x in {' ', '"', '\n'}
    ensures x !in CATALOG_SERVICE_ID && x !in CATALOG_PLAN_ID
  {
  }

  lemma IdKeysLack(x: char)
    requires x in {' ', '"', '\n'}
    ensures x !in IDX_AND_SHORT_ID && x !in SHORT_ID
  {
  }

  lemma RandomKeyLacks(i: nat, x: char)
    requires i < 9 && x in {' ', '"', '\n'}
    ensures x !in RandomKey(i)
  {
    KeyDigit(i);
    assert x !in RANDOM_HEAD && x != DigitChar(i);
  }

  lemma KeysLack(x: char)
    requires x in {' ', '"', '\n'}
    ensures AllKeys(KEYS) && Lacks(KEYS, x)
  {
    KeyNames();
    forall i | 0 <= i < 17 ensures x !in KEYS[i] {
      KeyLacks(x, i);
    }
  }

  lemma KeyLacks(x: char, i: nat)
    requires x in {' ', '"', '\n'} && i < 17 && |KEYS| == 17
    ensures x !in KEYS[i]
  {
    KeyNames();
    if i < 8 {
      ShortKeysLack(x);
      CatalogKeysLack(x);
      IdKeysLack(x);
    } else {
      RandomKeyLacks(i - 8, x);
      assert KEYS[8+(i-8)] == RandomKey(i - 8);
    }
  }

  /**
   * Exactly when the chained replace-alls substitute all keys at once, for all values without `$`: when no
   * step can capture foreign text.
   */
  lemma ParamsExpandIff(content: string)
    ensures AllKeys(KEYS)
    ensures (forall val: map<string, string> :: PlainValues(val) ==> Agree(Parse(PARAMS, content), KEYS, val)) <==>
            Safe(Parse(PARAMS, content), KEYS)
  {
    KeysLack(' ');
    ParseRenders(PARAMS, content);
    forall q | q in Parse(PARAMS, content) && q.Tok? ensures ' ' !in q.key {
      FindAllIsTokens(PARAMS, content);
      KeysFound(KEYS, content);
    }
    ChainSubstitutesIffSafe(Parse(PARAMS, content), KEYS, ' ');
  }

  // ---------------------------------------------------------------- values that are keys themselves

  /** The keys in the order in which they are replaced. */
  function KeyInTurn(i: nat): string
    requires i < 17
  {
    if i < 8 then
      ["$org", "$space", "$catalog_service_id", "$catalog_plan_id", "$service_id", "$storage_class",
       "$idx_and_short_serviceid", "$short_serviceid"][i]
    else "$random" + ["012345678"[i-8]]
  }

  lemma KeyListed(i: nat)
    requires i < 17
    ensures |KEYS| == 17 && KEYS[i] == KeyInTurn(i)
  {
    KeyNames();
    if i < 8 {
      FixedListed(KEYS, i);
    } else {
      assert KEYS[8+(i-8)] == RandomKey(i - 8);
      RandomListed(i - 8);
    }
  }

  lemma FixedListed(keys: seq<string>, i: nat)
    requires i < 8 < |keys|
    requires keys[0] == ORG && keys[1] == SPACE && keys[2] == CATALOG_SERVICE_ID && keys[3] == CATALOG_PLAN_ID
    requires keys[4] == SERVICE_ID && keys[5] == STORAGE_CLASS && keys[6] == IDX_AND_SHORT_ID && keys[7] == SHORT_ID
    ensures keys[i] == KeyInTurn(i)
  {
  }

  lemma RandomListed(i: nat)
    requires i < 9
    ensures RandomKey(i) == KeyInTurn(8 + i)
  {
    KeyDigit(i);
    DigitIs(i);
  }

  /** The text of the first of two keys, whose value is the second, after `n` replacements. */
  function TextInTurn(keys: seq<string>, val: map<string, string>, i: nat, j: nat, n: nat): string
    requires i < |keys| && j < |keys|
  {
    if n <= i then keys[i] else if n <= j then keys[j] else Lookup(val, keys[j])
  }

  lemma OneTurn(keys: seq<string>, val: map<string, string>, i: nat, j: nat, n: nat)
    requires AllKeys(keys) && PrefixFree(keys) && i < j < |keys| && n < |keys|
    requires Lookup(val, keys[i]) == keys[j] && NoDollar(Lookup(val, keys[j]))
    ensures ReplaceAll(TextInTurn(keys, val, i, j, n), keys[n], Lookup(val, keys[n])) ==
            TextInTurn(keys, val, i, j, n + 1)
  {
    var k, v := keys[n], Lookup(val, keys[n]);
    if n <= i {
      OneKey(keys[i], k, v);
    } else if n <= j {
      OneKey(keys[j], k, v);
    } else {
      NoKey(Lookup(val, keys[j]), k, v);
    }
  }

  /** Two keys, the first with the second for its value, which itself has a plain one. */
  predicate InTurn(keys: seq<string>, val: map<string, string>, i: nat, j: nat) {
    && AllKeys(keys) && PrefixFree(keys) && i < j < |keys|
    && Lookup(val, keys[i]) == keys[j] && NoDollar(Lookup(val, keys[j]))
  }

  lemma ThenTurn(keys: seq<string>, val: map<string, string>, i: nat, j: nat, n: nat)
    requires InTurn(keys, val, i, j) && n < |keys|
    requires Chain(keys[i], keys[..n], val) == TextInTurn(keys, val, i, j, n)
    ensures Chain(keys[i], keys[..n+1], val) == TextInTurn(keys, val, i, j, n + 1)
  {
    ChainSnoc(keys[i], keys, n, val);
    OneTurn(keys, val, i, j, n);
  }

  lemma NoTurn(s: string, keys: seq<string>, val: map<string, string>)
    ensures Chain(s, keys[..0], val) == s
  {
  }

  lemma {:induction false} AfterTurns(keys: seq<string>, val: map<string, string>, i: nat, j: nat, n: nat)
    requires InTurn(keys, val, i, j) && n <= |keys|
    ensures Chain(keys[i], keys[..n], val) == TextInTurn(keys, val, i, j, n)
  {
    if n == 0 {
      NoTurn(keys[i], keys, val);
    } else {
      AfterTurns(keys, val, i, j, n - 1);
      ThenTurn(keys, val, i, j, n - 1);
    }
  }

  lemma OneKey(a: string, k: string, v: string)
    requires IsKey(a) && IsKey(k)
    ensures a == k ==> ReplaceAll(a, k, v) == v
    ensures !(k <= a) ==> ReplaceAll(a, k, v) == a
  {
    assert a + "" == a;
    if a == k {
      ReplaceHit("", k, v);
      assert v + "" == v;
    } else if !(k <= a) {
      ReplaceMiss(a, "", k, v);
    }
  }

  lemma NoKey(a: string, k: string, v: string)
    requires NoDollar(a) && IsKey(k)
    ensures ReplaceAll(a, k, v) == a
  {
    ReplacePlain(a, "", k, v);
    assert a + "" == a;
  }

  /** The keys are replaced in this order: a value that is itself a later key is replaced in its turn. */
  lemma ValuesInTurn(p: Params, i: nat, j: nat)
    requires Drawn(p) && |p.serviceId| >= 15 && i < j < 17
    requires Lookup(RequestValues(p), KeyInTurn(i)) == KeyInTurn(j)
    requires NoDollar(Lookup(RequestValues(p), KeyInTurn(j)))
    ensures Replaced(KeyInTurn(i), p) == Some(Lookup(RequestValues(p), KeyInTurn(j)))
  {
    KeyListed(i);
    KeyListed(j);
    KeysArePrefixFree();
    AfterTurns(KEYS, RequestValues(p), i, j, |KEYS|);
    WholeChain(KeyInTurn(i), p);
  }

  lemma WholeChain(s: string, p: Params)
    requires Drawn(p) && |p.serviceId| >= 15 && AllKeys(KEYS)
    ensures Replaced(s, p) == Some(Chain(s, KEYS[..|KEYS|], RequestValues(p)))
  {
    assert KEYS[..|KEYS|] == KEYS;
  }
}
