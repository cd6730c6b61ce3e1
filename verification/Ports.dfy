/** NodePort placeholders: `parsePorts` and `getPort` of app/tap/credential_parser.go. */
module Ports {
  import opened Text
  import opened Decimal
  import opened Pieces
  import opened Scan
  import Stages

  datatype ServicePort = ServicePort(name: string, protocol: string, targetPort: string, nodePort: nat)

  /** The NodePort of the first port with target `n`; a target that is not a number is an error. */
  function PortFor(n: int, ports: seq<ServicePort>): Result<Option<string>> {
    if ports == [] then Ok(None)
    else
      match Atoi(ports[0].targetPort)
      case None => Err("TargetPort")
      case Some(t) => if t == n then Ok(Some(Itoa(ports[0].nodePort))) else PortFor(n, ports[1..])
  }

  /** The number part of a port placeholder. */
  function Suffix(t: string): string {
    if |t| >= |PORTS.head| then t[|PORTS.head|..] else ""
  }

  /** What `getPort` answers for the placeholders of a text: the port of the first that resolves, or "". */
  function FirstPort(toks: seq<string>, ports: seq<ServicePort>): (r: Result<string>)
    ensures r.Ok? ==> NoDollar(r.value)
  {
    if toks == [] then Ok("")
    else
      match Atoi(Suffix(toks[0]))
      case None => Err("Port")
      case Some(n) =>
        match PortFor(n, ports)
        case Err(e) => Err(e)
        case Ok(Some(p)) => PortForPlain(n, ports); Ok(p)
        case Ok(None) => FirstPort(toks[1..], ports)
  }

  lemma {:induction false} PortForPlain(n: int, ports: seq<ServicePort>)
    requires PortFor(n, ports).Ok? && PortFor(n, ports).value.Some?
    ensures PortFor(n, ports).value.value != "" && NoDollar(PortFor(n, ports).value.value)
  {
    if Atoi(ports[0].targetPort) != Some(n) {
      PortForPlain(n, ports[1..]);
    }
  }

  method GetPort(text: string, ports: seq<ServicePort>) returns (r: Result<string>)
    ensures r == FirstPort(FindAll(PORTS, text), ports)
    ensures Answers(FindAll(PORTS, text), ports, r)
  {
    FirstPortMeaning(FindAll(PORTS, text), ports);
    var list := FindAll(PORTS, text);
    for i := 0 to |list|
      invariant FirstPort(list, ports) == FirstPort(list[i..], ports)
    {
      var expected := Atoi(Suffix(list[i]));
      assert list[i..][0] == list[i] && list[i..][1..] == list[i+1..];
      if expected.None? {
        return Err("Port");
      }
      for j := 0 to |ports|
        invariant PortFor(expected.value, ports) == PortFor(expected.value, ports[j..])
      {
        assert ports[j..][0] == ports[j] && ports[j..][1..] == ports[j+1..];
        var target := Atoi(ports[j].targetPort);
        if target.None? {
          return Err("TargetPort");
        }
        if target.value == expected.value {
          return Ok(Itoa(ports[j].nodePort));
        }
      }
    }
    return Ok("");
  }

  // ---------------------------------------------------------------- what the answer is, port by port

  /** The targets of the ports before `j` are numbers other than `n`. */
  predicate Passes(n: int, ports: seq<ServicePort>, j: nat) {
    && j <= |ports|
    && forall i :: 0 <= i < j ==> Atoi(ports[i].targetPort).Some? && Atoi(ports[i].targetPort).value != n
  }

  /** The placeholders before `i` are numbers, and none is a target. */
  predicate PassesAll(toks: seq<string>, i: nat, ports: seq<ServicePort>) {
    && i <= |toks|
    && forall k :: 0 <= k < i ==>
         Atoi(Suffix(toks[k])).Some? && Passes(Atoi(Suffix(toks[k])).value, ports, |ports|)
  }

  /** Placeholder `i` is the first that is a target, and port `j` the first with that target. */
  predicate Hit(toks: seq<string>, ports: seq<ServicePort>, i: nat, j: nat) {
    && i < |toks| && j < |ports| && PassesAll(toks, i, ports) && Atoi(Suffix(toks[i])).Some?
    && Passes(Atoi(Suffix(toks[i])).value, ports, j) && Atoi(ports[j].targetPort) == Atoi(Suffix(toks[i]))
  }

  /** Before anything is found, placeholder `i` is no number, or the target of port `j`, with which it is compared. */
  predicate Unreadable(toks: seq<string>, ports: seq<ServicePort>, i: nat, j: nat) {
    && i < |toks| && PassesAll(toks, i, ports)
    && (|| Atoi(Suffix(toks[i])).None?
        || (&& j < |ports| && Passes(Atoi(Suffix(toks[i])).value, ports, j) && Atoi(ports[j].targetPort).None?))
  }

  /**
   * The NodePort of the port that is found, an error exactly for a number that cannot be read before, or else
   * nothing.
   */
  ghost predicate Answers(toks: seq<string>, ports: seq<ServicePort>, r: Result<string>) {
    && (forall i: nat, j: nat :: Hit(toks, ports, i, j) ==> r == Ok(Itoa(ports[j].nodePort)))
    && (r.Err? <==> exists i: nat, j: nat :: Unreadable(toks, ports, i, j))
    && (r == Ok("") <==> PassesAll(toks, |toks|, ports))
    && (r.Ok? && r.value != "" <==> exists i: nat, j: nat :: Hit(toks, ports, i, j))
  }

  /** What `PortFor` finds, by the places in the list. */
  lemma {:induction false} PortForAt(n: int, ports: seq<ServicePort>) returns (j: nat)
    ensures j <= |ports| && Passes(n, ports, j)
    ensures j == |ports| ==> PortFor(n, ports) == Ok(None)
    ensures j < |ports| && Atoi(ports[j].targetPort).None? ==> PortFor(n, ports).Err?
    ensures j < |ports| && Atoi(ports[j].targetPort).Some? ==>
              Atoi(ports[j].targetPort) == Some(n) && PortFor(n, ports) == Ok(Some(Itoa(ports[j].nodePort)))
  {
    if ports == [] || Atoi(ports[0].targetPort).None? || Atoi(ports[0].targetPort).value == n {
      j := 0;
    } else {
      var k := PortForAt(n, ports[1..]);
      PassesFirst(n, ports, k);
      j := k + 1;
    }
  }

  lemma PassesFirst(n: int, ports: seq<ServicePort>, k: nat)
    requires ports != [] && Atoi(ports[0].targetPort).Some? && Atoi(ports[0].targetPort).value != n
    requires Passes(n, ports[1..], k)
    ensures Passes(n, ports, k + 1) && (k + 1 < |ports| ==> ports[k+1] == ports[1..][k])
    ensures PortFor(n, ports) == PortFor(n, ports[1..])
  {
    assert forall i :: 1 <= i <= |ports| - 1 ==> ports[i] == ports[1..][i-1];
  }

  /** The place of the placeholder that decides. */
  lemma {:induction false} FirstPortAt(toks: seq<string>, ports: seq<ServicePort>) returns (i: nat, j: nat)
    ensures i <= |toks| && j <= |ports| && PassesAll(toks, i, ports)
    ensures i == |toks| ==> FirstPort(toks, ports) == Ok("")
    ensures i < |toks| ==>
              || (Hit(toks, ports, i, j) && FirstPort(toks, ports) == Ok(Itoa(ports[j].nodePort)))
              || (Unreadable(toks, ports, i, j) && FirstPort(toks, ports).Err?)
  {
    i, j := 0, 0;
    if toks != [] {
      j := FirstDecides(toks, ports);
      if j == |ports| && Atoi(Suffix(toks[0])).Some? {
        i, j := FirstPortAt(toks[1..], ports);
        PlaceInTail(toks, ports, i, j);
        i := i + 1;
      }
    }
  }

  /** Whether the first placeholder decides, and with which port. */
  lemma FirstDecides(toks: seq<string>, ports: seq<ServicePort>) returns (j: nat)
    requires toks != []
    ensures j <= |ports|
    ensures j == |ports| && Atoi(Suffix(toks[0])).Some? ==>
              Passes(Atoi(Suffix(toks[0])).value, ports, j) && FirstPort(toks, ports) == FirstPort(toks[1..], ports)
    ensures j < |ports| || Atoi(Suffix(toks[0])).None? ==>
              || (Hit(toks, ports, 0, j) && FirstPort(toks, ports) == Ok(Itoa(ports[j].nodePort)))
              || (Unreadable(toks, ports, 0, j) && FirstPort(toks, ports).Err?)
  {
    j := 0;
    if Atoi(Suffix(toks[0])).Some? {
      j := PortForAt(Atoi(Suffix(toks[0])).value, ports);
    }
  }

  lemma PassesInTail(toks: seq<string>, ports: seq<ServicePort>, i: nat)
    requires toks != [] && Atoi(Suffix(toks[0])).Some? && Passes(Atoi(Suffix(toks[0])).value, ports, |ports|)
    ensures PassesAll(toks[1..], i, ports) ==> PassesAll(toks, i + 1, ports)
  {
    assert forall k :: 1 <= k < |toks| ==> toks[k] == toks[1..][k-1];
  }

  lemma PlaceInTail(toks: seq<string>, ports: seq<ServicePort>, i: nat, j: nat)
    requires toks != [] && Atoi(Suffix(toks[0])).Some? && Passes(Atoi(Suffix(toks[0])).value, ports, |ports|)
    ensures PassesAll(toks[1..], i, ports) ==> PassesAll(toks, i + 1, ports)
    ensures Hit(toks[1..], ports, i, j) ==> Hit(toks, ports, i + 1, j)
    ensures Unreadable(toks[1..], ports, i, j) ==> Unreadable(toks, ports, i + 1, j)
  {
    PassesInTail(toks, ports, i);
    if i + 1 < |toks| {
      assert toks[1..][i] == toks[i+1];
    }
  }

  /** There is only one such place. */
  lemma OnePlace(toks: seq<string>, ports: seq<ServicePort>, i: nat, j: nat, k: nat, l: nat)
    requires Hit(toks, ports, i, j) || Unreadable(toks, ports, i, j)
    ensures Hit(toks, ports, k, l) ==> Hit(toks, ports, i, j) && k == i && l == j
    ensures Unreadable(toks, ports, k, l) ==> !Hit(toks, ports, i, j)
    ensures !PassesAll(toks, |toks|, ports)
  {
  }

  lemma FirstPortMeaning(toks: seq<string>, ports: seq<ServicePort>)
    ensures Answers(toks, ports, FirstPort(toks, ports))
  {
    var i, j := FirstPortAt(toks, ports);
    forall k: nat, l: nat | Hit(toks, ports, k, l) ensures i < |toks| && k == i && l == j {
      if i < |toks| {
        OnePlace(toks, ports, i, j, k, l);
      }
    }
    forall k: nat, l: nat | Unreadable(toks, ports, k, l) ensures i < |toks| && !Hit(toks, ports, i, j) {
      if i < |toks| {
        OnePlace(toks, ports, i, j, k, l);
      }
    }
    if i < |toks| {
      OnePlace(toks, ports, i, j, i, j);
    }
  }

  /** A placeholder's own port is the NodePort of the first service port with its number as target. */
  lemma OwnPortAt(t: string, ports: seq<ServicePort>, j: nat)
    requires Atoi(Suffix(t)).Some? && Passes(Atoi(Suffix(t)).value, ports, j)
    ensures j < |ports| && Atoi(ports[j].targetPort) == Atoi(Suffix(t)) ==> OwnPort(t, ports) == Itoa(ports[j].nodePort)
    ensures j == |ports| ==> OwnPort(t, ports) == ""
  {
    var k := PortForAt(Atoi(Suffix(t)).value, ports);
  }

  /** In a text, `$port_` with digits is a placeholder, and the digits are its number. */
  lemma PortTokens(before: string, digits: string, after: string)
    requires NoDollar(before) && digits != "" && (forall i :: 0 <= i < |digits| ==> '0' <= digits[i] <= '9')
    requires after == "" || !('0' <= after[0] <= '9')
    ensures FindAll(PORTS, before + ("$port_" + digits + after)) == ["$port_" + digits] + FindAll(PORTS, after)
    ensures Suffix("$port_" + digits) == digits
  {
    Stages.RepeatToken(PORTS, before, digits, after);
  }

  /** The text after the rounds of `parsePorts` for the placeholders in `list`. */
  function PortRounds(text: string, list: seq<string>, ports: seq<ServicePort>): Result<string>
    requires forall i :: 0 <= i < |list| ==> |list[i]| > 0
    decreases |list|
  {
    if list == [] then Ok(text)
    else
      match FirstPort(FindAll(PORTS, text), ports)
      case Err(e) => Err(e)
      case Ok(p) => PortRounds(ReplaceAll(text, list[0], p), list[1..], ports)
  }

  function ParsedPorts(text: string, ports: seq<ServicePort>): Result<string> {
    PortRounds(text, FindAll(PORTS, text), ports)
  }

  method ParsePorts(template: string, ports: seq<ServicePort>) returns (r: Result<string>)
    ensures r == ParsedPorts(template, ports)
  {
    var text := template;
    var list := FindAll(PORTS, template);
    for i := 0 to |list|
      invariant PortRounds(template, list, ports) == PortRounds(text, list[i..], ports)
    {
      var port := GetPort(text, ports);
      assert list[i..][0] == list[i] && list[i..][1..] == list[i+1..];
      if port.Err? {
        return port;
      }
      text := ReplaceAll(text, list[i], port.value);
    }
    return Ok(text);
  }

  // ---------------------------------------------------------------- meaning

  /**
   * The port each placeholder ends up with: that of the first resolvable placeholder among those not yet
   * replaced when its turn comes.
   */
  function PortValues(toks: seq<string>, done: set<string>, ports: seq<ServicePort>): (r: Result<map<string, string>>)
    ensures r.Ok? ==> PlainValues(r.value) && forall t :: t in r.value <==> t in toks && t !in done
  {
    if toks == [] then Ok(map[])
    else
      WithoutElems(toks, done);
      var p :- FirstPort(Without(toks, done), ports);
      var m :- PortValues(toks[1..], done + {toks[0]}, ports);
      Ok(if toks[0] in done then m else m[toks[0] := p])
  }

  lemma {:induction false} WithoutConcat(a: seq<string>, b: seq<string>, done: set<string>)
    requires forall t :: t in a ==> t in done
    ensures Without(a + b, done) == Without(b, done)
  {
    if a == [] {
      assert a + b == b;
    } else {
      assert (a + b)[1..] == a[1..] + b;
      WithoutConcat(a[1..], b, done);
    }
  }

  lemma {:induction false} FillSame(ps: seq<Piece>, done: set<string>, v: map<string, string>, w: map<string, string>)
    requires forall t :: t in done ==> Lookup(v, t) == Lookup(w, t)
    ensures Fill(ps, done, v) == Fill(ps, done, w)
  {
    if ps != [] {
      FillSame(ps[1..], done, v, w);
    }
  }

  /** The text that a table of ports gives, or the error. */
  function Outcome(ps: seq<Piece>, toks: seq<string>, acc: map<string, string>,
                   r: Result<map<string, string>>): Result<string> {
    match r
    case Err(e) => Err(e)
    case Ok(m) => Ok(Fill(ps, Elems(toks), acc + m))
  }

  /** Whatever replaced placeholders became, a scan finds the others, in order. */
  ghost predicate Rescans(ps: seq<Piece>, toks: seq<string>) {
    forall a: map<string, string> :: PlainValues(a) ==> FindAll(PORTS, Fill(ps, a.Keys, a)) == Without(toks, a.Keys)
  }

  lemma RoundStep(ps: seq<Piece>, k: string, acc: map<string, string>, p: string)
    requires WellFormed(ps) && IsKey(k) && SafeStep(ps, acc.Keys, k)
    requires PlainValues(acc) && NoDollar(p)
    ensures var next := if k in acc then acc else acc[k := p];
            ReplaceAll(Fill(ps, acc.Keys, acc), k, p) == Fill(ps, next.Keys, next)
  {
    if k in acc {
      FillStepAny(ps, acc.Keys, k, p, acc);
      assert acc.Keys + {k} == acc.Keys;
    } else {
      var next := acc[k := p];
      FillSame(ps, acc.Keys, acc, next);
      FillStepAny(ps, acc.Keys, k, p, next);
      assert next.Keys == acc.Keys + {k};
    }
  }

  /** The rounds from the `j`-th placeholder on, over the text in which the earlier ones carry `acc`. */
  predicate RoundsAgree(ps: seq<Piece>, toks: seq<string>, j: nat, ports: seq<ServicePort>, acc: map<string, string>)
    requires AllKeys(toks) && j <= |toks|
  {
    PortRounds(Fill(ps, acc.Keys, acc), toks[j..], ports) ==
    Outcome(ps, toks, acc, PortValues(toks[j..], acc.Keys, ports))
  }

  lemma {:induction false} RoundsFrom(ps: seq<Piece>, toks: seq<string>, j: nat, ports: seq<ServicePort>,
                                      acc: map<string, string>)
    requires WellFormed(ps) && AllKeys(toks) && Safe(ps, toks) && Rescans(ps, toks)
    requires j <= |toks| && PlainValues(acc) && acc.Keys == Elems(toks[..j])
    ensures RoundsAgree(ps, toks, j, ports, acc)
    decreases |toks| - j
  {
    if j == |toks| {
      NoneLeft(ps, toks, acc, ports);
    } else {
      RescanAt(ps, toks, j, acc);
      var port := FirstPort(Without(toks[j..], acc.Keys), ports);
      if port.Err? {
        RoundFails(ps, toks, j, acc, ports);
      } else {
        var next := if toks[j] in acc then acc else acc[toks[j] := port.value];
        NextKeys(toks, j, acc, port.value);
        RoundsFrom(ps, toks, j + 1, ports, next);
        RoundAt(ps, toks, j, acc, next, port.value, ports);
      }
    }
  }

  lemma NoneLeft(ps: seq<Piece>, toks: seq<string>, acc: map<string, string>, ports: seq<ServicePort>)
    requires AllKeys(toks) && acc.Keys == Elems(toks[..|toks|])
    ensures RoundsAgree(ps, toks, |toks|, ports, acc)
  {
    assert toks[|toks|..] == [] && toks[..|toks|] == toks;
    NoRound(ps, toks, acc, ports);
  }

  lemma RoundFails(ps: seq<Piece>, toks: seq<string>, j: nat, acc: map<string, string>, ports: seq<ServicePort>)
    requires AllKeys(toks) && j < |toks| && FirstPort(Without(toks[j..], acc.Keys), ports).Err?
    requires FindAll(PORTS, Fill(ps, acc.Keys, acc)) == Without(toks[j..], acc.Keys)
    ensures RoundsAgree(ps, toks, j, ports, acc)
  {
    TailOf(toks, j);
    FailedRound(ps, toks, toks[j..], acc, ports);
  }

  lemma RescanAt(ps: seq<Piece>, toks: seq<string>, j: nat, acc: map<string, string>)
    requires Rescans(ps, toks) && j <= |toks| && PlainValues(acc) && acc.Keys == Elems(toks[..j])
    ensures FindAll(PORTS, Fill(ps, acc.Keys, acc)) == Without(toks[j..], acc.Keys)
  {
    RemainingAt(toks, j, acc.Keys);
  }

  lemma RoundAt(ps: seq<Piece>, toks: seq<string>, j: nat, acc: map<string, string>, next: map<string, string>,
                p: string, ports: seq<ServicePort>)
    requires WellFormed(ps) && AllKeys(toks) && Safe(ps, toks)
    requires j < |toks| && PlainValues(acc) && acc.Keys == Elems(toks[..j]) && NoDollar(p)
    requires next == (if toks[j] in acc then acc else acc[toks[j] := p]) && next.Keys == acc.Keys + {toks[j]}
    requires FirstPort(Without(toks[j..], acc.Keys), ports) == Ok(p)
    requires FindAll(PORTS, Fill(ps, acc.Keys, acc)) == Without(toks[j..], acc.Keys)
    requires RoundsAgree(ps, toks, j + 1, ports, next)
    ensures RoundsAgree(ps, toks, j, ports, acc)
  {
    TailOf(toks, j);
    SafeAt(ps, toks, j);
    RoundStep(ps, toks[j], acc, p);
    OneRound(ps, toks, toks[j..], acc, next, p, ports);
  }

  lemma SafeAt(ps: seq<Piece>, toks: seq<string>, j: nat)
    requires Safe(ps, toks) && j < |toks|
    ensures SafeStep(ps, Elems(toks[..j]), toks[j])
  {
  }

  lemma RemainingAt(toks: seq<string>, j: nat, done: set<string>)
    requires j <= |toks| && done == Elems(toks[..j])
    ensures Without(toks, done) == Without(toks[j..], done)
  {
    assert toks == toks[..j] + toks[j..];
    WithoutConcat(toks[..j], toks[j..], done);
  }

  lemma TailOf(toks: seq<string>, j: nat)
    requires j < |toks| && AllKeys(toks)
    ensures forall i :: 0 <= i < |toks[j..]| ==> |toks[j..][i]| > 0
    ensures toks[j..] != [] && toks[j..][0] == toks[j] && toks[j..][1..] == toks[j+1..]
  {
  }

  lemma NoRound(ps: seq<Piece>, toks: seq<string>, acc: map<string, string>, ports: seq<ServicePort>)
    requires acc.Keys == Elems(toks)
    ensures PortRounds(Fill(ps, acc.Keys, acc), [], ports) == Outcome(ps, toks, acc, PortValues([], acc.Keys, ports))
  {
    assert acc + map[] == acc;
  }

  lemma FailedRound(ps: seq<Piece>, toks: seq<string>, todo: seq<string>, acc: map<string, string>,
                    ports: seq<ServicePort>)
    requires todo != [] && forall i :: 0 <= i < |todo| ==> |todo[i]| > 0
    requires FindAll(PORTS, Fill(ps, acc.Keys, acc)) == Without(todo, acc.Keys)
    requires FirstPort(Without(todo, acc.Keys), ports).Err?
    ensures PortRounds(Fill(ps, acc.Keys, acc), todo, ports) ==
            Outcome(ps, toks, acc, PortValues(todo, acc.Keys, ports))
  {
  }

  lemma OneRound(ps: seq<Piece>, toks: seq<string>, todo: seq<string>, acc: map<string, string>,
                 next: map<string, string>, p: string, ports: seq<ServicePort>)
    requires todo != [] && forall i :: 0 <= i < |todo| ==> |todo[i]| > 0
    requires next == (if todo[0] in acc then acc else acc[todo[0] := p]) && next.Keys == acc.Keys + {todo[0]}
    requires FirstPort(Without(todo, acc.Keys), ports) == Ok(p)
    requires FindAll(PORTS, Fill(ps, acc.Keys, acc)) == Without(todo, acc.Keys)
    requires ReplaceAll(Fill(ps, acc.Keys, acc), todo[0], p) == Fill(ps, next.Keys, next)
    requires PortRounds(Fill(ps, next.Keys, next), todo[1..], ports) ==
             Outcome(ps, toks, next, PortValues(todo[1..], next.Keys, ports))
    ensures PortRounds(Fill(ps, acc.Keys, acc), todo, ports) ==
            Outcome(ps, toks, acc, PortValues(todo, acc.Keys, ports))
  {
    OutcomeStep(ps, toks, todo[0], p, acc, PortValues(todo[1..], next.Keys, ports));
  }

  lemma NextKeys(toks: seq<string>, j: nat, acc: map<string, string>, p: string)
    requires j < |toks| && acc.Keys == Elems(toks[..j])
    ensures var next := if toks[j] in acc then acc else acc[toks[j] := p];
            next.Keys == acc.Keys + {toks[j]} && next.Keys == Elems(toks[..j+1])
  {
    assert toks[..j+1] == toks[..j] + [toks[j]];
  }

  lemma OutcomeStep(ps: seq<Piece>, toks: seq<string>, k: string, p: string, acc: map<string, string>,
                    r: Result<map<string, string>>)
    requires r.Ok? ==> k !in r.value
    ensures var next := if k in acc then acc else acc[k := p];
            Outcome(ps, toks, next, r) ==
            Outcome(ps, toks, acc, if r.Err? then r else Ok(if k in acc then r.value else r.value[k := p]))
  {
    if r.Ok? && k !in acc {
      assert acc[k := p] + r.value == acc + r.value[k := p];
    }
  }

  /** The template with the values of a table, or the error. */
  function Substituted(pat: Pattern, s: string, r: Result<map<string, string>>): Result<string> {
    match r
    case Err(e) => Err(e)
    case Ok(m) => Ok(Expand(pat, s, m))
  }

  /**
   * The meaning of `parsePorts`, for all ports and all templates with separated placeholders, the shorter of
   * two in prefix relation last: one simultaneous substitution, with the ports of `PortValues`.
   */
  lemma PortsMeaning(s: string, ports: seq<ServicePort>)
    requires Separated(PORTS, s) && ShorterLast(FindAll(PORTS, s))
    ensures ParsedPorts(s, ports) == Substituted(PORTS, s, PortValues(FindAll(PORTS, s), {}, ports))
  {
    var toks, ps := FindAll(PORTS, s), Parse(PORTS, s);
    var r := PortValues(toks, {}, ports);
    AllRounds(s, ps, toks, ports);
    OutcomeOfAll(s, toks, r);
  }

  lemma OutcomeOfAll(s: string, toks: seq<string>, r: Result<map<string, string>>)
    requires toks == FindAll(PORTS, s)
    ensures Outcome(Parse(PORTS, s), toks, map[], r) == Substituted(PORTS, s, r)
  {
    if r.Ok? {
      ExpandIsFill(PORTS, s, Elems(toks), r.value);
      assert map[] + r.value == r.value;
    }
  }

  lemma AllRounds(s: string, ps: seq<Piece>, toks: seq<string>, ports: seq<ServicePort>)
    requires Separated(PORTS, s) && ShorterLast(toks)
    requires toks == FindAll(PORTS, s) && ps == Parse(PORTS, s)
    ensures PortRounds(s, toks, ports) == Outcome(ps, toks, map[], PortValues(toks, {}, ports))
  {
    var none: map<string, string> := map[];
    ParseRenders(PORTS, s);
    FindAllIsTokens(PORTS, s);
    SeparatedIsSafe(PORTS, s);
    forall a: map<string, string> | PlainValues(a)
      ensures FindAll(PORTS, Fill(ps, a.Keys, a)) == Without(toks, a.Keys)
    {
      FindAllRemaining(PORTS, s, a.Keys, a);
    }
    assert none.Keys == {} == Elems(toks[..0]);
    RoundsFrom(ps, toks, 0, ports, none);
    assert toks[0..] == toks && RoundsAgree(ps, toks, 0, ports, none);
  }

  // ---------------------------------------------------------------- when the ports are the right ones

  /** The port a placeholder names: the NodePort of the first port with its number as target, else "". */
  function OwnPort(t: string, ports: seq<ServicePort>): string {
    var n := Atoi(Suffix(t));
    var r := if n.Some? then PortFor(n.value, ports) else Ok(None);
    if r.Ok? && r.value.Some? then r.value.value else ""
  }

  lemma OwnIsDigits(t: string, ports: seq<ServicePort>)
    ensures AllDigits(OwnPort(t, ports)) && NoDollar(OwnPort(t, ports))
  {
    if Atoi(Suffix(t)).Some? {
      var j := PortForAt(Atoi(Suffix(t)).value, ports);
    }
  }

  predicate Resolves(t: string, ports: seq<ServicePort>) {
    OwnPort(t, ports) != ""
  }

  /** The own port of the first placeholder that resolves, or "". */
  function FirstOwn(toks: seq<string>, ports: seq<ServicePort>): string {
    if toks == [] then ""
    else if Resolves(toks[0], ports) then OwnPort(toks[0], ports)
    else FirstOwn(toks[1..], ports)
  }

  lemma {:induction false} FirstPortIsOwn(toks: seq<string>, ports: seq<ServicePort>)
    requires FirstPort(toks, ports).Ok?
    ensures FirstPort(toks, ports).value == FirstOwn(toks, ports)
  {
    if toks != [] {
      FirstPortHead(toks, ports);
      if !Resolves(toks[0], ports) {
        FirstPortIsOwn(toks[1..], ports);
      }
    }
  }

  lemma {:induction false} FirstOwnOfOne(toks: seq<string>, t: string, ports: seq<ServicePort>)
    requires t in toks && forall u :: u in toks ==> u == t
    ensures FirstOwn(toks, ports) == OwnPort(t, ports)
  {
    assert toks[0] in toks;
    if |toks| > 1 && !Resolves(t, ports) {
      forall u | u in toks[1..] ensures u == t { assert u in toks; }
      assert toks[1..][0] in toks[1..];
      FirstOwnOfOne(toks[1..], t, ports);
    }
  }

  /** Some placeholder that names no port is replaced while one that does still stands. */
  predicate Steals(toks: seq<string>, done: set<string>, ports: seq<ServicePort>) {
    toks != [] &&
    (|| (toks[0] !in done && !Resolves(toks[0], ports) && exists t :: t in toks && t !in done && Resolves(t, ports))
     || Steals(toks[1..], done + {toks[0]}, ports))
  }

  lemma {:induction false} FirstPortFound(toks: seq<string>, ports: seq<ServicePort>)
    requires FirstPort(toks, ports).Ok?
    ensures FirstPort(toks, ports).value != "" <==> exists t :: t in toks && Resolves(t, ports)
    ensures toks != [] && Resolves(toks[0], ports) ==> FirstPort(toks, ports).value == OwnPort(toks[0], ports)
  {
    if toks != [] {
      FirstPortHead(toks, ports);
      if !Resolves(toks[0], ports) {
        FirstPortFound(toks[1..], ports);
        assert toks == [toks[0]] + toks[1..];
      }
    }
  }

  lemma FirstPortHead(toks: seq<string>, ports: seq<ServicePort>)
    requires toks != [] && FirstPort(toks, ports).Ok?
    ensures FirstPort(toks, ports) == if Resolves(toks[0], ports) then Ok(OwnPort(toks[0], ports))
            else FirstPort(toks[1..], ports)
  {
    var n := Atoi(Suffix(toks[0]));
    var p := PortFor(n.value, ports);
    if p.Ok? && p.value.Some? {
      PortForPlain(n.value, ports);
    }
  }

  lemma {:induction false} ValuesAreOwn(toks: seq<string>, done: set<string>, ports: seq<ServicePort>)
    requires PortValues(toks, done, ports).Ok?
    ensures var m := PortValues(toks, done, ports).value;
            && (forall t :: t in m ==> m[t] == OwnPort(t, ports) || OwnPort(t, ports) == "")
            && ((forall t :: t in m ==> m[t] == OwnPort(t, ports)) <==> !Steals(toks, done, ports))
  {
    if toks != [] {
      var rest := Without(toks, done);
      WithoutElems(toks, done);
      FirstPortFound(rest, ports);
      ValuesAreOwn(toks[1..], done + {toks[0]}, ports);
      if toks[0] !in done {
        assert rest[0] == toks[0];
        SomeResolves(rest, toks, done, ports);
        OwnWith(PortValues(toks[1..], done + {toks[0]}, ports).value, toks[0], FirstPort(rest, ports).value, ports);
      }
    }
  }

  /** One more placeholder with its port. */
  lemma OwnWith(m: map<string, string>, k: string, p: string, ports: seq<ServicePort>)
    requires k !in m
    ensures (forall t :: t in m[k := p] ==> m[k := p][t] == OwnPort(t, ports)) <==>
            p == OwnPort(k, ports) && forall t :: t in m ==> m[t] == OwnPort(t, ports)
    ensures (forall t :: t in m[k := p] ==> m[k := p][t] == OwnPort(t, ports) || OwnPort(t, ports) == "") <==>
            (p == OwnPort(k, ports) || OwnPort(k, ports) == "") &&
            forall t :: t in m ==> m[t] == OwnPort(t, ports) || OwnPort(t, ports) == ""
  {
    assert m[k := p][k] == p;
    assert forall t :: t in m ==> t in m[k := p] && m[k := p][t] == m[t];
  }

  lemma SomeResolves(rest: seq<string>, toks: seq<string>, done: set<string>, ports: seq<ServicePort>)
    requires forall t :: t in rest <==> t in toks && t !in done
    ensures (exists t :: t in rest && Resolves(t, ports)) <==>
              (exists t :: t in toks && t !in done && Resolves(t, ports))
  {
  }

  /** Longer values make a longer text. */
  lemma {:induction false} ExpandGrows(pat: Pattern, s: string, v: map<string, string>, w: map<string, string>,
                                       strict: bool)
    requires forall t :: t in FindAll(pat, s) ==> Lookup(v, t) == Lookup(w, t) || Lookup(v, t) == ""
    requires strict ==> exists t :: t in FindAll(pat, s) && Lookup(v, t) != Lookup(w, t)
    ensures |Expand(pat, s, v)| <= |Expand(pat, s, w)|
    ensures strict ==> |Expand(pat, s, v)| < |Expand(pat, s, w)|
  {
    if s != "" {
      var n := MatchLen(pat, s);
      var rest := if n > 0 then s[n..] else s[1..];
      assert FindAll(pat, s) == (if n > 0 then [s[..n]] else []) + FindAll(pat, rest);
      var here := n > 0 && Lookup(v, s[..n]) != Lookup(w, s[..n]);
      assert n > 0 ==> s[..n] in FindAll(pat, s);
      assert forall t :: t in FindAll(pat, rest) ==> t in FindAll(pat, s);
      ExpandGrows(pat, rest, v, w, strict && !here);
    }
  }

  function OwnPorts(toks: seq<string>, ports: seq<ServicePort>): map<string, string> {
    map t | t in toks :: OwnPort(t, ports)
  }

  /** A foreign port makes the text longer than the own ports would. */
  lemma ForeignPortShows(s: string, ports: seq<ServicePort>, m: map<string, string>, t: string)
    requires t in FindAll(PORTS, s) && t in m && m[t] != OwnPort(t, ports)
    requires forall u :: u in FindAll(PORTS, s) ==> u in m && (m[u] == OwnPort(u, ports) || OwnPort(u, ports) == "")
    ensures Expand(PORTS, s, m) != Expand(PORTS, s, OwnPorts(FindAll(PORTS, s), ports))
  {
    var own := OwnPorts(FindAll(PORTS, s), ports);
    assert Lookup(own, t) != Lookup(m, t);
    ExpandGrows(PORTS, s, own, m, true);
  }

  /**
   * Exactly when every placeholder receives the port it names: `getPort` answers for the first resolvable
   * placeholder left in the text, so the ports are right iff none is replaced that names no port while one
   * that names a port still stands.
   */
  lemma PortsAreOwnIff(s: string, ports: seq<ServicePort>)
    requires Separated(PORTS, s) && ShorterLast(FindAll(PORTS, s))
    requires PortValues(FindAll(PORTS, s), {}, ports).Ok?
    ensures ParsedPorts(s, ports) == Ok(Expand(PORTS, s, OwnPorts(FindAll(PORTS, s), ports))) <==>
            !Steals(FindAll(PORTS, s), {}, ports)
  {
    var toks := FindAll(PORTS, s);
    var m := PortValues(toks, {}, ports).value;
    PortsMeaning(s, ports);
    ValuesAreOwn(toks, {}, ports);
    if Steals(toks, {}, ports) {
      var t :| t in m && m[t] != OwnPort(t, ports);
      ForeignPortShows(s, ports, m, t);
    } else {
      ExpandAgrees(PORTS, s, OwnPorts(toks, ports), m);
    }
  }

  lemma {:induction false} NumericPortFor(n: int, ports: seq<ServicePort>)
    requires forall p :: p in ports ==> Atoi(p.targetPort).Some?
    ensures PortFor(n, ports).Ok?
  {
    if ports != [] {
      assert ports[0] in ports;
      NumericPortFor(n, ports[1..]);
    }
  }

  lemma {:induction false} NumericFirstPort(toks: seq<string>, ports: seq<ServicePort>)
    requires forall p :: p in ports ==> Atoi(p.targetPort).Some?
    requires forall t :: t in toks ==> Atoi(Suffix(t)).Some?
    ensures FirstPort(toks, ports).Ok?
  {
    if toks != [] {
      assert toks[0] in toks;
      NumericPortFor(Atoi(Suffix(toks[0])).value, ports);
      NumericFirstPort(toks[1..], ports);
    }
  }

  /** With numeric targets, and placeholders whose numbers fit, no round fails. */
  lemma {:induction false} NumericIsOk(toks: seq<string>, done: set<string>, ports: seq<ServicePort>)
    requires forall p :: p in ports ==> Atoi(p.targetPort).Some?
    requires forall t :: t in toks ==> Atoi(Suffix(t)).Some?
    ensures PortValues(toks, done, ports).Ok?
  {
    if toks != [] {
      WithoutElems(toks, done);
      NumericFirstPort(Without(toks, done), ports);
      assert forall t :: t in toks[1..] ==> t in toks;
      NumericIsOk(toks[1..], done + {toks[0]}, ports);
    }
  }
}
