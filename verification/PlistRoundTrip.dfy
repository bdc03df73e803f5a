/**
 * What `install` renders reads back flag for flag, and port lists keep their numbers.
 */
module PlistRoundTrip {
  import opened Options
  import opened Listeners
  import opened Texts
  import opened VmRefs
  import opened Plist

  // ---- port lists ------------------------------------------------------------------

  /** ParsePorts' list after the split. */
  function Ports(fields: seq<string>): Option<seq<Port>> {
    if fields == [] then Some([])
    else
      match (Ports(fields[..|fields| - 1]), ParseUint16(TrimSpace(fields[|fields| - 1])))
      case (Some(before), Some(v)) => if v == 0 then None else Some(before + [v])
      case _ => None
  }

  /** None is a bad port; empty or blank text is an empty list. */
  function PortsOf(s: string): Option<seq<Port>> {
    if TrimSpace(s) == "" then Some([]) else Ports(Split(s, ','))
  }

  method ParsePorts(s: string) returns (r: Option<seq<Port>>)
    ensures r == PortsOf(s)
  {
    if TrimSpace(s) == "" {
      return Some([]);
    }
    var fields, out: seq<Port> := Split(s, ','), [];
    for k := 0 to |fields|
      invariant Ports(fields[..k]) == Some(out)
    {
      assert fields[..k + 1][..k] == fields[..k];
      var v := ParseUint16(TrimSpace(fields[k]));
      if v.None? || v.value == 0 {
        BadPortStands(fields, k + 1);
        return None;
      }
      out := out + [v.value];
    }
    assert fields[..|fields|] == fields;
    return Some(out);
  }

  lemma {:induction false} BadPortStands(fields: seq<string>, k: nat)
    requires k <= |fields| && Ports(fields[..k]).None?
    ensures Ports(fields).None?
  {
    if k < |fields| {
      assert fields[..|fields| - 1][..k] == fields[..k];
      BadPortStands(fields[..|fields| - 1], k);
    } else {
      assert fields[..k] == fields;
    }
  }

  lemma ItoaIsPlain(n: nat)
    ensures Itoa(n) != "" && TrimSpace(Itoa(n)) == Itoa(n)
    ensures ',' !in Itoa(n) && '<' !in Itoa(n)
  {
  }

  lemma {:induction false} ItoasBack(ports: seq<Port>)
    requires NoZero(ports)
    ensures Ports(Itoas(ports)) == Some(ports)
  {
    if ports != [] {
      var init, p := ports[..|ports| - 1], ports[|ports| - 1];
      ItoasBack(init);
      ItoasSnoc(ports);
      OnePortMore(Itoas(init), Itoas(ports), init, ports, p);
    }
  }

  lemma OnePortMore(fields: seq<string>, more: seq<string>, ports: seq<Port>, ports': seq<Port>, p: Port)
    requires Ports(fields) == Some(ports) && p != 0 && more == fields + [Itoa(p)] && ports' == ports + [p]
    ensures Ports(more) == Some(ports')
  {
    ItoaIsPlain(p);
    ItoaParses(p);
    assert more[..|more| - 1] == fields;
  }

  lemma {:induction false} ItoasSnoc(ports: seq<Port>)
    requires ports != []
    ensures Itoas(ports) == Itoas(ports[..|ports| - 1]) + [Itoa(ports[|ports| - 1])]
  {
    var n := |ports| - 1;
    if n > 0 {
      ItoasSnoc(ports[1..]);
      assert ports[1..][..n - 1] == ports[..n][1..];
    } else {
      assert Itoas(ports[1..]) == [];
    }
  }

  lemma {:induction false} ItoasArePlain(ports: seq<Port>, i: nat)
    requires i < |ports|
    ensures ',' !in Itoas(ports)[i] && '<' !in Itoas(ports)[i] && Itoas(ports)[i] == Itoa(ports[i])
  {
    ItoaIsPlain(ports[i]);
    if i > 0 {
      ItoasArePlain(ports[1..], i - 1);
    }
  }

  lemma {:induction false} JoinedIsTrimmed(ports: seq<Port>)
    requires ports != []
    ensures var s := JoinPorts(ports); s != "" && !IsSpace(s[0]) && !IsSpace(s[|s| - 1]) && '<' !in s
  {
    var rest := ports[1..];
    ItoaIsPlain(ports[0]);
    ItoaParses(ports[0]);
    DigitsArePlain(Itoa(ports[0]), '<');
    if rest != [] {
      JoinedIsTrimmed(rest);
    }
  }

  /** What joinPorts writes, ParsePorts reads back, the empty list included. */
  lemma PortsRoundTrip(ports: seq<Port>)
    requires NoZero(ports)
    ensures PortsOf(JoinPorts(ports)) == Some(ports)
    ensures TrimSpace(JoinPorts(ports)) == JoinPorts(ports) && '<' !in JoinPorts(ports)
    ensures JoinPorts(ports) == "" <==> ports == []
  {
    if ports == [] {
      assert JoinPorts(ports) == "";
    } else {
      JoinedIsTrimmed(ports);
      TrimmedStays(JoinPorts(ports));
      forall i | 0 <= i < |Itoas(ports)| ensures ',' !in Itoas(ports)[i] {
        ItoasArePlain(ports, i);
      }
      SplitJoin(Itoas(ports), ',');
      ItoasBack(ports);
    }
  }

  // ---- the default skip-list ---------------------------------------------------------

  /** Two lists hold the same ports, as often. */
  predicate SamePorts(a: seq<Port>, b: seq<Port>) { multiset(a) == multiset(b) }

  method HaveSamePorts(a: seq<Port>, b: seq<Port>) returns (same: bool)
    ensures same == SamePorts(a, b)
  {
    if |a| != |b| {
      assert |multiset(a)| != |multiset(b)|;
      return false;
    }
    var seen: multiset<Port> := multiset{};
    for i := 0 to |a|
      invariant seen == multiset(a[..i])
    {
      assert a[..i + 1] == a[..i] + [a[i]];
      seen := seen + multiset{a[i]};
    }
    assert a[..|a|] == a;
    for i := 0 to |b|
      invariant seen + multiset(b[..i]) == multiset(a)
    {
      assert b[..i + 1] == b[..i] + [b[i]];
      if b[i] !in seen {
        TooMany(a, b, i, seen);
        return false;
      }
      seen := seen - multiset{b[i]};
    }
    assert b[..|b|] == b;
    assert |seen| + |multiset(b)| == |multiset(a)|;
    assert |seen| == 0;
    return true;
  }

  lemma TooMany(a: seq<Port>, b: seq<Port>, i: nat, seen: multiset<Port>)
    requires i < |b| && seen + multiset(b[..i]) == multiset(a) && b[i] !in seen
    ensures multiset(a) != multiset(b)
  {
    assert b == b[..i] + [b[i]] + b[i + 1..];
    assert multiset(b)[b[i]] >= multiset(b[..i])[b[i]] + 1;
  }

  /** SetSkip's value: None for a bad list, otherwise the config's new skip. */
  function SkipOf(spec: string): Option<Option<seq<Port>>> {
    match PortsOf(spec)
    case None => None
    case Some(ports) => Some(if SamePorts(ports, DEFAULT_SKIP) then None else Some(ports))
  }

  /** The config `install` fills in. */
  class Draft {
    var config: Config

    constructor (config: Config)
      ensures this.config == config
    {
      this.config := config;
    }

    /** A list that merely restates the default renders nothing; an empty one renders. */
    method SetSkip(spec: string) returns (ok: bool)
      modifies this
      ensures ok == SkipOf(spec).Some?
      ensures config == if ok then old(config).(skip := SkipOf(spec).value) else old(config)
    {
      var ports := ParsePorts(spec);
      if ports.None? {
        return false;
      }
      var same := HaveSamePorts(ports.value, DEFAULT_SKIP);
      config := config.(skip := if same then None else ports);
      return true;
    }
  }

  // ---- reading flags back -----------------------------------------------------------------

  function Get(m: map<string, string>, flag: string): Option<string> {
    if flag in m then Some(m[flag]) else None
  }

  /** A flag's value in a list of pairs: the last one wins. */
  function Valued(pairs: seq<(string, string)>, flag: string): Option<string> {
    if pairs == [] then None
    else if pairs[|pairs| - 1].0 == flag then Some(pairs[|pairs| - 1].1)
    else Valued(pairs[..|pairs| - 1], flag)
  }

  function Trimmed(v: Option<string>): Option<string> {
    match v
    case Some(s) => Some(TrimSpace(s))
    case None => None
  }

  function Noted(pairs: seq<(string, string)>, known: map<string, string>): map<string, string> {
    if pairs == [] then known else Noted(pairs[1..], known[pairs[0].0 := TrimSpace(pairs[0].1)])
  }

  lemma {:induction false} NotedValues(pairs: seq<(string, string)>, known: map<string, string>, flag: string)
    ensures Get(Noted(pairs, known), flag) ==
            if Valued(pairs, flag).Some? then Trimmed(Valued(pairs, flag)) else Get(known, flag)
  {
    if pairs != [] {
      NotedValues(pairs[1..], known[pairs[0].0 := TrimSpace(pairs[0].1)], flag);
      ValuedFirst(pairs, flag);
    }
  }

  lemma {:induction false} ValuedFirst(pairs: seq<(string, string)>, flag: string)
    requires pairs != []
    ensures Valued(pairs, flag) ==
            if Valued(pairs[1..], flag).Some? then Valued(pairs[1..], flag)
            else if pairs[0].0 == flag then Some(pairs[0].1) else None
  {
    var n := |pairs| - 1;
    if n > 0 {
      ValuedFirst(pairs[..n], flag);
      assert pairs[..n][1..] == pairs[1..][..n - 1];
    } else {
      assert pairs[..0] == [] && pairs[1..] == [];
    }
  }

  predicate AllFlags(pairs: seq<(string, string)>) { forall i :: 0 <= i < |pairs| ==> IsFlag(pairs[i].0) }

  lemma {:induction false} PairsOfFlat(pairs: seq<(string, string)>, known: map<string, string>)
    requires AllFlags(pairs)
    ensures Pairs(Flat(pairs), known) == Noted(pairs, known)
  {
    if pairs != [] {
      PairsOfFlat(pairs[1..], known[pairs[0].0 := TrimSpace(pairs[0].1)]);
      assert Flat(pairs)[2..] == Flat(pairs[1..]);
    }
  }

  lemma ValuedWhen(pairs: seq<(string, string)>, given: bool, name: string, value: string, flag: string)
    ensures Valued(pairs + When(given, name, value), flag) == if given && name == flag then Some(value) else Valued(pairs, flag)
  {
    if given {
      assert (pairs + [(name, value)])[..|pairs|] == pairs;
    } else {
      assert pairs + [] == pairs;
    }
  }

  /** What a flag's value should be, flag by flag. */
  function FlagOf(c: Config, flag: string): Option<string> {
    if flag == "-secret-file" && c.secretFile != "" then Some(c.secretFile)
    else if flag == "-vm-subnet" && c.subnet != "" then Some(c.subnet)
    else if flag == "-vm-mac" && c.mac != "" then Some(c.mac)
    else FrontFlagOf(c, flag)
  }

  /** What the pairs up to -skip say. */
  function FrontFlagOf(c: Config, flag: string): Option<string> {
    if flag == "-skip" && c.skip.Some? then Some(JoinPorts(c.skip.value))
    else if flag == "-udp" && c.udp != [] then Some(JoinPorts(c.udp))
    else if flag == "-vm" then Some(c.vm)
    else if flag == "-agent" then Some(if c.agent != "" then c.agent else "auto")
    else None
  }

  lemma TwoValued(a: (string, string), b: (string, string), flag: string)
    ensures Valued([a, b], flag) == if flag == b.0 then Some(b.1) else if flag == a.0 then Some(a.1) else None
  {
    assert [a, b][..1] == [a] && [a][..0] == [];
    assert Valued([a], flag) == if flag == a.0 then Some(a.1) else Valued([], flag);
  }

  lemma FrontIsValued(c: Config, flag: string)
    ensures Valued(FrontFlags(c), flag) == FrontFlagOf(c, flag)
  {
    var agent := ("-agent", if c.agent != "" then c.agent else "auto");
    var f0 := [agent, ("-vm", c.vm)];
    var f1 := f0 + When(c.udp != [], "-udp", JoinPorts(c.udp));
    ValuedWhen(f1, c.skip.Some?, "-skip", if c.skip.Some? then JoinPorts(c.skip.value) else "", flag);
    ValuedWhen(f0, c.udp != [], "-udp", JoinPorts(c.udp), flag);
    TwoValued(agent, ("-vm", c.vm), flag);
  }

  lemma FlagsAreValued(c: Config, flag: string)
    ensures Valued(Flags(c), flag) == FlagOf(c, flag)
  {
    var f2 := FrontFlags(c);
    var f3 := f2 + When(c.mac != "", "-vm-mac", c.mac);
    var f4 := f3 + When(c.subnet != "", "-vm-subnet", c.subnet);
    ValuedWhen(f4, c.secretFile != "", "-secret-file", c.secretFile, flag);
    ValuedWhen(f3, c.subnet != "", "-vm-subnet", c.subnet, flag);
    ValuedWhen(f2, c.mac != "", "-vm-mac", c.mac, flag);
    FrontIsValued(c, flag);
  }

  // ---- what validation lets through is plain --------------------------------------------------

  lemma PartsArePlain(s: string, sep: char)
    requires sep != '<' && NoneHas(Split(s, sep), '<')
    ensures '<' !in s
  {
    if '<' in s {
      var i := SplitKeeps(s, sep, '<');
    }
  }

  lemma MacIsPlain(s: string)
    requires IsMac(s)
    ensures '<' !in s
  {
    var parts := Split(s, ':');
    forall i | 0 <= i < |parts| ensures '<' !in parts[i] {
      DigitsArePlain(parts[i], '<');
    }
    PartsArePlain(s, ':');
  }

  lemma SubnetIsPlain(s: string)
    requires IsSubnet(s)
    ensures '<' !in s
  {
    var halves := Split(s, '/');
    var quads := Split(halves[0], '.');
    forall i | 0 <= i < |quads| ensures '<' !in quads[i] {
      DigitsArePlain(quads[i], '<');
    }
    PartsArePlain(halves[0], '.');
    DigitsArePlain(halves[1], '<');
    PartsArePlain(s, '/');
  }

  lemma LoopbackIsPlain(s: string)
    requires IsLoopback(s)
    ensures '<' !in s
  {
  }

  predicate PlainPairs(pairs: seq<(string, string)>) { forall i :: 0 <= i < |pairs| ==> '<' !in pairs[i].0 && '<' !in pairs[i].1 }

  lemma {:induction false} FlatIsPlain(pairs: seq<(string, string)>)
    requires PlainPairs(pairs)
    ensures Plain(Flat(pairs))
  {
    if pairs != [] {
      FlatIsPlain(pairs[1..]);
    }
  }

  lemma WhenIsPlain(pairs: seq<(string, string)>, given: bool, name: string, value: string)
    requires PlainPairs(pairs) && AllFlags(pairs)
    requires given ==> '<' !in name && '<' !in value && IsFlag(name)
    ensures PlainPairs(pairs + When(given, name, value)) && AllFlags(pairs + When(given, name, value))
  {
  }

  predicate PlainFlag(name: string) { '<' !in name && IsFlag(name) }

  lemma NamesArePlain()
    ensures PlainFlag("-agent") && PlainFlag("-vm") && PlainFlag("-udp") && PlainFlag("-skip")
    ensures PlainFlag("-vm-mac") && PlainFlag("-vm-subnet") && PlainFlag("-secret-file")
  {
  }

  lemma FirstPairs(a: string, av: string, b: string, bv: string)
    requires PlainFlag(a) && PlainFlag(b) && '<' !in av && '<' !in bv
    ensures PlainPairs([(a, av), (b, bv)]) && AllFlags([(a, av), (b, bv)])
  {
  }

  lemma ValuesArePlain(c: Config)
    requires Validate(c)
    ensures '<' !in c.vm && '<' !in JoinPorts(c.udp) && '<' !in (if c.skip.Some? then JoinPorts(c.skip.value) else "")
    ensures '<' !in c.mac && '<' !in c.subnet && '<' !in c.secretFile && '<' !in (if c.agent != "" then c.agent else "auto")
  {
    RefIsPlain(c.vm);
    PortsRoundTrip(c.udp);
    if c.skip.Some? { PortsRoundTrip(c.skip.value); }
    if c.mac != "" { MacIsPlain(c.mac); }
    if c.subnet != "" { SubnetIsPlain(c.subnet); }
    if c.agent != "" { LoopbackIsPlain(c.agent); }
    assert '<' !in "auto";
  }

  /** No argument of an accepted config needs escaping. */
  lemma FlagsArePlain(c: Config)
    requires Validate(c)
    ensures PlainPairs(Flags(c)) && AllFlags(Flags(c))
  {
    ValuesArePlain(c);
    NamesArePlain();
    var agent, skip := if c.agent != "" then c.agent else "auto", if c.skip.Some? then JoinPorts(c.skip.value) else "";
    var f0 := [("-agent", agent), ("-vm", c.vm)];
    FirstPairs("-agent", agent, "-vm", c.vm);
    var f1 := f0 + When(c.udp != [], "-udp", JoinPorts(c.udp));
    WhenIsPlain(f0, c.udp != [], "-udp", JoinPorts(c.udp));
    var f2 := f1 + When(c.skip.Some?, "-skip", skip);
    WhenIsPlain(f1, c.skip.Some?, "-skip", skip);
    var f3 := f2 + When(c.mac != "", "-vm-mac", c.mac);
    WhenIsPlain(f2, c.mac != "", "-vm-mac", c.mac);
    var f4 := f3 + When(c.subnet != "", "-vm-subnet", c.subnet);
    WhenIsPlain(f3, c.subnet != "", "-vm-subnet", c.subnet);
    WhenIsPlain(f4, c.secretFile != "", "-secret-file", c.secretFile);
  }

  lemma ArgsAreNoted(args: seq<string>, pairs: seq<(string, string)>)
    requires args == [BINARY_PATH] + Flat(pairs) && AllFlags(pairs)
    ensures Pairs(args, map[]) == Noted(pairs, map[])
  {
    assert args[1..] == Flat(pairs);
    assert BINARY_PATH[0] == '/';
    assert !IsFlag(BINARY_PATH);
    PairsOfFlat(pairs, map[]);
  }

  lemma ArgsArePlain(args: seq<string>, pairs: seq<(string, string)>)
    requires args == [BINARY_PATH] + Flat(pairs) && PlainPairs(pairs)
    ensures Plain(args)
  {
    assert '<' !in BINARY_PATH;
    FlatIsPlain(pairs);
  }

  /**
   * For every accepted config, reading the rendered plist back gives exactly the flags of
   * its argv, each with its value up to white space at the ends, and no others.
   */
  lemma PlistReadsBack(c: Config, flag: string)
    requires Validate(c)
    ensures Get(InstalledArgs(Document(Args(c))), flag) == Trimmed(FlagOf(c, flag))
  {
    var args, pairs := Args(c), Flags(c);
    FlagsArePlain(c);
    ArgsArePlain(args, pairs);
    FindsArgs(args);
    ArgsAreNoted(args, pairs);
    NotedValues(pairs, map[], flag);
    FlagsAreValued(c, flag);
  }
}
