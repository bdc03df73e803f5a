/**
 * The upgrade in place: a bare `install` over an install (cmd/drawbridge/main.go), which
 * is to leave the daemon's argv as it was.
 */
module Upgrade {
  import opened Options
  import opened Listeners
  import opened Texts
  import opened VmRefs
  import opened Plist
  import opened PlistRoundTrip
  import opened Inherit
  import opened LeaseGates

  /** What flags left out mean to a fresh install. */
  const DEFAULTS := Values(DEFAULT_VM, "", "", "", DEFAULT_SKIP_TEXT, "")

  /**
   * What the Mac has around an install: the per-VM secret path, "" when there is none to
   * derive, and the endpoint recorded for a podman machine, whatever it says, or None when
   * there is no record or it no longer describes the machine.
   */
  datatype Around = Around(derived: string, recorded: Option<string>) {
    /** A record without an endpoint is refused like none. */
    function Endpoint(): Option<string> { if recorded == Some("") then None else recorded }
  }

  predicate IsPodman(vm: string) { ParseRef(vm).Some? && ParseRef(vm).value.provider == PODMAN }

  /** runInstall's config, or None when a flag or the machine's record is refused. */
  function Configure(f: Values, mac: Around, parseSubnet: string -> Option<string>): Option<Config> {
    var udp, skip := PortsOf(f.udp), SkipOf(f.skip);
    var pin := if f.mac == "" then Some("") else Leases.Normalized(f.mac);
    var subnet := if f.subnet == "" then Some("") else parseSubnet(f.subnet);
    if udp.None? || skip.None? || pin.None? || subnet.None? || ParseRef(f.vm).None? then None
    else if IsPodman(f.vm) && (mac.Endpoint().None? || pin.value != "") then None
    else
      Some(Config(f.vm, udp.value, pin.value, subnet.value, skip.value,
                  if IsPodman(f.vm) then mac.Endpoint().value else "",
                  if f.secretFile == "" then mac.derived else f.secretFile))
  }

  /** The argv an install gives the daemon, or None when it is refused: the config is validated before it is rendered. */
  function Installs(f: Values, mac: Around, parseSubnet: string -> Option<string>): Option<seq<string>> {
    var c := Configure(f, mac, parseSubnet);
    if c.Some? && Validate(c.value) then Some(Args(c.value)) else None
  }

  /**
   * Flags configure a daemon exactly when each reads as what it is for, and a podman machine has
   * a recorded endpoint and no hardware pin; each then says what was typed, the pin and the
   * subnet canonically, and a secret path left out is the VM's own.
   */
  lemma ConfiguresExactly(f: Values, mac: Around, parseSubnet: string -> Option<string>)
    ensures var r := Configure(f, mac, parseSubnet);
            var podman := ParseRef(f.vm).Some? && ParseRef(f.vm).value.provider == "podman";
            && (r.Some? <==>
                  && ParseRef(f.vm).Some? && PortsOf(f.udp).Some? && PortsOf(f.skip).Some?
                  && (f.mac == "" || Leases.Address(f.mac).Some?) && (f.subnet == "" || parseSubnet(f.subnet).Some?)
                  && (podman ==> f.mac == "" && mac.recorded.Some? && mac.recorded.value != ""))
            && (r.Some? ==>
                  && r.value.vm == f.vm && Some(r.value.udp) == PortsOf(f.udp) && Some(r.value.skip) == SkipOf(f.skip)
                  && (if f.mac == "" then r.value.mac == ""
                      else Leases.Address(r.value.mac) == Leases.Address(f.mac) && IsMac(r.value.mac))
                  && (if f.subnet == "" then r.value.subnet == "" else parseSubnet(f.subnet) == Some(r.value.subnet))
                  && r.value.agent == (if podman then mac.recorded.value else "")
                  && r.value.secretFile == (if f.secretFile == "" then mac.derived else f.secretFile))
  {
    if f.mac != "" && Leases.Address(f.mac).Some? {
      PinIsSame(f.mac);
    }
  }

  lemma PinIsSame(pin: string)
    requires Leases.Address(pin).Some?
    ensures Leases.Normalized(pin).Some? && Leases.Normalized(pin).value != ""
    ensures Leases.Address(Leases.Normalized(pin).value) == Leases.Address(pin) && IsMac(Leases.Normalized(pin).value)
  {
    CanonicalIsNotEmpty(pin);
    Leases.NormalizedIsCanonical(pin, pin);
    var octets := Leases.Address(pin).value;
    Leases.OctetsBounded(Split(Leases.AfterType(TrimSpace(pin)).value, ':'));
    Leases.AddressOfSpelling(octets);
    Leases.SpelledBack(octets);
    OctetsAre(Leases.Spelled(octets));
    forall i | 0 <= i < 6 ensures ':' !in Leases.Spelled(octets)[i] {
      assert Leases.Spelled(octets)[i] in Leases.Spelled(octets);
    }
    SplitJoin(Leases.Spelled(octets), ':');
  }

  function FlagsAfter(f: Values, given: set<Name>, prev: Installed): Values {
    Values(ValueAfter(Vm, f, given, prev), ValueAfter(Mac, f, given, prev), ValueAfter(Subnet, f, given, prev),
          ValueAfter(Udp, f, given, prev), ValueAfter(Skip, f, given, prev), ValueAfter(Secret, f, given, prev))
  }

  lemma AtsDecide(a: Values, b: Values)
    requires forall n :: a.At(n) == b.At(n)
    ensures a == b
  {
    assert a.vm == a.At(Vm) && a.mac == a.At(Mac) && a.subnet == a.At(Subnet);
    assert a.udp == a.At(Udp) && a.skip == a.At(Skip) && a.secretFile == a.At(Secret);
  }

  lemma AfterAt(f: Values, given: set<Name>, prev: Installed, name: Name)
    ensures FlagsAfter(f, given, prev).At(name) == ValueAfter(name, f, given, prev)
  {
  }

  /** What the merge method hands to runInstall. */
  lemma MergedFlags(f: Values, given: set<Name>, prev: Installed, flags: Values, notes: seq<Note>, from: set<Name>)
    requires Merged(ALL, f, given, prev, flags, notes, from)
    ensures flags == FlagsAfter(f, given, prev)
  {
    forall n ensures flags.At(n) == FlagsAfter(f, given, prev).At(n) {
      NamesAreAll(n);
      AfterAt(f, given, prev, n);
    }
    AtsDecide(flags, FlagsAfter(f, given, prev));
  }

  /** A config `install` made of some flags, and rendered. */
  predicate Produced(c: Config, f: Values, mac: Around, parseSubnet: string -> Option<string>) {
    && Configure(f, mac, parseSubnet) == Some(c) && Validate(c)
    // a subnet's canonical text reads as itself
    && (c.subnet != "" ==> parseSubnet(c.subnet) == Some(c.subnet))
  }

  function InstalledOf(c: Config): Installed { InstalledArgs(Document(Args(c))) }

  // ---- what the installed plist holds --------------------------------------------------

  lemma NoSpaceIsTrimmed(s: string)
    requires forall c :: c in s ==> !IsSpace(c)
    ensures TrimSpace(s) == s
  {
  }

  lemma DigitIsNoSpace(s: string, c: char)
    requires AreDigits(s, 16) && c in s
    ensures !IsSpace(c)
  {
  }

  lemma MacIsTrimmed(s: string)
    requires IsMac(s)
    ensures TrimSpace(s) == s
  {
    forall c | c in s ensures !IsSpace(c) {
      if c != ':' {
        var i := SplitKeeps(s, ':', c);
        DigitIsNoSpace(Split(s, ':')[i], c);
      }
    }
    NoSpaceIsTrimmed(s);
  }

  lemma SubnetIsTrimmed(s: string)
    requires IsSubnet(s)
    ensures TrimSpace(s) == s
  {
    var halves := Split(s, '/');
    var quads := Split(halves[0], '.');
    forall c | c in s ensures !IsSpace(c) {
      if c != '/' && c != '.' {
        var i := SplitKeeps(s, '/', c);
        if i == 0 {
          var j := SplitKeeps(halves[0], '.', c);
          DigitIsNoSpace(quads[j], c);
        } else {
          DigitIsNoSpace(halves[1], c);
        }
      }
    }
    NoSpaceIsTrimmed(s);
  }

  lemma PrevIs(c: Config, name: Name)
    requires Validate(c)
    ensures Prev(InstalledOf(c), name) == Trimmed(FlagOf(c, name.Flag()))
  {
    PlistReadsBack(c, name.Flag());
  }

  /** Each flag's own entry among the rendered ones. */
  lemma FlagOfNames(c: Config)
    ensures FlagOf(c, "-vm") == Some(c.vm)
    ensures FlagOf(c, "-udp") == if c.udp != [] then Some(JoinPorts(c.udp)) else None
    ensures FlagOf(c, "-skip") == if c.skip.Some? then Some(JoinPorts(c.skip.value)) else None
    ensures FlagOf(c, "-vm-subnet") == if c.subnet != "" then Some(c.subnet) else None
    ensures FlagOf(c, "-vm-mac") == if c.mac != "" then Some(c.mac) else None
    ensures FlagOf(c, "-secret-file") == if c.secretFile != "" then Some(c.secretFile) else None
  {
  }

  lemma SecretStays(s: string)
    requires IsSecretPath(s)
    ensures TrimSpace(s) != ""
  {
    assert s[0] == "/"[0];
    TrimKeeps(s, '/');
  }

  lemma VmIsKept(prev: Installed, vm: string)
    requires Prev(prev, Vm) == Some(TrimSpace(vm)) && ParseRef(vm).Some?
    ensures ValueAfter(Vm, DEFAULTS, {}, prev) == TrimSpace(vm)
    ensures SameVM(TargetOf(prev), VmAfter(DEFAULTS, {}, prev))
  {
    RefIsPlain(vm);
    ParseRefTrims(vm);
  }

  lemma MacWideIsKept(prev: Installed, name: Name)
    requires name.Udp? || name.Skip? || name.Subnet?
    ensures ValueAfter(name, DEFAULTS, {}, prev) == if Prev(prev, name).Some? then Prev(prev, name).value else DEFAULTS.At(name)
  {
  }

  lemma OneVMsIsKept(prev: Installed, name: Name)
    requires name.PerVM() && SameVM(TargetOf(prev), VmAfter(DEFAULTS, {}, prev))
    ensures ValueAfter(name, DEFAULTS, {}, prev) == OrEmpty(Prev(prev, name))
  {
  }

  lemma PortsPrevIs(c: Config, name: Name, given: bool, ports: seq<Port>)
    requires Validate(c) && NoZero(ports)
    requires FlagOf(c, name.Flag()) == if given then Some(JoinPorts(ports)) else None
    ensures Prev(InstalledOf(c), name) == if given then Some(JoinPorts(ports)) else None
  {
    PrevIs(c, name);
    PortsRoundTrip(ports);
  }

  lemma PrevsAre(c: Config)
    requires Validate(c)
    ensures var prev := InstalledOf(c);
            && Prev(prev, Vm) == Some(TrimSpace(c.vm))
            && Prev(prev, Udp) == (if c.udp != [] then Some(JoinPorts(c.udp)) else None)
            && Prev(prev, Skip) == (if c.skip.Some? then Some(JoinPorts(c.skip.value)) else None)
  {
    FlagOfNames(c);
    PrevIs(c, Vm);
    PortsPrevIs(c, Udp, c.udp != [], c.udp);
    PortsPrevIs(c, Skip, c.skip.Some?, if c.skip.Some? then c.skip.value else []);
  }

  lemma PrevPinsAre(c: Config)
    requires Validate(c)
    ensures var prev := InstalledOf(c);
            && Prev(prev, Subnet) == (if c.subnet != "" then Some(c.subnet) else None)
            && Prev(prev, Mac) == (if c.mac != "" then Some(c.mac) else None)
            && Prev(prev, Secret) == (if c.secretFile != "" then Some(TrimSpace(c.secretFile)) else None)
  {
    FlagOfNames(c);
    PrevIs(c, Subnet);
    PrevIs(c, Mac);
    PrevIs(c, Secret);
    if c.mac != "" { MacIsTrimmed(c.mac); }
    if c.subnet != "" { SubnetIsTrimmed(c.subnet); }
  }

  /** The flags a bare re-install over `c` ends up with. */
  function KeptFlags(c: Config): Values {
    Values(TrimSpace(c.vm), c.mac, c.subnet, JoinPorts(c.udp),
          if c.skip.Some? then JoinPorts(c.skip.value) else DEFAULT_SKIP_TEXT, TrimSpace(c.secretFile))
  }

  lemma FlagsAreKept(c: Config)
    requires Validate(c)
    ensures FlagsAfter(DEFAULTS, {}, InstalledOf(c)) == KeptFlags(c)
  {
    PrevsAre(c);
    PrevPinsAre(c);
    AreKept(c, InstalledOf(c));
  }

  lemma AreKept(c: Config, prev: Installed)
    requires ParseRef(c.vm).Some? && Prev(prev, Vm) == Some(TrimSpace(c.vm))
    requires Prev(prev, Udp) == (if c.udp != [] then Some(JoinPorts(c.udp)) else None)
    requires Prev(prev, Skip) == (if c.skip.Some? then Some(JoinPorts(c.skip.value)) else None)
    requires Prev(prev, Subnet) == (if c.subnet != "" then Some(c.subnet) else None)
    requires Prev(prev, Mac) == (if c.mac != "" then Some(c.mac) else None)
    requires Prev(prev, Secret) == (if c.secretFile != "" then Some(TrimSpace(c.secretFile)) else None)
    ensures FlagsAfter(DEFAULTS, {}, prev) == KeptFlags(c)
  {
    VmIsKept(prev, c.vm);
    MacWideIsKept(prev, Udp);
    MacWideIsKept(prev, Skip);
    MacWideIsKept(prev, Subnet);
    OneVMsIsKept(prev, Mac);
    OneVMsIsKept(prev, Secret);
    assert JoinPorts([]) == "" && TrimSpace("") == "";
  }

  // ---- the same argv again ---------------------------------------------------------------

  lemma ItoaStep(n: nat)
    requires n >= 10
    ensures Itoa(n) == Itoa(n / 10) + [Digit(n % 10)]
  {
  }

  lemma DefaultSkipReads()
    ensures SkipOf(DEFAULT_SKIP_TEXT) == Some(None)
  {
    var two: seq<Port> := [22, 323];
    ItoaStep(22);
    ItoaStep(323);
    ItoaStep(32);
    assert Digit(2) == '2' && Digit(3) == '3' && Itoa(2) == [Digit(2)] && Itoa(3) == [Digit(3)];
    assert Itoa(22) == "22" && Itoa(323) == "323";
    assert two[1..] == [323] && Itoas(two[1..]) == ["323"];
    TwoJoined(two);
    PortsRoundTrip(two);
  }

  lemma TwoJoined(two: seq<Port>)
    requires |two| == 2 && Itoa(two[0]) == "22" && Itoas(two[1..]) == ["323"]
    ensures JoinPorts(two) == DEFAULT_SKIP_TEXT
  {
    var s := Itoas(two);
    assert s == ["22", "323"] && s[1..] == ["323"];
    assert Join(s, ',') == "22" + [','] + Join(["323"], ',');
  }

  lemma SkipReads(ports: seq<Port>)
    requires NoZero(ports) && !SamePorts(ports, DEFAULT_SKIP)
    ensures SkipOf(JoinPorts(ports)) == Some(Some(ports))
  {
    PortsRoundTrip(ports);
  }

  /** The config an upgrade installs: the same, up to white space, a missing secret path and a podman endpoint. */
  function UpgradedConfig(c: Config, now: Around): Config {
    c.(vm := TrimSpace(c.vm),
       agent := if IsPodman(c.vm) && now.Endpoint().Some? then now.Endpoint().value else c.agent,
       secretFile := if c.secretFile == "" then now.derived else TrimSpace(c.secretFile))
  }

  /** What a produced config's values are, that an arbitrary one's need not be. */
  lemma ProducedIsCanonical(c: Config, f: Values, mac: Around, parseSubnet: string -> Option<string>)
    requires Produced(c, f, mac, parseSubnet)
    ensures if IsPodman(c.vm) then c.mac == "" && c.agent != "" else c.agent == ""
    ensures c.mac != "" ==> Leases.Normalized(c.mac) == Some(c.mac)
    ensures c.skip.Some? ==> !SamePorts(c.skip.value, DEFAULT_SKIP)
  {
    if c.mac != "" {
      Leases.NormalizedIsCanonical(f.mac, f.mac);
    }
  }

  lemma SkipTextReads(c: Config)
    requires c.skip.Some? ==> NoZero(c.skip.value) && !SamePorts(c.skip.value, DEFAULT_SKIP)
    ensures SkipOf(KeptFlags(c).skip) == Some(c.skip)
  {
    if c.skip.Some? {
      SkipReads(c.skip.value);
    } else {
      DefaultSkipReads();
    }
  }

  lemma SecretReads(c: Config, now: Around)
    requires c.secretFile != "" ==> IsSecretPath(c.secretFile)
    ensures (if KeptFlags(c).secretFile == "" then now.derived else KeptFlags(c).secretFile) == UpgradedConfig(c, now).secretFile
  {
    if c.secretFile != "" {
      SecretStays(c.secretFile);
    } else {
      assert TrimSpace("") == "";
    }
  }

  /** The kept flags make the installed config again, unless a podman machine's record is gone. */
  lemma KeptConfigures(c: Config, f: Values, mac: Around, now: Around, parseSubnet: string -> Option<string>)
    requires Produced(c, f, mac, parseSubnet)
    ensures Configure(KeptFlags(c), now, parseSubnet) ==
            if IsPodman(c.vm) && now.Endpoint().None? then None else Some(UpgradedConfig(c, now))
  {
    ProducedIsCanonical(c, f, mac, parseSubnet);
    PortsRoundTrip(c.udp);
    SkipTextReads(c);
    SecretReads(c, now);
    ParseRefTrims(c.vm);
    Configures(KeptFlags(c), now, parseSubnet, UpgradedConfig(c, now));
  }

  lemma Configures(f: Values, now: Around, parseSubnet: string -> Option<string>, c: Config)
    requires PortsOf(f.udp) == Some(c.udp) && SkipOf(f.skip) == Some(c.skip) && ParseRef(f.vm).Some?
    requires if f.mac == "" then c.mac == "" else Leases.Normalized(f.mac) == Some(c.mac)
    requires if f.subnet == "" then c.subnet == "" else parseSubnet(f.subnet) == Some(c.subnet)
    requires c.vm == f.vm && c.secretFile == (if f.secretFile == "" then now.derived else f.secretFile)
    requires if IsPodman(f.vm) then c.mac == "" else c.agent == ""
    requires IsPodman(f.vm) && now.Endpoint().Some? ==> c.agent == now.Endpoint().value
    ensures Configure(f, now, parseSubnet) == if IsPodman(f.vm) && now.Endpoint().None? then None else Some(c)
  {
  }

  lemma {:induction false} FlatIsInjective(a: seq<(string, string)>, b: seq<(string, string)>)
    requires Flat(a) == Flat(b)
    ensures a == b
  {
    if a != [] && b != [] {
      assert Flat(a)[2..] == Flat(a[1..]) && Flat(b)[2..] == Flat(b[1..]);
      FlatIsInjective(a[1..], b[1..]);
      assert a[0] == (Flat(a)[0], Flat(a)[1]) && b[0] == (Flat(b)[0], Flat(b)[1]);
      assert a == [a[0]] + a[1..] && b == [b[0]] + b[1..];
    }
  }

  /** The flags before -secret-file. */
  function EarlierFlags(c: Config): seq<(string, string)> {
    FrontFlags(c) + When(c.mac != "", "-vm-mac", c.mac) + When(c.subnet != "", "-vm-subnet", c.subnet)
  }

  /** An endpoint as the argv spells it. */
  function AgentText(agent: string): string { if agent != "" then agent else "auto" }

  lemma SameFlags(c: Config, vm: string, agent: string, secret: string)
    requires Flags(c.(vm := vm, agent := agent, secretFile := secret)) == Flags(c)
    ensures vm == c.vm && AgentText(agent) == AgentText(c.agent) && secret == c.secretFile
  {
    var d := c.(vm := vm, agent := agent, secretFile := secret);
    assert Flags(d)[0] == ("-agent", AgentText(agent)) && Flags(c)[0] == ("-agent", AgentText(c.agent));
    assert Flags(d)[1] == ("-vm", vm) && Flags(c)[1] == ("-vm", c.vm);
    var earlier := EarlierFlags(c);
    assert EarlierFlags(d) == earlier;
    assert Flags(c)[|earlier|..] == When(c.secretFile != "", "-secret-file", c.secretFile);
    assert Flags(d)[|earlier|..] == When(secret != "", "-secret-file", secret);
    SameWhen("-secret-file", secret, c.secretFile);
  }

  lemma SameWhen(name: string, a: string, b: string)
    requires When(a != "", name, a) == When(b != "", name, b)
    ensures a == b
  {
  }

  /** Two configs differing in these three render the same argv exactly when these agree. */
  lemma SameArgs(c: Config, vm: string, agent: string, secret: string)
    ensures Args(c.(vm := vm, agent := agent, secretFile := secret)) == Args(c) <==>
            vm == c.vm && AgentText(agent) == AgentText(c.agent) && secret == c.secretFile
  {
    var d := c.(vm := vm, agent := agent, secretFile := secret);
    if Args(d) == Args(c) {
      assert Args(c)[1..] == Flat(Flags(c)) && Args(d)[1..] == Flat(Flags(d));
      FlatIsInjective(Flags(d), Flags(c));
      SameFlags(c, vm, agent, secret);
    }
  }

  /** What would be installed again is not: no endpoint or one off this Mac, or a derived path a plist cannot hold. */
  predicate Refused(c: Config, now: Around) {
    || (IsPodman(c.vm) && (now.Endpoint().None? || !IsLoopback(now.Endpoint().value)))
    || (c.secretFile == "" && now.derived != "" && !IsSecretPath(now.derived))
  }

  /** Nothing an upgrade could change, would. */
  predicate Stable(c: Config, now: Around) {
    && IsTrimmed(c.vm)
    && (if c.secretFile == "" then now.derived == "" else IsTrimmed(c.secretFile))
    && (IsPodman(c.vm) ==> now.Endpoint() == Some(c.agent))
  }

  lemma TrimmedPathIsOne(s: string)
    requires IsSecretPath(s)
    ensures IsSecretPath(TrimSpace(s))
  {
    assert TrimLeft(s) == s;
    SecretStays(s);
  }

  lemma UpgradedSecret(c: Config, now: Around)
    requires c.secretFile != "" ==> IsSecretPath(c.secretFile)
    ensures var secret := UpgradedConfig(c, now).secretFile;
            (secret != "" ==> IsSecretPath(secret)) <==>
            !(c.secretFile == "" && now.derived != "" && !IsSecretPath(now.derived))
  {
    if c.secretFile != "" {
      TrimmedPathIsOne(c.secretFile);
    }
  }

  lemma UpgradedValidates(c: Config, now: Around)
    requires Validate(c) && (if IsPodman(c.vm) then now.Endpoint().Some? else c.agent == "")
    ensures Validate(UpgradedConfig(c, now)) <==> !Refused(c, now)
  {
    ParseRefTrims(c.vm);
    UpgradedSecret(c, now);
  }

  lemma UpgradedArgs(c: Config, now: Around)
    requires if IsPodman(c.vm) then now.Endpoint().Some? && c.agent != "" else c.agent == ""
    ensures Args(UpgradedConfig(c, now)) == Args(c) <==> Stable(c, now)
  {
    TrimmedStays(c.vm);
    TrimmedStays(c.secretFile);
    var d := UpgradedConfig(c, now);
    SameArgs(c, d.vm, d.agent, d.secretFile);
  }

  /**
   * Upgrading in place is refused exactly when a podman machine has no recorded endpoint, or
   * one that is not on the loopback, or when a secret path that could not be derived at the
   * install now is one a plist cannot hold. Otherwise it gives the daemon the same argv
   * exactly when the -vm spelling and the secret path have no white space at their ends, a
   * secret path that could not be derived still cannot, and a podman machine's recorded
   * endpoint is still the same. `flags` is what the merge with the installed plist hands on
   * when no flag is given.
   */
  lemma UpgradeIsFixpoint(c: Config, f: Values, mac: Around, now: Around, parseSubnet: string -> Option<string>,
                          flags: Values, notes: seq<Note>, from: set<Name>)
    requires Produced(c, f, mac, parseSubnet)
    requires Merged(ALL, DEFAULTS, {}, InstalledOf(c), flags, notes, from)
    ensures var again := Installs(flags, now, parseSubnet);
            && (again.None? <==> Refused(c, now))
            && (again.Some? ==> (again.value == Args(c) <==> Stable(c, now)))
  {
    MergedFlags(DEFAULTS, {}, InstalledOf(c), flags, notes, from);
    FlagsAreKept(c);
    KeptConfigures(c, f, mac, now, parseSubnet);
    ProducedIsCanonical(c, f, mac, parseSubnet);
    if !IsPodman(c.vm) || now.Endpoint().Some? {
      UpgradedValidates(c, now);
      UpgradedArgs(c, now);
    }
  }

  lemma DefaultVmIsAName()
    ensures IsInstanceName(DEFAULT_VM) && IsTrimmed(DEFAULT_VM)
  {
  }

  lemma DefaultVmParses()
    ensures ParseRef(DEFAULT_VM) == Some(Ref(LIMA, DEFAULT_VM))
  {
    DefaultVmIsAName();
    BareRefIs(DEFAULT_VM);
  }

  /** The config of an install given a -vm and no other flag. */
  function VmConfig(vm: string, agent: string, secret: string): Config { Config(vm, [], "", "", None, agent, secret) }

  /** A bare install over nothing, or one that spells the default VM with a space in front. */
  function BareConfig(vm: string, secret: string): Config { VmConfig(vm, "", secret) }

  lemma VmIsProduced(vm: string, agent: string, mac: Around, parseSubnet: string -> Option<string>)
    requires ParseRef(vm).Some? && (mac.derived != "" ==> IsSecretPath(mac.derived))
    requires if IsPodman(vm) then mac.Endpoint() == Some(agent) && IsLoopback(agent) else agent == ""
    ensures Produced(VmConfig(vm, agent, mac.derived), DEFAULTS.(vm := vm), mac, parseSubnet)
  {
    DefaultSkipReads();
    assert PortsOf("") == Some([]);
    Configures(DEFAULTS.(vm := vm), mac, parseSubnet, VmConfig(vm, agent, mac.derived));
  }

  lemma LimaIsNoPodman()
    ensures LIMA != PODMAN
  {
    assert |LIMA| == 4 && |PODMAN| == 6;
  }

  lemma DefaultVmIsNoPodman(vm: string)
    requires TrimSpace(vm) == DEFAULT_VM
    ensures ParseRef(vm).Some? && !IsPodman(vm)
  {
    DefaultVmParses();
    LimaIsNoPodman();
    ParseRefTrims(vm);
  }

  lemma BareIsProduced(vm: string, mac: Around, parseSubnet: string -> Option<string>)
    requires (mac.derived != "" ==> IsSecretPath(mac.derived)) && TrimSpace(vm) == DEFAULT_VM
    ensures Produced(BareConfig(vm, mac.derived), DEFAULTS.(vm := vm), mac, parseSubnet)
    ensures !IsPodman(vm)
  {
    DefaultVmIsNoPodman(vm);
    VmIsProduced(vm, "", mac, parseSubnet);
  }

  /** A bare install over nothing, then the same again: the argv stays. */
  lemma BareInstallUpgrades(mac: Around, parseSubnet: string -> Option<string>,
                            flags: Values, notes: seq<Note>, from: set<Name>)
    requires IsSecretPath(mac.derived) && IsTrimmed(mac.derived)
    requires Merged(ALL, DEFAULTS, {}, InstalledOf(BareConfig(DEFAULT_VM, mac.derived)), flags, notes, from)
    ensures Produced(BareConfig(DEFAULT_VM, mac.derived), DEFAULTS, mac, parseSubnet)
    ensures Installs(flags, mac, parseSubnet) == Some(Args(BareConfig(DEFAULT_VM, mac.derived)))
  {
    DefaultVmIsAName();
    TrimmedStays(DEFAULT_VM);
    BareIsProduced(DEFAULT_VM, mac, parseSubnet);
    UpgradeIsFixpoint(BareConfig(DEFAULT_VM, mac.derived), DEFAULTS, mac, mac, parseSubnet, flags, notes, from);
  }

  const SPACED_VM := " " + DEFAULT_VM

  lemma SpacedVmTrims()
    ensures TrimSpace(SPACED_VM) == DEFAULT_VM && !IsTrimmed(SPACED_VM)
  {
    DefaultVmIsAName();
    TrimmedStays(DEFAULT_VM);
    assert SPACED_VM[1..] == DEFAULT_VM && TrimLeft(SPACED_VM) == TrimLeft(DEFAULT_VM);
  }

  /** An install whose -vm was spelt with a space in front: the upgrade changes the argv. */
  lemma SpacedVmChanges(mac: Around, parseSubnet: string -> Option<string>,
                        flags: Values, notes: seq<Note>, from: set<Name>)
    requires IsSecretPath(mac.derived)
    requires Merged(ALL, DEFAULTS, {}, InstalledOf(BareConfig(SPACED_VM, mac.derived)), flags, notes, from)
    ensures Produced(BareConfig(SPACED_VM, mac.derived), DEFAULTS.(vm := SPACED_VM), mac, parseSubnet)
    ensures var again := Installs(flags, mac, parseSubnet);
            again.Some? && again.value != Args(BareConfig(SPACED_VM, mac.derived))
  {
    SpacedVmTrims();
    BareIsProduced(SPACED_VM, mac, parseSubnet);
    UpgradeIsFixpoint(BareConfig(SPACED_VM, mac.derived), DEFAULTS.(vm := SPACED_VM), mac, mac, parseSubnet,
                      flags, notes, from);
  }

  // ---- inputs that are refused -----------------------------------------------------------------

  const PODMAN_VM := PODMAN + [':'] + "dev"

  lemma PodmanVmParses()
    ensures ParseRef(PODMAN_VM) == Some(Ref(PODMAN, "dev"))
  {
    RefIs(PODMAN, "dev");
    assert PODMAN != "colima" by { assert PODMAN[0] == 'p'; }
  }

  const HOME_ENDPOINT := LOOPBACK + "4778"

  lemma HomeIsLoopback()
    ensures IsLoopback(HOME_ENDPOINT)
  {
    assert HOME_ENDPOINT[|LOOPBACK|..] == "4778";
  }

  const ELSEWHERE := "tcp://10.0.0.1:4778"

  lemma ElsewhereIsNoLoopback()
    ensures !IsLoopback(ELSEWHERE) && ELSEWHERE != ""
  {
    assert ELSEWHERE[7] != LOOPBACK[7];
  }

  function PodmanConfig(secret: string): Config { VmConfig(PODMAN_VM, HOME_ENDPOINT, secret) }

  lemma PodmanIsProduced(mac: Around, parseSubnet: string -> Option<string>)
    requires mac.recorded == Some(HOME_ENDPOINT) && (mac.derived != "" ==> IsSecretPath(mac.derived))
    ensures Produced(PodmanConfig(mac.derived), DEFAULTS.(vm := PODMAN_VM), mac, parseSubnet)
    ensures IsPodman(PODMAN_VM)
  {
    PodmanVmParses();
    HomeIsLoopback();
    VmIsProduced(PODMAN_VM, HOME_ENDPOINT, mac, parseSubnet);
  }

  /** A podman machine whose record now names another host: refused, though there is a record. */
  lemma ForeignEndpointIsRefused(derived: string, parseSubnet: string -> Option<string>,
                                 flags: Values, notes: seq<Note>, from: set<Name>)
    requires IsSecretPath(derived)
    requires Merged(ALL, DEFAULTS, {}, InstalledOf(PodmanConfig(derived)), flags, notes, from)
    ensures Produced(PodmanConfig(derived), DEFAULTS.(vm := PODMAN_VM), Around(derived, Some(HOME_ENDPOINT)), parseSubnet)
    ensures Installs(flags, Around(derived, Some(ELSEWHERE)), parseSubnet) == None
  {
    var mac, now := Around(derived, Some(HOME_ENDPOINT)), Around(derived, Some(ELSEWHERE));
    PodmanIsProduced(mac, parseSubnet);
    ElsewhereIsNoLoopback();
    UpgradeIsFixpoint(PodmanConfig(derived), DEFAULTS.(vm := PODMAN_VM), mac, now, parseSubnet, flags, notes, from);
  }

  /** An install without a secret path, upgraded once a path with an apostrophe can be derived: refused. */
  lemma QuotedPathIsRefused(mac: Around, home: string, parseSubnet: string -> Option<string>,
                            flags: Values, notes: seq<Note>, from: set<Name>)
    requires mac.derived == "" && '\'' in home
    requires Merged(ALL, DEFAULTS, {}, InstalledOf(BareConfig(DEFAULT_VM, "")), flags, notes, from)
    ensures Produced(BareConfig(DEFAULT_VM, ""), DEFAULTS, mac, parseSubnet)
    ensures Installs(flags, Around(home, None), parseSubnet) == None
  {
    DefaultVmIsAName();
    TrimmedStays(DEFAULT_VM);
    BareIsProduced(DEFAULT_VM, mac, parseSubnet);
    UpgradeIsFixpoint(BareConfig(DEFAULT_VM, ""), DEFAULTS, mac, Around(home, None), parseSubnet, flags, notes, from);
  }
}
