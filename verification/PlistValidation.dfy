/**
 * What `install` accepts (internal/install/plist.go), part by part and in the values' own
 * characters, so that nothing a root daemon's argv could not hold is let in, and nothing else kept out.
 */
module PlistValidation {
  import opened Options
  import opened Listeners
  import opened Texts
  import opened VmRefs
  import opened Plist
  import opened PlistRoundTrip
  import Leases

  predicate IsDigit(c: char) { '0' <= c <= '9' }

  predicate IsHex(c: char) { '0' <= c <= '9' || 'a' <= c <= 'f' || 'A' <= c <= 'F' }

  predicate Decimal(s: string, least: nat, most: nat) { least <= |s| <= most && forall c :: c in s ==> IsDigit(c) }

  lemma DigitsAre(s: string)
    ensures AreDigits(s, 10) <==> forall c :: c in s ==> IsDigit(c)
    ensures AreDigits(s, 16) <==> forall c :: c in s ==> IsHex(c)
  {
    assert forall i :: 0 <= i < |s| ==> s[i] in s;
    assert forall c :: DigitValue(c) < 10 <==> IsDigit(c);
    assert forall c :: DigitValue(c) < 16 <==> IsHex(c);
    forall c | c in s ensures exists i :: 0 <= i < |s| && DigitValue(s[i]) == DigitValue(c) {
      var i :| 0 <= i < |s| && s[i] == c;
    }
  }

  // ---- the values ------------------------------------------------------------------------

  /** A hardware address is six parts of one or two hex digits. */
  lemma MacsExactly(parts: seq<string>)
    requires parts != [] && NoneHas(parts, ':')
    ensures IsMac(Join(parts, ':')) <==>
            |parts| == 6 && forall i :: 0 <= i < |parts| ==> 1 <= |parts[i]| <= 2 && forall c :: c in parts[i] ==> IsHex(c)
  {
    SplitJoin(parts, ':');
    forall i | 0 <= i < |parts| ensures AreDigits(parts[i], 16) <==> forall c :: c in parts[i] ==> IsHex(c) {
      DigitsAre(parts[i]);
    }
  }

  /** And exactly those without a hardware type read as six octets at a lease's gate. */
  lemma MacIsAddress(s: string)
    requires IsTrimmed(s) && ',' !in s
    ensures IsMac(s) <==> Leases.Address(s).Some?
  {
    TrimmedStays(s);
    IndexIs(s, ',', |s|);
    AllOctets(Split(s, ':'));
  }

  lemma {:induction false} AllOctets(parts: seq<string>)
    ensures Leases.Octets(parts).Some? <==> forall i :: 0 <= i < |parts| ==> 1 <= |parts[i]| <= 2 && AreDigits(parts[i], 16)
  {
    if parts != [] {
      AllOctets(parts[1..]);
      assert forall i :: 1 <= i < |parts| ==> parts[i] == parts[1..][i - 1];
    }
  }

  /** A subnet is four parts of one to three digits and a prefix length of one or two. */
  lemma SubnetsExactly(quads: seq<string>, bits: string)
    requires quads != [] && NoneHas(quads, '.') && NoneHas(quads, '/') && '/' !in bits
    ensures IsSubnet(Join(quads, '.') + "/" + bits) <==>
            |quads| == 4 && (forall i :: 0 <= i < |quads| ==> Decimal(quads[i], 1, 3)) && Decimal(bits, 1, 2)
  {
    SubnetParts(quads, bits, Join(quads, '.') + "/" + bits);
    ShapesAgree(quads, bits);
  }

  predicate HasShape(quads: seq<string>, bits: string) {
    && |quads| == 4 && (forall i :: 0 <= i < |quads| ==> 1 <= |quads[i]| <= 3 && AreDigits(quads[i], 10))
    && 1 <= |bits| <= 2 && AreDigits(bits, 10)
  }

  lemma ShapesAgree(quads: seq<string>, bits: string)
    ensures HasShape(quads, bits) <==>
            |quads| == 4 && (forall i :: 0 <= i < |quads| ==> Decimal(quads[i], 1, 3)) && Decimal(bits, 1, 2)
  {
    DigitsAre(bits);
    forall i | 0 <= i < |quads| ensures Decimal(quads[i], 1, 3) <==> 1 <= |quads[i]| <= 3 && AreDigits(quads[i], 10) {
      DigitsAre(quads[i]);
    }
  }

  lemma SubnetParts(quads: seq<string>, bits: string, s: string)
    requires quads != [] && NoneHas(quads, '.') && NoneHas(quads, '/') && '/' !in bits
    requires s == Join(quads, '.') + "/" + bits
    ensures IsSubnet(s) <==> HasShape(quads, bits)
  {
    Leases.JoinHasNone(quads, '.', '/');
    SplitFront(Join(quads, '.'), '/', bits);
    SplitFront(bits, '/', "");
    SplitJoin(quads, '.');
  }

  lemma SubnetHasSlash(s: string)
    requires IsSubnet(s)
    ensures '/' in s
  {
    if '/' !in s {
      SplitFront(s, '/', "");
    }
  }

  /** An endpoint is a port of one to five digits on this Mac's loopback, and nothing else. */
  lemma EndpointsExactly(port: string, s: string)
    ensures IsLoopback("tcp://127.0.0.1:" + port) <==> Decimal(port, 1, 5)
    ensures IsLoopback(s) ==> HasPrefix(s, "tcp://127.0.0.1:")
  {
    var whole := "tcp://127.0.0.1:" + port;
    assert whole[|LOOPBACK|..] == port && whole[..|LOOPBACK|] == LOOPBACK;
    DigitsAre(port);
  }

  /** A secret path is absolute, without a character XML would need escaped and without control characters. */
  lemma PathsExactly(s: string)
    ensures IsSecretPath(s) <==>
            && s != "" && s[0] == '/'
            && (forall c :: c in s ==> c as int >= 32 && c as int != 127)
            && '&' !in s && '<' !in s && '>' !in s && '"' !in s && '\'' !in s
  {
    if s != "" {
      assert HasPrefix(s, "/") <==> s[0] == '/';
    }
    assert forall i :: 0 <= i < |s| ==> s[i] in s;
  }

  /** The whole: each part of its shape, where empty means left out. */
  lemma ValidatesExactly(c: Config)
    ensures Validate(c) <==>
            && ParseRef(c.vm).Some? && 0 !in c.udp && (c.skip.Some? ==> 0 !in c.skip.value)
            && (c.mac == "" || IsMac(c.mac)) && (c.subnet == "" || IsSubnet(c.subnet))
            && (c.agent == "" || IsLoopback(c.agent)) && (c.secretFile == "" || IsSecretPath(c.secretFile))
  {
  }

  /** The argv of an accepted config starts with the daemon and says nothing it was not told. */
  lemma ArgvIs(c: Config)
    requires c.agent == "" && c.udp == [] && c.skip.None? && c.mac == "" && c.subnet == "" && c.secretFile == ""
    ensures Args(c) == ["/usr/local/libexec/drawbridged", "-agent", "auto", "-vm", c.vm]
  {
    assert Flags(c) == [("-agent", "auto"), ("-vm", c.vm)];
    assert Flags(c)[1..] == [("-vm", c.vm)] && Flags(c)[1..][1..] == [];
    assert Flat(Flags(c)[1..]) == ["-vm", c.vm];
  }

  // ---- what launchd is told --------------------------------------------------------------------

  ghost predicate Holds(text: string, part: string) { exists a, b: string :: text == a + part + b }

  lemma HoldsLater(front: string, text: string, part: string)
    requires Holds(text, part)
    ensures Holds(front + text, part)
  {
    var a, b: string :| text == a + part + b;
    assert front + text == (front + a) + part + b;
  }

  lemma HoldsSooner(text: string, back: string, part: string)
    requires Holds(text, part)
    ensures Holds(text + back, part)
  {
    var a, b: string :| text == a + part + b;
    assert text + back == a + part + (b + back);
  }

  lemma TenParts(p: seq<string>)
    requires |p| == 10
    ensures var text := p[0] + p[1] + (p[2] + p[3] + p[4] + p[5] + p[6] + p[7] + p[8] + p[9]);
            Holds(text, p[3]) && Holds(text, p[5]) && Holds(text, p[7] + p[8])
  {
    var text := p[0] + p[1] + (p[2] + p[3] + p[4] + p[5] + p[6] + p[7] + p[8] + p[9]);
    assert text == (p[0] + p[1] + p[2]) + p[3] + (p[4] + p[5] + p[6] + p[7] + p[8] + p[9]);
    assert text == (p[0] + p[1] + p[2] + p[3] + p[4]) + p[5] + (p[6] + p[7] + p[8] + p[9]);
    assert text == (p[0] + p[1] + p[2] + p[3] + p[4] + p[5] + p[6]) + (p[7] + p[8]) + p[9];
  }

  lemma OutputsSay(tab: string, out: string, log: string, error: string)
    ensures var text := tab + out + log + tab + error + log;
            Holds(text, out + log) && Holds(text, error + log)
  {
    var text := tab + out + log + tab + error + log;
    assert text == tab + (out + log) + (tab + error + log);
    assert text == (tab + out + log + tab) + (error + log) + "";
  }

  lemma FootSays()
    ensures Holds(Foot(), "<key>RunAtLoad</key>\n\t<true/>\n")
    ensures Holds(Foot(), "<key>KeepAlive</key>\n\t<true/>\n")
    ensures Holds(Foot(), "<key>ProcessType</key>\n\t" + "<string>Interactive</string>\n")
  {
    var rest := Outputs() + END_DICT;
    TenParts(["\t", END_ARRAY, "\n\t", RUN_KEY, "\t", ALIVE_KEY, "\t", TYPE_KEY, TYPE, rest]);
    LastTwo("\n\t" + RUN_KEY + "\t" + ALIVE_KEY + "\t" + TYPE_KEY + TYPE, Outputs(), END_DICT);
  }

  lemma LastTwo(front: string, a: string, b: string)
    ensures front + a + b == front + (a + b)
  {
  }

  lemma FootLogs()
    ensures Holds(Foot(), "<key>StandardOutPath</key>\n\t" + "<string>/Library/Logs/drawbridge/drawbridged.log</string>\n")
    ensures Holds(Foot(), "<key>StandardErrorPath</key>\n\t" + "<string>/Library/Logs/drawbridge/drawbridged.log</string>\n")
  {
    OutputsSay("\t", OUT_KEY, LOG, ERROR_KEY);
    var front := "\n\t" + RUN_KEY + "\t" + ALIVE_KEY + "\t" + TYPE_KEY + TYPE;
    HoldsAmong("\t" + END_ARRAY, front, Outputs(), END_DICT, OUT_KEY + LOG);
    HoldsAmong("\t" + END_ARRAY, front, Outputs(), END_DICT, ERROR_KEY + LOG);
  }

  lemma HoldsAmong(lead: string, front: string, text: string, back: string, part: string)
    requires Holds(text, part)
    ensures Holds(lead + (front + text + back), part)
  {
    HoldsLater(front, text, part);
    HoldsSooner(front + text, back, part);
    HoldsLater(lead, front + text + back, part);
  }

  lemma HeadSays()
    ensures Holds(Head(), ("<" + "key>Label") + ("<" + "/key>\n\t") + ("<" + "string>com.archcorsair.drawbridged"))
  {
    FourLater(Tag(XML) + Tag(Preamble()) + Tag(PLIST) + Tag(DICT), Tag(LABEL_KEY), Tag(END_KEY), Tag(LABEL), Tag(END_LABEL) + ARGS_KEY + ARRAY);
    SixParts(Tag(XML) + Tag(Preamble()) + Tag(PLIST) + Tag(DICT) + Tag(LABEL_KEY) + Tag(END_KEY) + Tag(LABEL), Tag(END_LABEL), ARGS_KEY, ARRAY);
  }

  lemma FourLater(front: string, a: string, b: string, c: string, back: string)
    ensures Holds(front + a + b + c + back, a + b + c)
  {
    assert front + a + b + c + back == front + (a + b + c) + back;
  }

  lemma SixParts(front: string, a: string, b: string, c: string)
    ensures front + a + b + c == front + (a + b + c)
  {
  }

  /** Whatever the argv: one label, run at load and kept alive, interactive, both outputs to the log. */
  lemma DocumentSays(args: seq<string>)
    ensures var text, log := Document(args), "<string>/Library/Logs/drawbridge/drawbridged.log</string>\n";
            && Holds(text, ("<" + "key>Label") + ("<" + "/key>\n\t") + ("<" + "string>com.archcorsair.drawbridged"))
            && Holds(text, "<key>RunAtLoad</key>\n\t<true/>\n") && Holds(text, "<key>KeepAlive</key>\n\t<true/>\n")
            && Holds(text, "<key>ProcessType</key>\n\t" + "<string>Interactive</string>\n")
            && Holds(text, "<key>StandardOutPath</key>\n\t" + log) && Holds(text, "<key>StandardErrorPath</key>\n\t" + log)
  {
    FootSays();
    FootLogs();
    HeadSays();
    var front := Head() + Elements(args);
    HoldsLater(front, Foot(), RUN_KEY);
    HoldsLater(front, Foot(), ALIVE_KEY);
    HoldsLater(front, Foot(), TYPE_KEY + TYPE);
    HoldsLater(front, Foot(), OUT_KEY + LOG);
    HoldsLater(front, Foot(), ERROR_KEY + LOG);
    HoldsSooner(Head(), Elements(args), Tag(LABEL_KEY) + Tag(END_KEY) + Tag(LABEL));
    HoldsSooner(front, Foot(), Tag(LABEL_KEY) + Tag(END_KEY) + Tag(LABEL));
  }

  // ---- port lists ------------------------------------------------------------------------------

  /** A port as typed: digits only, 1 to 65535, white space around it aside. */
  predicate IsPortText(field: string, port: int) {
    var s := TrimSpace(field);
    s != "" && (forall c :: c in s ==> IsDigit(c)) && DigitsValue(s, 10) == port && 1 <= port <= 65535
  }

  lemma PortReads(field: string, port: nat)
    ensures IsPortText(field, port) <==> ParseUint16(TrimSpace(field)) == Some(port) && port != 0
  {
    DigitsAre(TrimSpace(field));
  }

  lemma {:induction false} PortsAre(fields: seq<string>, ports: seq<Port>)
    ensures Ports(fields) == Some(ports) <==>
            |ports| == |fields| && forall i :: 0 <= i < |fields| ==> IsPortText(fields[i], ports[i])
  {
    if fields != [] {
      if ports == [] {
        SomeAreAsMany(fields);
      } else {
        var n, m := |fields| - 1, |ports| - 1;
        PortsAre(fields[..n], ports[..m]);
        OneMorePort(fields, ports);
        assert m == n ==> forall i :: 0 <= i < n ==> fields[..n][i] == fields[i] && ports[..n][i] == ports[i];
      }
    }
  }

  lemma {:induction false} SomeAreAsMany(fields: seq<string>)
    ensures Ports(fields).Some? ==> |Ports(fields).value| == |fields|
  {
    if fields != [] {
      SomeAreAsMany(fields[..|fields| - 1]);
    }
  }

  lemma OneMorePort(fields: seq<string>, ports: seq<Port>)
    requires fields != [] && ports != []
    ensures var n, m := |fields| - 1, |ports| - 1;
            Ports(fields) == Some(ports) <==> Ports(fields[..n]) == Some(ports[..m]) && IsPortText(fields[n], ports[m])
  {
    var n, m := |fields| - 1, |ports| - 1;
    PortReads(fields[n], ports[m]);
    PortsSnoc(fields, Ports(fields[..n]), ParseUint16(TrimSpace(fields[n])));
    SnocIs(Ports(fields[..n]), ParseUint16(TrimSpace(fields[n])), ports);
  }

  function Snoc(before: Option<seq<Port>>, v: Option<nat>): Option<seq<Port>> {
    if before.Some? && v.Some? && 0 < v.value <= 65535 then Some(before.value + [v.value]) else None
  }

  lemma PortsSnoc(fields: seq<string>, before: Option<seq<Port>>, v: Option<nat>)
    requires fields != [] && before == Ports(fields[..|fields| - 1]) && v == ParseUint16(TrimSpace(fields[|fields| - 1]))
    ensures Ports(fields) == Snoc(before, v)
  {
  }

  lemma SnocIs(before: Option<seq<Port>>, v: Option<nat>, ports: seq<Port>)
    requires ports != []
    ensures Snoc(before, v) == Some(ports) <==>
            before == Some(ports[..|ports| - 1]) && v == Some(ports[|ports| - 1]) && ports[|ports| - 1] != 0
  {
    assert ports == ports[..|ports| - 1] + [ports[|ports| - 1]];
  }

  /** A list is read exactly when it is blank or every field between commas is a port, and then as those ports in order. */
  lemma PortListsExactly(s: string, ports: seq<Port>)
    ensures PortsOf(s) == Some(ports) <==>
            if TrimSpace(s) == "" then ports == []
            else |ports| == |Split(s, ',')| && forall i :: 0 <= i < |ports| ==> IsPortText(Split(s, ',')[i], ports[i])
  {
    PortsAre(Split(s, ','), ports);
  }

  /** 22 and 323, each once and in either order, are the default and render nothing; any other list is kept as typed. */
  lemma SkipsExactly(s: string, ports: seq<Port>)
    requires PortsOf(s) == Some(ports)
    ensures SkipOf(s) == Some(if ports in {[22, 323], [323, 22]} then None else Some(ports))
  {
    if multiset(ports) == multiset([22, 323]) {
      TwoPorts(ports);
    }
  }

  lemma TwoPorts(ports: seq<Port>)
    requires multiset(ports) == multiset{22, 323}
    ensures ports in {[22, 323], [323, 22]}
  {
    assert |ports| == |multiset(ports)| == 2;
    assert ports == [ports[0], ports[1]];
    assert ports[0] in multiset(ports) && ports[1] in multiset(ports);
    assert multiset(ports) == multiset{ports[0], ports[1]};
    assert multiset(ports)[22] == 1 && multiset(ports)[323] == 1;
  }
}
