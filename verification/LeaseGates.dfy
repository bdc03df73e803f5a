/**
 * The gates and the spellings of a lease record in the file's own words
 * (internal/limaaddr/leases.go): which records pass, which lines count, what a field says.
 */
module LeaseGates {
  import opened Options
  import opened Texts
  import opened Leases

  // ---- which records pass ----------------------------------------------------------------

  /** The gates a target sets: its pin, if any, in canonical spelling. */
  function GatesOf(want: string, usable: set<string>, subnet: set<string>, pin: string): Gates
    requires pin == "" || Normalized(pin).Some?
  {
    Gates(want, usable, subnet, if pin == "" then "" else Normalized(pin).value)
  }

  /** The pin compares six octets, however either side spells them; a record without six never matches one. */
  predicate PinFits(l: Lease, pin: string) {
    pin != "" ==> Address(l.hwAddr).Some? && Address(l.hwAddr) == Address(pin)
  }

  lemma CanonicalIsNotEmpty(pin: string)
    requires Normalized(pin).Some?
    ensures Normalized(pin).value != "" && Address(pin).Some?
  {
    OctetsBounded(Split(AfterType(TrimSpace(pin)).value, ':'));
    JoinEnds(Address(pin).value);
  }

  lemma PassesExactly(l: Lease, want: string, usable: set<string>, subnet: set<string>, pin: string)
    requires pin == "" || Normalized(pin).Some?
    ensures var g := GatesOf(want, usable, subnet, pin);
            && (g.Named(l) <==> l.name == want && l.ip in usable)
            && (g.OnNet(l) <==> l.name == want && l.ip in usable && l.ip in subnet)
            && (g.Pass(l) <==> l.name == want && l.ip in usable && l.ip in subnet && PinFits(l, pin))
  {
    if pin != "" {
      CanonicalIsNotEmpty(pin);
      if Normalized(l.hwAddr).Some? {
        NormalizedIsCanonical(l.hwAddr, pin);
      } else {
        assert Address(l.hwAddr).None?;
      }
    }
  }

  /** `some` are the records of `ls` at the places in `rank`, in file order. */
  ghost predicate Picks(ls: seq<Lease>, some: seq<Lease>, rank: seq<nat>) {
    && |rank| == |some|
    && (forall k :: 0 <= k < |rank| ==> rank[k] < |ls| && some[k] == ls[rank[k]])
    && (forall a, b :: 0 <= a < b < |rank| ==> rank[a] < rank[b])
  }

  lemma PickOneMore(init: seq<Lease>, last: Lease, some: seq<Lease>, before: seq<nat>, keep: bool) returns (rank: seq<nat>)
    requires Picks(init, some, before)
    ensures Picks(init + [last], some + if keep then [last] else [], rank)
    ensures forall i: nat :: i in rank <==> i in before || (keep && i == |init|)
  {
    rank := before;
    if keep {
      rank := before + [|init|];
      assert forall a :: 0 <= a < |before| ==> before[a] in before && before[a] < |init|;
    }
  }

  lemma {:induction false} PassingArePicked(ls: seq<Lease>, g: Gates) returns (rank: seq<nat>)
    ensures Picks(ls, Passing(ls, g), rank)
    ensures forall i: nat :: i in rank <==> i < |ls| && g.Pass(ls[i])
  {
    if ls == [] {
      rank := [];
    } else {
      var n := |ls| - 1;
      var before := PassingArePicked(ls[..n], g);
      rank := PickOneMore(ls[..n], ls[n], Passing(ls[..n], g), before, g.Pass(ls[n]));
      assert ls[..n] + [ls[n]] == ls;
    }
  }

  lemma {:induction false} OffNetArePicked(ls: seq<Lease>, g: Gates) returns (rank: seq<nat>)
    ensures Picks(ls, OffNet(ls, g), rank)
    ensures forall i: nat :: i in rank <==> i < |ls| && g.Named(ls[i]) && !g.OnNet(ls[i])
  {
    if ls == [] {
      rank := [];
    } else {
      var n := |ls| - 1;
      var before := OffNetArePicked(ls[..n], g);
      rank := PickOneMore(ls[..n], ls[n], OffNet(ls[..n], g), before, g.Named(ls[n]) && !g.OnNet(ls[n]));
      assert ls[..n] + [ls[n]] == ls;
    }
  }

  lemma {:induction false} UnpinnedArePicked(ls: seq<Lease>, g: Gates) returns (rank: seq<nat>)
    ensures Picks(ls, Unpinned(ls, g), rank)
    ensures forall i: nat :: i in rank <==> i < |ls| && g.OnNet(ls[i]) && !g.Pass(ls[i])
  {
    if ls == [] {
      rank := [];
    } else {
      var n := |ls| - 1;
      var before := UnpinnedArePicked(ls[..n], g);
      rank := PickOneMore(ls[..n], ls[n], Unpinned(ls[..n], g), before, g.OnNet(ls[n]) && !g.Pass(ls[n]));
      assert ls[..n] + [ls[n]] == ls;
    }
  }

  /**
   * Every record of the wanted name at a usable address is a candidate or is counted in one
   * note: off the subnet, or on it with the wrong hardware; each note shows the first of its kind.
   */
  lemma RecordsAccountedFor(ls: seq<Lease>, want: string, usable: set<string>, subnet: set<string>, pin: string, i: nat)
      returns (passing: seq<nat>, off: seq<nat>, wrong: seq<nat>)
    requires (pin == "" || Normalized(pin).Some?) && i < |ls|
    ensures var g := GatesOf(want, usable, subnet, pin);
            && Picks(ls, Passing(ls, g), passing) && Picks(ls, OffNet(ls, g), off) && Picks(ls, Unpinned(ls, g), wrong)
    ensures var l, ours := ls[i], ls[i].name == want && ls[i].ip in usable;
            && (i in passing <==> ours && l.ip in subnet && PinFits(l, pin))
            && (i in off <==> ours && l.ip !in subnet)
            && (i in wrong <==> ours && l.ip in subnet && !PinFits(l, pin))
    ensures var g := GatesOf(want, usable, subnet, pin);
            var notes := NotesOf(OffNet(ls, g), Unpinned(ls, g));
            && |notes| == (if off == [] then 0 else 1) + (if wrong == [] then 0 else 1)
            && (off != [] ==> notes[0] == OffSubnet(|off|, ls[off[0]].ip))
            && (wrong != [] ==> notes[|notes| - 1] == WrongHardware(|wrong|, ls[wrong[0]]))
  {
    var g := GatesOf(want, usable, subnet, pin);
    passing := PassingArePicked(ls, g);
    off := OffNetArePicked(ls, g);
    wrong := UnpinnedArePicked(ls, g);
    PassesExactly(ls[i], want, usable, subnet, pin);
  }

  // ---- hardware addresses, however spelt ---------------------------------------------------

  predicate IsOctet(p: string) { 1 <= |p| <= 2 && AreDigits(p, 16) }

  /** The digits count by their place, letters of either case from ten. */
  lemma DigitsCount(s: string, c: char, base: nat)
    ensures DigitsValue("", base) == 0 && DigitsValue(s + [c], base) == DigitsValue(s, base) * base + DigitValue(c)
    ensures '0' <= c <= '9' ==> DigitValue(c) == c as int - 48
    ensures 'a' <= c <= 'f' ==> DigitValue(c) == c as int - 97 + 10
    ensures 'A' <= c <= 'F' ==> DigitValue(c) == c as int - 65 + 10
    ensures !('0' <= c <= '9') && !('a' <= c <= 'f') && !('A' <= c <= 'F') ==> DigitValue(c) >= 16
  {
    assert (s + [c])[..|s|] == s;
  }

  lemma {:induction false} OctetsAre(parts: seq<string>)
    ensures Octets(parts).Some? <==> forall i :: 0 <= i < |parts| ==> IsOctet(parts[i])
    ensures Octets(parts).Some? ==>
              |Octets(parts).value| == |parts| &&
              forall i :: 0 <= i < |parts| ==> Octets(parts).value[i] == DigitsValue(parts[i], 16)
  {
    if parts != [] {
      OctetsAre(parts[1..]);
      assert parts == [parts[0]] + parts[1..];
      assert forall i :: 1 <= i < |parts| ==> parts[i] == parts[1..][i - 1];
    }
  }

  lemma JoinedOctets(parts: seq<string>)
    requires parts != [] && forall i :: 0 <= i < |parts| ==> IsOctet(parts[i])
    ensures NoneHas(parts, ':') && NoneHas(parts, ',')
    ensures var j := Join(parts, ':'); j != "" && !IsSpace(j[0]) && !IsSpace(j[|j| - 1]) && ',' !in j
  {
    forall i | 0 <= i < |parts| ensures ':' !in parts[i] && ',' !in parts[i] {
      DigitsArePlain(parts[i], ':');
      DigitsArePlain(parts[i], ',');
    }
    JoinHasNone(parts, ':', ',');
    JoinedEnds(parts);
  }

  lemma {:induction false} JoinedEnds(parts: seq<string>)
    requires parts != [] && forall i :: 0 <= i < |parts| ==> IsOctet(parts[i])
    ensures var j := Join(parts, ':'); j != "" && !IsSpace(j[0]) && !IsSpace(j[|j| - 1])
  {
    DigitsArePlain(parts[0], ':');
    if |parts| > 1 {
      JoinedEnds(parts[1..]);
    }
  }

  /** Six octets of one or two hex digits, with or without the number of a hardware type in front: those octets. */
  lemma AddressIs(kind: string, parts: seq<string>)
    requires |parts| == 6 && forall i :: 0 <= i < 6 ==> IsOctet(parts[i])
    requires kind != "" && AreDigits(kind, 10)
    ensures Address(Join(parts, ':')) == Octets(parts)
    ensures Address(kind + "," + Join(parts, ':')) == Octets(parts)
  {
    var j := Join(parts, ':');
    JoinedOctets(parts);
    SplitJoin(parts, ':');
    TrimmedStays(j);
    IndexIs(j, ',', |j|);
    var s := kind + "," + j;
    DigitsArePlain(kind, ',');
    assert s[0] == kind[0] && s[|s| - 1] == j[|j| - 1];
    TrimmedStays(s);
    IndexIs(s, ',', |kind|);
    assert s[..|kind|] == kind && s[|kind| + 1..] == j;
  }

  /** Anything else before a comma is no hardware type, and what has not six octets is no address. */
  lemma AddressIsNot(kind: string, rest: string)
    requires ',' !in kind && IsTrimmed(kind + "," + rest)
    ensures kind == "" || !AreDigits(kind, 10) ==> Address(kind + "," + rest) == None
    ensures |Split(rest, ':')| != 6 || !(forall p :: p in Split(rest, ':') ==> IsOctet(p)) ==> Address(kind + "," + rest) == None
  {
    var s := kind + "," + rest;
    TrimmedStays(s);
    IndexIs(s, ',', |kind|);
    assert s[..|kind|] == kind && s[|kind| + 1..] == rest;
    OctetsAre(Split(rest, ':'));
  }

  // ---- when a lease runs out --------------------------------------------------------------------

  const END_OF_TIME := 0x8000_0000_0000_0000

  lemma {:induction false} LowerKeepsDigits(s: string)
    ensures AreDigits(s, 16) ==> AreDigits(LowerAll(s), 16)
    ensures AreDigits(s, 16) ==> forall i :: 0 <= i < |s| ==> DigitValue(LowerAll(s)[i]) == DigitValue(s[i])
  {
    if s != "" {
      assert s == [s[0]] + s[1..];
      LowerKeepsDigits(s[1..]);
    }
  }

  lemma {:induction false} SameDigitsSameValue(s: string, t: string, base: nat)
    requires |s| == |t| && forall i :: 0 <= i < |s| ==> DigitValue(s[i]) == DigitValue(t[i])
    ensures DigitsValue(s, base) == DigitsValue(t, base)
  {
    if s != "" {
      SameDigitsSameValue(s[..|s| - 1], t[..|t| - 1], base);
    }
  }

  lemma {:induction false} LowerJoins(s: string, t: string)
    ensures LowerAll(s + t) == LowerAll(s) + LowerAll(t)
  {
    if s == "" {
      assert s + t == t;
    } else {
      LowerJoins(s[1..], t);
      assert (s + t)[1..] == s[1..] + t;
    }
  }

  lemma UnsignedReads(digits: string, base: nat)
    requires digits != "" && AreDigits(digits, base) && base <= 16
    ensures ParseInt(digits, base) == if DigitsValue(digits, base) < END_OF_TIME then Some(DigitsValue(digits, base)) else None
  {
    assert DigitValue('-') == 16 && DigitValue('+') == 16;
  }

  /** The number a timestamp's digits stand for, or none. */
  function Unless63(n: nat): nat { if n < END_OF_TIME then n else 0 }

  lemma TimeOf(v: string, hex: bool, digits: string)
    requires TrimSpace(v) == v && digits != "" && AreDigits(digits, if hex then 16 else 10)
    requires hex == (|v| >= 2 && LowerAll(v)[..2] == "0x")
    requires digits == if hex then LowerAll(v)[2..] else v
    ensures LeaseTime(v) == Unless63(DigitsValue(digits, if hex then 16 else 10))
  {
    UnsignedReads(digits, if hex then 16 else 10);
  }

  /** A timestamp is hex after 0x or 0X; one that does not fit 63 bits reads as none. */
  lemma HexTimeReads(digits: string, upper: bool)
    requires digits != "" && AreDigits(digits, 16)
    ensures LeaseTime((if upper then "0X" else "0x") + digits) == Unless63(DigitsValue(digits, 16))
  {
    var x := if upper then "0X" else "0x";
    HexSpelling(x, digits);
    LowerKeepsDigits(digits);
    SameDigitsSameValue(LowerAll(digits), digits, 16);
    TimeOf(x + digits, true, LowerAll(digits));
  }

  lemma HexSpelling(x: string, digits: string)
    requires digits != "" && AreDigits(digits, 16) && x in {"0x", "0X"}
    ensures TrimSpace(x + digits) == x + digits && LowerAll(x + digits) == "0x" + LowerAll(digits)
  {
    var s := x + digits;
    DigitsArePlain(digits, ',');
    assert s[0] == '0' && s[|s| - 1] == digits[|digits| - 1];
    TrimmedStays(s);
    LowerJoins(x, digits);
    LowerAt(x, 0);
    LowerAt(x, 1);
  }

  /** And decimal otherwise. */
  lemma DecimalTimeReads(digits: string)
    requires digits != "" && AreDigits(digits, 10)
    ensures LeaseTime(digits) == Unless63(DigitsValue(digits, 10))
  {
    DigitsArePlain(digits, ',');
    TrimmedStays(digits);
    if |digits| >= 2 {
      LowerAt(digits, 1);
      assert LowerAll(digits)[..2][1] != 'x';
    }
    TimeOf(digits, false, digits);
  }

  /** No text, or text with a character no number has, is no timestamp: 0, which sorts last. So is a negative one. */
  lemma NoTime(v: string, i: nat)
    requires var s := TrimSpace(v);
             s == "" || s[0] == '-' || (i < |s| && DigitValue(s[i]) == 16 && s[i] !in {'+', '-', 'x', 'X'})
    ensures LeaseTime(v) == 0
  {
    var s := TrimSpace(v);
    if s != "" {
      LowerAt(s, 0);
      if s[0] != '-' {
        LowerAt(s, i);
        if |s| >= 2 { LowerAt(s, 1); }
      }
    }
  }

  lemma {:induction false} LowerAt(s: string, i: nat)
    requires i < |s|
    ensures LowerAll(s)[i] == Lower(s[i])
  {
    if i > 0 {
      LowerAt(s[1..], i - 1);
    }
  }

  // ---- lines that count ----------------------------------------------------------------------------

  /** Outside braces only an opening brace counts; inside, a blank line or one without an equals sign does not. */
  lemma LinesPassedOver(scan: Scan, raw: string)
    ensures var line := TrimSpace(TrimCR(raw));
            line != "{" && (!scan.inside || line == "" || '=' !in line) ==>
              if line == "}" then scan.Line(raw).cur == NO_LEASE && !scan.Line(raw).inside
              else scan.Line(raw) == scan
    ensures TrimSpace(TrimCR(raw)) == "}" ==>
              scan.Line(raw).out == if scan.inside && scan.cur.name != "" && scan.cur.ip != "" then scan.out + [scan.cur] else scan.out
    ensures TrimSpace(TrimCR(raw)) == "{" ==> scan.Line(raw) == Scan(scan.out, NO_LEASE, true)
  {
    var line := TrimSpace(TrimCR(raw));
    if '=' !in line {
      IndexIs(line, '=', |line|);
    }
  }

  /** A field sets what its key names, white space and a carriage return aside; any other key sets nothing. */
  lemma FieldsCount(scan: Scan, raw: string, i: nat)
    requires var line := TrimSpace(TrimCR(raw));
             scan.inside && i < |line| && line[i] == '=' && '=' !in line[..i]
    ensures var line := TrimSpace(TrimCR(raw));
            var key, val, cur := TrimSpace(line[..i]), TrimSpace(line[i + 1..]), scan.Line(raw).cur;
            && scan.Line(raw).out == scan.out && scan.Line(raw).inside
            && cur.name == (if key == "name" then val else scan.cur.name)
            && cur.ip == (if key == "ip_address" then val else scan.cur.ip)
            && cur.hwAddr == (if key == "hw_address" then val else scan.cur.hwAddr)
            && cur.expiry == (if key == "lease" then LeaseTime(val) else scan.cur.expiry)
  {
    var line := TrimSpace(TrimCR(raw));
    IndexIs(line, '=', i);
  }

  /** One carriage return at the end of a line is no part of it. */
  lemma CarriageReturns(line: string)
    ensures TrimCR(line + "\r") == line
    ensures line == "" || line[|line| - 1] != '\r' ==> TrimCR(line) == line
  {
  }
}
