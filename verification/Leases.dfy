/**
 * Which leased addresses may be the guest's (internal/limaaddr/leases.go): the record
 * parser, the hardware-address pin, the gates, and the choice of four.
 */
module Leases {
  import opened Options
  import opened Texts

  const MAX_LEASE_CANDIDATES := 4

  datatype Lease = Lease(name: string, ip: string, hwAddr: string, expiry: nat)

  const NO_LEASE := Lease("", "", "", 0)

  // ---- hardware addresses -------------------------------------------------------

  /** Six octets of one or two hex digits, or None. */
  function Octets(parts: seq<string>): Option<seq<nat>> {
    if parts == [] then Some([])
    else if !(1 <= |parts[0]| <= 2) || !AreDigits(parts[0], 16) then None
    else
      match Octets(parts[1..])
      case None => None
      case Some(rest) => Some([DigitsValue(parts[0], 16)] + rest)
  }

  /** What is left of an address after the ARP hardware type, when that is a number. */
  function AfterType(s: string): Option<string> {
    var i := IndexOf(s, ',');
    if i == |s| then Some(s)
    else if i == 0 || !AreDigits(s[..i], 10) then None
    else Some(s[i + 1..])
  }

  /** The six octets a spelling stands for. */
  function Address(s: string): Option<seq<nat>> {
    match AfterType(TrimSpace(s))
    case None => None
    case Some(rest) => if |Split(rest, ':')| != 6 then None else Octets(Split(rest, ':'))
  }

  function HexDigit(v: nat): char
    requires v < 16
  {
    if v < 10 then ('0' as int + v) as char else ('a' as int + v - 10) as char
  }

  function Hex2(v: nat): string
    requires v < 0x100
  {
    [HexDigit(v / 16), HexDigit(v % 16)]
  }

  predicate AreOctets(octets: seq<nat>) { forall i :: 0 <= i < |octets| ==> octets[i] < 0x100 }

  function Spelled(octets: seq<nat>): (parts: seq<string>)
    requires AreOctets(octets)
    ensures |parts| == |octets|
  {
    if octets == [] then [] else [Hex2(octets[0])] + Spelled(octets[1..])
  }

  lemma {:induction false} OctetsBounded(parts: seq<string>)
    ensures Octets(parts).Some? ==> |Octets(parts).value| == |parts| && AreOctets(Octets(parts).value)
  {
    if parts != [] {
      OctetsBounded(parts[1..]);
      var p := parts[0];
      if 1 <= |p| <= 2 && AreDigits(p, 16) {
        TwoDigits(p);
      }
    }
  }

  lemma TwoDigits(p: string)
    requires 1 <= |p| <= 2 && AreDigits(p, 16)
    ensures DigitsValue(p, 16) == if |p| == 1 then DigitValue(p[0]) else DigitValue(p[0]) * 16 + DigitValue(p[1])
    ensures DigitsValue(p, 16) < 0x100
  {
  }

  /** normalizeHWAddr. */
  function Normalized(s: string): Option<string> {
    OctetsBounded(if AfterType(TrimSpace(s)).Some? then Split(AfterType(TrimSpace(s)).value, ':') else []);
    match Address(s)
    case None => None
    case Some(octets) => Some(Join(Spelled(octets), ':'))
  }

  method NormalizeHWAddr(s: string) returns (r: Option<string>)
    ensures r == Normalized(s)
  {
    var t := TrimSpace(s);
    var i := IndexOf(t, ',');
    if i < |t| {
      if i == 0 || !AreDigits(t[..i], 10) {
        return None;
      }
      t := t[i + 1..];
    }
    var parts := Split(t, ':');
    if |parts| != 6 {
      return None;
    }
    OctetsBounded(parts);
    var b: string := "";
    var k := 0;
    ghost var octets: seq<nat> := [];
    assert parts[0..] == parts && Prepend([], Octets(parts)) == Octets(parts);
    while k < 6
      invariant k <= 6 && |octets| == k && AreOctets(octets)
      invariant Octets(parts) == Prepend(octets, Octets(parts[k..]))
      invariant b == Join(Spelled(octets), ':')
    {
      var p := parts[k];
      if |p| == 0 || |p| > 2 || !AreDigits(p, 16) {
        return None;
      }
      TwoDigits(p);
      if k > 0 {
        b := b + ":";
      }
      JoinMore(octets, DigitsValue(p, 16));
      PrependMore(octets, parts[k..]);
      b := b + Hex2(DigitsValue(p, 16));
      octets := octets + [DigitsValue(p, 16)];
      k := k + 1;
    }
    assert octets + [] == octets;
    return Some(b);
  }

  function Prepend(front: seq<nat>, back: Option<seq<nat>>): (r: Option<seq<nat>>)
    ensures front == [] ==> r == back
  {
    match back
    case None => None
    case Some(b) => assert [] + b == b; Some(front + b)
  }

  lemma PrependMore(front: seq<nat>, parts: seq<string>)
    requires parts != [] && 1 <= |parts[0]| <= 2 && AreDigits(parts[0], 16)
    ensures Prepend(front, Octets(parts)) == Prepend(front + [DigitsValue(parts[0], 16)], Octets(parts[1..]))
  {
    var v := DigitsValue(parts[0], 16);
    if Octets(parts[1..]).Some? {
      var rest := Octets(parts[1..]).value;
      assert front + ([v] + rest) == (front + [v]) + rest;
    }
  }

  lemma {:induction false} JoinMore(octets: seq<nat>, v: nat)
    requires AreOctets(octets) && v < 0x100
    ensures AreOctets(octets + [v])
    ensures Join(Spelled(octets + [v]), ':') == Join(Spelled(octets), ':') + (if octets == [] then "" else ":") + Hex2(v)
  {
    if octets == [] {
      assert Spelled([v]) == [Hex2(v)];
    } else {
      var tail := octets[1..];
      JoinMore(tail, v);
      assert (octets + [v])[1..] == tail + [v];
    }
  }

  // ---- what normalising means --------------------------------------------------------

  lemma HexDigitBack(v: nat)
    requires v < 16
    ensures DigitValue(HexDigit(v)) == v && !IsSpace(HexDigit(v)) && HexDigit(v) != ':' && HexDigit(v) != ','
  {
  }

  lemma Hex2Back(v: nat)
    requires v < 0x100
    ensures AreDigits(Hex2(v), 16) && DigitsValue(Hex2(v), 16) == v && ':' !in Hex2(v) && ',' !in Hex2(v)
  {
    HexDigitBack(v / 16);
    HexDigitBack(v % 16);
    TwoDigits(Hex2(v));
  }

  lemma {:induction false} SpelledBack(octets: seq<nat>)
    requires AreOctets(octets)
    ensures Octets(Spelled(octets)) == Some(octets)
    ensures forall p :: p in Spelled(octets) ==> ':' !in p && ',' !in p
  {
    if octets != [] {
      SpelledBack(octets[1..]);
      Hex2Back(octets[0]);
      assert Spelled(octets)[1..] == Spelled(octets[1..]) && octets == [octets[0]] + octets[1..];
    }
  }

  lemma {:induction false} JoinHasNone(parts: seq<string>, sep: char, c: char)
    requires NoneHas(parts, c) && sep != c
    ensures c !in Join(parts, sep)
  {
    if |parts| > 1 {
      JoinHasNone(parts[1..], sep, c);
    }
  }

  lemma {:induction false} JoinEnds(octets: seq<nat>)
    requires AreOctets(octets) && octets != []
    ensures var j := Join(Spelled(octets), ':'); j != "" && !IsSpace(j[0]) && !IsSpace(j[|j| - 1])
  {
    HexDigitBack(octets[0] / 16);
    HexDigitBack(octets[0] % 16);
    if |octets| > 1 {
      JoinEnds(octets[1..]);
    } else {
      assert Spelled(octets) == [Hex2(octets[0])];
    }
  }

  /** The canonical spelling stands for the octets it was made from. */
  lemma AddressOfSpelling(octets: seq<nat>)
    requires AreOctets(octets) && |octets| == 6
    ensures Address(Join(Spelled(octets), ':')) == Some(octets)
  {
    var j := Join(Spelled(octets), ':');
    JoinEnds(octets);
    TrimmedStays(j);
    SpelledBack(octets);
    forall i | 0 <= i < 6 ensures ':' !in Spelled(octets)[i] && ',' !in Spelled(octets)[i] {
      assert Spelled(octets)[i] in Spelled(octets);
    }
    JoinHasNone(Spelled(octets), ':', ',');
    IndexIs(j, ',', |j|);
    SplitJoin(Spelled(octets), ':');
  }

  /**
   * Normalising is idempotent, and two accepted spellings land on the same string exactly
   * when their six octets are equal.
   */
  lemma NormalizedIsCanonical(s: string, t: string)
    requires Normalized(s).Some? && Normalized(t).Some?
    ensures Normalized(Normalized(s).value) == Normalized(s)
    ensures Address(s).Some? && Address(t).Some? && |Address(s).value| == 6
    ensures Normalized(s) == Normalized(t) <==> Address(s) == Address(t)
  {
    OctetsBounded(Split(AfterType(TrimSpace(s)).value, ':'));
    OctetsBounded(Split(AfterType(TrimSpace(t)).value, ':'));
    AddressOfSpelling(Address(s).value);
    AddressOfSpelling(Address(t).value);
  }

  // ---- the lease database --------------------------------------------------------------

  function TrimCR(s: string): string {
    if s != "" && s[|s| - 1] == '\r' then s[..|s| - 1] else s
  }

  /** parseLeaseTime: hex after 0x, else decimal; anything unreadable or negative is 0. */
  function LeaseTime(v: string): nat {
    var s := TrimSpace(v);
    var hex := |s| >= 2 && LowerAll(s)[..2] == "0x";
    match ParseInt(if hex then LowerAll(s)[2..] else s, if hex then 16 else 10)
    case Some(n) => if n < 0 then 0 else n
    case None => 0
  }

  /** Where the line state machine stands: records kept, the record being read, whether inside one. */
  datatype Scan = Scan(out: seq<Lease>, cur: Lease, inside: bool) {
    function Line(raw: string): Scan {
      var line := TrimSpace(TrimCR(raw));
      if line == "{" then Scan(out, NO_LEASE, true)
      else if line == "}" then
        Scan(if inside && cur.name != "" && cur.ip != "" then out + [cur] else out, NO_LEASE, false)
      else if !inside || line == "" || IndexOf(line, '=') == |line| then this
      else
        var i := IndexOf(line, '=');
        this.(cur := Set(cur, TrimSpace(line[..i]), TrimSpace(line[i + 1..])))
    }
  }

  function Set(l: Lease, key: string, val: string): Lease {
    if key == "name" then l.(name := val)
    else if key == "ip_address" then l.(ip := val)
    else if key == "hw_address" then l.(hwAddr := val)
    else if key == "lease" then l.(expiry := LeaseTime(val))
    else l
  }

  function Lines(lines: seq<string>): Scan {
    if lines == [] then Scan([], NO_LEASE, false) else Lines(lines[..|lines| - 1]).Line(lines[|lines| - 1])
  }

  function Parsed(text: string): seq<Lease> { Lines(Split(text, '\n')).out }

  method SetField(cur: Lease, key: string, val: string) returns (l: Lease)
    ensures l == Set(cur, key, val)
  {
    l := cur;
    if key == "name" {
      l := l.(name := val);
    } else if key == "ip_address" {
      l := l.(ip := val);
    } else if key == "hw_address" {
      l := l.(hwAddr := val);
    } else if key == "lease" {
      l := l.(expiry := LeaseTime(val));
    }
  }

  lemma LinesSnoc(lines: seq<string>, k: nat)
    requires k < |lines|
    ensures Lines(lines[..k + 1]) == Lines(lines[..k]).Line(lines[k])
  {
    assert lines[..k + 1][..k] == lines[..k];
  }

  method ParseLeases(text: string) returns (out: seq<Lease>)
    ensures out == Parsed(text)
  {
    var lines := Split(text, '\n');
    var cur, inside := NO_LEASE, false;
    out := [];
    for k := 0 to |lines|
      invariant Scan(out, cur, inside) == Lines(lines[..k])
    {
      LinesSnoc(lines, k);
      var line := TrimSpace(TrimCR(lines[k]));
      if line == "{" {
        cur, inside := NO_LEASE, true;
      } else if line == "}" {
        if inside && cur.name != "" && cur.ip != "" {
          out := out + [cur];
        }
        cur, inside := NO_LEASE, false;
      } else if inside && line != "" {
        var i := IndexOf(line, '=');
        if i < |line| {
          var key, val := TrimSpace(line[..i]), TrimSpace(line[i + 1..]);
          cur := SetField(cur, key, val);
        }
      }
    }
    assert lines[..|lines|] == lines;
  }

  // ---- gates, order, four distinct addresses ---------------------------------------------

  /**
   * What a record must pass: the exact name, a usable address in the vmnet subnet (both
   * tests are the caller's), and the pinned hardware address when `pin` is not empty.
   */
  datatype Gates = Gates(want: string, usable: set<string>, subnet: set<string>, pin: string) {
    predicate Named(l: Lease) { l.name == want && l.ip in usable }

    predicate OnNet(l: Lease) { Named(l) && l.ip in subnet }

    predicate Pass(l: Lease) { OnNet(l) && (pin != "" ==> Normalized(l.hwAddr) == Some(pin)) }
  }

  function Passing(ls: seq<Lease>, g: Gates): (r: seq<Lease>)
    ensures |r| <= |ls|
  {
    if ls == [] then []
    else Passing(ls[..|ls| - 1], g) + if g.Pass(ls[|ls| - 1]) then [ls[|ls| - 1]] else []
  }

  /** A stable insertion: after every lease that expires no earlier. */
  function Insert(s: seq<Lease>, l: Lease): (r: seq<Lease>)
    ensures |r| == |s| + 1
  {
    if s == [] || s[|s| - 1].expiry >= l.expiry then s + [l]
    else Insert(s[..|s| - 1], l) + [s[|s| - 1]]
  }

  function Sorted(ls: seq<Lease>): (r: seq<Lease>)
    ensures |r| == |ls|
  {
    if ls == [] then [] else Insert(Sorted(ls[..|ls| - 1]), ls[|ls| - 1])
  }

  function Chosen(ls: seq<Lease>): seq<string> {
    if ls == [] then []
    else
      var ips, ip := Chosen(ls[..|ls| - 1]), ls[|ls| - 1].ip;
      if ip in ips || |ips| >= MAX_LEASE_CANDIDATES then ips else ips + [ip]
  }

  // ---- what the choice is ------------------------------------------------------------------

  /** Newer expiry first, file order between equals. */
  predicate Before(ls: seq<Lease>, i: nat, j: nat)
    requires i < |ls| && j < |ls|
  {
    ls[i].expiry > ls[j].expiry || (ls[i].expiry == ls[j].expiry && i < j)
  }

  /** Some record of `x` comes before every record of `y`. */
  ghost predicate Precedes(ls: seq<Lease>, x: string, y: string) {
    exists i :: Leads(ls, i, x, y)
  }

  predicate Leads(ls: seq<Lease>, i: nat, x: string, y: string) {
    i < |ls| && ls[i].ip == x && forall j :: 0 <= j < |ls| && ls[j].ip == y ==> Before(ls, i, j)
  }

  predicate Leased(ls: seq<Lease>, ip: string) { exists i :: 0 <= i < |ls| && ls[i].ip == ip }

  /** The first at most four distinct addresses of `ls`, in that order. */
  ghost predicate IsChoice(ls: seq<Lease>, ips: seq<string>) {
    && |ips| <= MAX_LEASE_CANDIDATES
    && (forall a :: 0 <= a < |ips| ==> Leased(ls, ips[a]))
    && (forall a, b :: 0 <= a < b < |ips| ==> Precedes(ls, ips[a], ips[b]))
    && (forall x :: Leased(ls, x) && x !in ips ==> |ips| == MAX_LEASE_CANDIDATES)
    && (forall x, a :: Leased(ls, x) && x !in ips && 0 <= a < |ips| ==> Precedes(ls, ips[a], x))
  }

  lemma PrecedesIsStrict(ls: seq<Lease>, x: string, y: string)
    requires Precedes(ls, x, y)
    ensures !Precedes(ls, y, x)
  {
  }

  lemma ChoiceIsDistinct(ls: seq<Lease>, ips: seq<string>, m: nat, n: nat)
    requires IsChoice(ls, ips) && m < n < |ips|
    ensures ips[m] != ips[n]
  {
  }

  /** Where two choices first differ, each lists the other's address later or not at all. */
  lemma LaterPrecedes(ls: seq<Lease>, a: seq<string>, b: seq<string>, k: nat)
    requires IsChoice(ls, a) && IsChoice(ls, b) && k < |a| && k < |b| && a[..k] == b[..k] && a[k] != b[k]
    ensures Precedes(ls, b[k], a[k])
  {
    forall m | 0 <= m < k ensures b[m] != a[k] {
      assert b[m] == b[..k][m] == a[..k][m];
      ChoiceIsDistinct(ls, a, m, k);
    }
    if a[k] in b {
      var m :| 0 <= m < |b| && b[m] == a[k];
    }
  }

  lemma {:induction false} ChoicesAgree(ls: seq<Lease>, a: seq<string>, b: seq<string>, k: nat)
    requires IsChoice(ls, a) && IsChoice(ls, b) && k <= |a| && k <= |b|
    ensures a[..k] == b[..k]
  {
    if k > 0 {
      ChoicesAgree(ls, a, b, k - 1);
      SameNext(ls, a, b, k - 1);
      assert a[..k] == a[..k - 1] + [a[k - 1]] && b[..k] == b[..k - 1] + [b[k - 1]];
    }
  }

  lemma SameNext(ls: seq<Lease>, a: seq<string>, b: seq<string>, k: nat)
    requires IsChoice(ls, a) && IsChoice(ls, b) && k < |a| && k < |b| && a[..k] == b[..k]
    ensures a[k] == b[k]
  {
    if a[k] != b[k] {
      LaterPrecedes(ls, b, a, k);
      PrecedesIsStrict(ls, a[k], b[k]);
      LaterPrecedes(ls, a, b, k);
    }
  }

  lemma NextIsFresh(ls: seq<Lease>, ips: seq<string>, k: nat)
    requires IsChoice(ls, ips) && k < |ips|
    ensures ips[k] !in ips[..k] && Leased(ls, ips[k])
  {
  }

  lemma NoneLonger(ls: seq<Lease>, a: seq<string>, b: seq<string>)
    requires IsChoice(ls, a) && IsChoice(ls, b) && |a| <= |b|
    ensures a == b
  {
    ChoicesAgree(ls, a, b, |a|);
    assert a[..|a|] == a && b[..|b|] == b;
    if |a| < |b| {
      NextIsFresh(ls, b, |a|);
    }
  }

  /** At most one sequence of addresses is the choice. */
  lemma ChoiceIsUnique(ls: seq<Lease>, a: seq<string>, b: seq<string>)
    requires IsChoice(ls, a) && IsChoice(ls, b)
    ensures a == b
  {
    if |a| <= |b| {
      NoneLonger(ls, a, b);
    } else {
      NoneLonger(ls, b, a);
    }
  }

  // ---- the code makes that choice ------------------------------------------------------------

  predicate ByExpiry(s: seq<Lease>) { forall i, j :: 0 <= i < j < |s| ==> s[i].expiry >= s[j].expiry }

  /** `s` is `ls` reordered: place k holds record rank[k], in Before order. */
  ghost predicate Ranks(ls: seq<Lease>, s: seq<Lease>, rank: seq<nat>) {
    && |rank| == |s| == |ls|
    && (forall k :: 0 <= k < |rank| ==> rank[k] < |ls| && s[k] == ls[rank[k]])
    && (forall a, b :: 0 <= a < b < |rank| ==> Before(ls, rank[a], rank[b]))
    && (forall i :: 0 <= i < |ls| ==> i in rank)
  }

  /** Inserting one later record into ranked ones. */
  lemma {:induction false} InsertRanked(ls: seq<Lease>, s: seq<Lease>, rank: seq<nat>, i: nat) returns (after: seq<nat>)
    requires i < |ls| && |s| == |rank|
    requires forall k :: 0 <= k < |rank| ==> rank[k] < i && s[k] == ls[rank[k]]
    requires forall a, b :: 0 <= a < b < |rank| ==> Before(ls, rank[a], rank[b])
    ensures |after| == |rank| + 1
    ensures forall k :: 0 <= k < |after| ==> after[k] <= i && Insert(s, ls[i])[k] == ls[after[k]]
    ensures forall a, b :: 0 <= a < b < |after| ==> Before(ls, after[a], after[b])
    ensures forall k :: k in after <==> k in rank || k == i
  {
    var n := |s| - 1;
    if s == [] || s[n].expiry >= ls[i].expiry {
      after := rank + [i];
    } else {
      var front := InsertRanked(ls, s[..n], rank[..n], i);
      after := front + [rank[n]];
      assert rank == rank[..n] + [rank[n]];
      forall a | 0 <= a < |front| ensures Before(ls, front[a], rank[n]) {
        if front[a] != i {
          assert front[a] in rank[..n];
        }
      }
    }
  }

  lemma {:induction false} SortRanks(ls: seq<Lease>) returns (rank: seq<nat>)
    ensures Ranks(ls, Sorted(ls), rank)
  {
    if ls == [] {
      rank := [];
    } else {
      var n := |ls| - 1;
      var before := SortRanks(ls[..n]);
      rank := InsertRanked(ls, Sorted(ls[..n]), before, n);
    }
  }

  /** The first distinct addresses of leases in order are their choice. */
  lemma {:induction false} ChosenIsChoice(s: seq<Lease>)
    requires ByExpiry(s)
    ensures IsChoice(s, Chosen(s))
  {
    if s != [] {
      var n := |s| - 1;
      var init, ips := s[..n], Chosen(s[..n]);
      ChosenIsChoice(init);
      forall x, y | Precedes(init, x, y) ensures Precedes(s, x, y) {
        PrecedesStays(s, x, y);
      }
      forall x | Leased(s, x) ensures Leased(init, x) || x == s[n].ip {
        var i :| 0 <= i < |s| && s[i].ip == x;
        if i < n { assert init[i].ip == x; }
      }
      forall x | Leased(init, x) ensures Leased(s, x) {
        var i :| 0 <= i < |init| && init[i].ip == x;
        assert s[i].ip == x;
      }
      assert Leased(s, s[n].ip);
      forall x | Leased(init, x) && !Leased(init, s[n].ip) ensures Precedes(s, x, s[n].ip) {
        LastComesLast(s, x);
      }
    }
  }

  lemma PrecedesStays(s: seq<Lease>, x: string, y: string)
    requires s != [] && ByExpiry(s) && Precedes(s[..|s| - 1], x, y)
    ensures Precedes(s, x, y)
  {
    var init := s[..|s| - 1];
    var i :| Leads(init, i, x, y);
    forall j | 0 <= j < |s| && s[j].ip == y ensures Before(s, i, j) {
      if j < |init| {
        assert init[j].ip == y && Before(init, i, j);
      }
    }
    assert Leads(s, i, x, y);
  }

  lemma LastComesLast(s: seq<Lease>, x: string)
    requires s != [] && ByExpiry(s) && Leased(s[..|s| - 1], x) && !Leased(s[..|s| - 1], s[|s| - 1].ip)
    ensures Precedes(s, x, s[|s| - 1].ip)
  {
    var init := s[..|s| - 1];
    var i :| 0 <= i < |init| && init[i].ip == x;
    forall j | 0 <= j < |init| ensures s[j].ip != s[|s| - 1].ip {
      assert s[j] == init[j];
    }
    assert Leads(s, i, x, s[|s| - 1].ip);
  }

  lemma RankedByExpiry(ls: seq<Lease>, s: seq<Lease>, rank: seq<nat>)
    requires Ranks(ls, s, rank)
    ensures ByExpiry(s)
  {
  }

  lemma RankedLeased(ls: seq<Lease>, s: seq<Lease>, rank: seq<nat>, x: string)
    requires Ranks(ls, s, rank)
    ensures Leased(s, x) <==> Leased(ls, x)
  {
    if Leased(s, x) {
      var k :| 0 <= k < |s| && s[k].ip == x;
      assert ls[rank[k]].ip == x;
    }
    if Leased(ls, x) {
      var i :| 0 <= i < |ls| && ls[i].ip == x;
      assert i in rank;
      var k :| 0 <= k < |rank| && rank[k] == i;
      assert s[k].ip == x;
    }
  }

  lemma RankedPrecedes(ls: seq<Lease>, s: seq<Lease>, rank: seq<nat>, x: string, y: string)
    requires Ranks(ls, s, rank) && Precedes(s, x, y)
    ensures Precedes(ls, x, y)
  {
    RankedByExpiry(ls, s, rank);
    var k: nat :| Leads(s, k, x, y);
    forall j | 0 <= j < |ls| && ls[j].ip == y ensures Before(ls, rank[k], j) {
      assert j in rank;
      var m :| 0 <= m < |rank| && rank[m] == j;
      assert s[m].ip == y && Before(s, k, m);
      assert k < m;
    }
    assert Leads(ls, rank[k], x, y);
  }

  /** Sorting, then keeping first occurrences up to four, makes the choice. */
  lemma SortedChoice(ls: seq<Lease>)
    ensures IsChoice(ls, Chosen(Sorted(ls)))
  {
    var s, ips := Sorted(ls), Chosen(Sorted(ls));
    var rank := SortRanks(ls);
    RankedByExpiry(ls, s, rank);
    ChosenIsChoice(s);
    forall x ensures Leased(s, x) <==> Leased(ls, x) {
      RankedLeased(ls, s, rank, x);
    }
    forall x, y | Precedes(s, x, y) ensures Precedes(ls, x, y) {
      RankedPrecedes(ls, s, rank, x, y);
    }
  }

  // ---- the resolver's filter -------------------------------------------------------------------

  datatype Note = BadPin | OffSubnet(count: nat, first: string) | WrongHardware(count: nat, example: Lease)

  datatype Candidates = Candidates(ips: seq<string>, notes: seq<Note>)

  /** The records turned away at a gate, in file order. */
  function OffNet(ls: seq<Lease>, g: Gates): seq<Lease> {
    if ls == [] then []
    else
      var l := ls[|ls| - 1];
      OffNet(ls[..|ls| - 1], g) + if g.Named(l) && !g.OnNet(l) then [l] else []
  }

  function Unpinned(ls: seq<Lease>, g: Gates): seq<Lease> {
    if ls == [] then []
    else
      var l := ls[|ls| - 1];
      Unpinned(ls[..|ls| - 1], g) + if g.OnNet(l) && !g.Pass(l) then [l] else []
  }

  function NotesOf(off: seq<Lease>, wrong: seq<Lease>): seq<Note> {
    (if off == [] then [] else [OffSubnet(|off|, off[0].ip)]) +
    (if wrong == [] then [] else [WrongHardware(|wrong|, wrong[0])])
  }

  lemma {:induction false} InsertAt(s: seq<Lease>, l: Lease, i: nat)
    requires i <= |s| && (i == 0 || s[i - 1].expiry >= l.expiry)
    requires forall j :: i <= j < |s| ==> s[j].expiry < l.expiry
    ensures Insert(s, l) == s[..i] + [l] + s[i..]
  {
    var n := |s|;
    if i == n {
      assert s[..i] == s && s[i..] == [];
    } else {
      InsertAt(s[..n - 1], l, i);
      assert s[..n - 1][..i] == s[..i] && s[..n - 1][i..] + [s[n - 1]] == s[i..];
    }
  }

  method SortStable(ls: seq<Lease>) returns (s: seq<Lease>)
    ensures s == Sorted(ls)
  {
    s := [];
    for k := 0 to |ls|
      invariant s == Sorted(ls[..k])
    {
      var i := |s|;
      while i > 0 && s[i - 1].expiry < ls[k].expiry
        invariant 0 <= i <= |s|
        invariant forall j :: i <= j < |s| ==> s[j].expiry < ls[k].expiry
      {
        i := i - 1;
      }
      InsertAt(s, ls[k], i);
      assert ls[..k + 1][..k] == ls[..k];
      s := s[..i] + [ls[k]] + s[i..];
    }
    assert ls[..|ls|] == ls;
  }

  /**
   * `pin` is the hardware address as the caller spelt it. An unreadable pin is no
   * candidate at all; otherwise the addresses are the choice among the records that pass.
   */
  method LeaseCandidatesFrom(text: string, want: string, usable: set<string>, subnet: set<string>, pin: string)
    returns (r: Candidates)
    ensures pin != "" && Normalized(pin).None? ==> r == Candidates([], [BadPin])
    ensures pin == "" || Normalized(pin).Some? ==>
      var g := Gates(want, usable, subnet, if pin == "" then "" else Normalized(pin).value);
      && IsChoice(Passing(Parsed(text), g), r.ips)
      && r.notes == NotesOf(OffNet(Parsed(text), g), Unpinned(Parsed(text), g))
  {
    var wantHW := "";
    if pin != "" {
      var hw := NormalizeHWAddr(pin);
      if hw.None? {
        return Candidates([], [BadPin]);
      }
      wantHW := hw.value;
    }
    var leases := ParseLeases(text);
    var matched, notes := Filter(leases, want, usable, subnet, wantHW);
    var sorted := SortStable(matched);
    var ips := FirstDistinct(sorted);
    SortedChoice(matched);
    return Candidates(ips, notes);
  }

  method Filter(leases: seq<Lease>, want: string, usable: set<string>, subnet: set<string>, wantHW: string)
    returns (matched: seq<Lease>, notes: seq<Note>)
    ensures var g := Gates(want, usable, subnet, wantHW);
            matched == Passing(leases, g) && notes == NotesOf(OffNet(leases, g), Unpinned(leases, g))
  {
    ghost var g := Gates(want, usable, subnet, wantHW);
    matched := [];
    var offNet, offSeen, badHW, badSeen := 0, "", 0, NO_LEASE;
    for k := 0 to |leases|
      invariant matched == Passing(leases[..k], g)
      invariant |OffNet(leases[..k], g)| == offNet && (offNet > 0 ==> OffNet(leases[..k], g)[0].ip == offSeen)
      invariant |Unpinned(leases[..k], g)| == badHW && (badHW > 0 ==> Unpinned(leases[..k], g)[0] == badSeen)
    {
      assert leases[..k + 1][..k] == leases[..k];
      var l := leases[k];
      if l.name != want || l.ip !in usable {
        continue;
      }
      if l.ip !in subnet {
        offSeen := if offNet == 0 then l.ip else offSeen;
        offNet := offNet + 1;
        continue;
      }
      if wantHW != "" {
        var got := NormalizeHWAddr(l.hwAddr);
        if got != Some(wantHW) {
          badSeen := if badHW == 0 then l else badSeen;
          badHW := badHW + 1;
          continue;
        }
      }
      matched := matched + [l];
    }
    assert leases[..|leases|] == leases;
    notes := [];
    if offNet > 0 {
      notes := notes + [OffSubnet(offNet, offSeen)];
    }
    if badHW > 0 {
      notes := notes + [WrongHardware(badHW, badSeen)];
    }
  }

  method FirstDistinct(sorted: seq<Lease>) returns (ips: seq<string>)
    ensures ips == Chosen(sorted)
  {
    ips := [];
    var seen: set<string> := {};
    for k := 0 to |sorted|
      invariant ips == Chosen(sorted[..k]) && |ips| < MAX_LEASE_CANDIDATES
      invariant forall ip :: ip in seen <==> ip in ips
    {
      assert sorted[..k + 1][..k] == sorted[..k];
      var ip := sorted[k].ip;
      if ip in seen {
        continue;
      }
      seen := seen + {ip};
      ips := ips + [ip];
      if |ips| == MAX_LEASE_CANDIDATES {
        ChosenFull(sorted, k + 1);
        return;
      }
    }
    assert sorted[..|sorted|] == sorted;
  }

  lemma {:induction false} ChosenFull(s: seq<Lease>, k: nat)
    requires k <= |s| && |Chosen(s[..k])| >= MAX_LEASE_CANDIDATES
    ensures Chosen(s) == Chosen(s[..k])
  {
    if k < |s| {
      assert s[..|s| - 1][..k] == s[..k];
      ChosenFull(s[..|s| - 1], k);
    } else {
      assert s[..k] == s;
    }
  }

  // ---- the database as the DHCP server writes it --------------------------------------------

  datatype Record = Record(name: string, ip: string, hwAddr: string, time: string) {
    predicate Valid() {
      && name != "" && ip != ""
      && IsTrimmed(name) && IsTrimmed(ip) && IsTrimmed(hwAddr) && IsTrimmed(time)
      && '\n' !in name && '\n' !in ip && '\n' !in hwAddr && '\n' !in time
    }

    function Read(): Lease { Lease(name, ip, hwAddr, LeaseTime(time)) }

    function Written(): seq<string> {
      ["{", Field("name", name), Field("ip_address", ip), Field("hw_address", hwAddr),
       Field("identifier", hwAddr), Field("lease", time), "}"]
    }
  }

  function Field(key: string, val: string): string { "\t" + key + "=" + val }

  lemma FieldIsSet(scan: Scan, key: string, val: string)
    requires scan.inside && key != "" && IsTrimmed(key) && '=' !in key && IsTrimmed(val)
    ensures scan.Line(Field(key, val)) == scan.(cur := Set(scan.cur, key, val))
  {
    var raw, line := Field(key, val), key + "=" + val;
    assert TrimCR(raw) == raw;
    assert TrimLeft(raw) == line by {
      assert raw[1..] == line && line[0] == key[0];
      assert TrimLeft(line) == line;
    }
    assert TrimRight(line) == line;
    assert line[..|key|] == key && line[|key| + 1..] == val;
    IndexIs(line, '=', |key|);
    TrimmedStays(key);
    TrimmedStays(val);
  }

  function WrittenAll(rs: seq<Record>): seq<string> {
    if rs == [] then [] else WrittenAll(rs[..|rs| - 1]) + rs[|rs| - 1].Written()
  }

  function ReadAll(rs: seq<Record>): seq<Lease> {
    if rs == [] then [] else ReadAll(rs[..|rs| - 1]) + [rs[|rs| - 1].Read()]
  }

  lemma LinesMore(lines: seq<string>, line: string)
    ensures Lines(lines + [line]) == Lines(lines).Line(line)
  {
  }

  lemma BracesAre(scan: Scan)
    ensures scan.Line("{") == Scan(scan.out, NO_LEASE, true)
    ensures scan.Line("}") ==
            Scan(if scan.inside && scan.cur.name != "" && scan.cur.ip != "" then scan.out + [scan.cur] else scan.out, NO_LEASE, false)
  {
  }

  /** Which key sets what, one literal at a time. */
  lemma KeysSet(l: Lease, val: string)
    ensures Set(l, "name", val) == l.(name := val)
    ensures Set(l, "ip_address", val) == l.(ip := val)
    ensures Set(l, "hw_address", val) == l.(hwAddr := val)
    ensures Set(l, "identifier", val) == l
    ensures Set(l, "lease", val) == l.(expiry := LeaseTime(val))
  {
  }

  lemma FieldIsRead(lines: seq<string>, scan: Scan, key: string, val: string)
    requires Lines(lines) == scan && scan.inside
    requires key != "" && IsTrimmed(key) && '=' !in key && IsTrimmed(val)
    ensures Lines(lines + [Field(key, val)]) == scan.(cur := Set(scan.cur, key, val))
  {
    LinesMore(lines, Field(key, val));
    FieldIsSet(scan, key, val);
  }

  function Inside(out: seq<Lease>, name: string, ip: string, hw: string, expiry: nat): Scan {
    Scan(out, Lease(name, ip, hw, expiry), true)
  }

  lemma NamesAreRead(lines: seq<string>, out: seq<Lease>, r: Record)
    requires r.Valid() && Lines(lines) == Scan(out, NO_LEASE, true)
    ensures Lines(lines + [Field("name", r.name)] + [Field("ip_address", r.ip)]) == Inside(out, r.name, r.ip, "", 0)
  {
    KeysSet(NO_LEASE, r.name);
    FieldIsRead(lines, Scan(out, NO_LEASE, true), "name", r.name);
    KeysSet(Lease(r.name, "", "", 0), r.ip);
    FieldIsRead(lines + [Field("name", r.name)], Inside(out, r.name, "", "", 0), "ip_address", r.ip);
  }

  lemma HardwareIsRead(lines: seq<string>, out: seq<Lease>, r: Record)
    requires r.Valid() && Lines(lines) == Inside(out, r.name, r.ip, "", 0)
    ensures Lines(lines + [Field("hw_address", r.hwAddr)] + [Field("identifier", r.hwAddr)]) ==
            Inside(out, r.name, r.ip, r.hwAddr, 0)
  {
    KeysSet(Lease(r.name, r.ip, "", 0), r.hwAddr);
    FieldIsRead(lines, Inside(out, r.name, r.ip, "", 0), "hw_address", r.hwAddr);
    KeysSet(Lease(r.name, r.ip, r.hwAddr, 0), r.hwAddr);
    FieldIsRead(lines + [Field("hw_address", r.hwAddr)], Inside(out, r.name, r.ip, r.hwAddr, 0), "identifier", r.hwAddr);
  }

  lemma EndIsRead(lines: seq<string>, out: seq<Lease>, r: Record)
    requires r.Valid() && Lines(lines) == Inside(out, r.name, r.ip, r.hwAddr, 0)
    ensures Lines(lines + [Field("lease", r.time)] + ["}"]) == Scan(out + [r.Read()], NO_LEASE, false)
  {
    KeysSet(Lease(r.name, r.ip, r.hwAddr, 0), r.time);
    FieldIsRead(lines, Inside(out, r.name, r.ip, r.hwAddr, 0), "lease", r.time);
    LinesMore(lines + [Field("lease", r.time)], "}");
    BracesAre(Inside(out, r.name, r.ip, r.hwAddr, LeaseTime(r.time)));
  }

  lemma RecordIsRead(lines: seq<string>, scan: Scan, r: Record)
    requires r.Valid() && Lines(lines) == scan
    ensures Lines(lines + r.Written()) == Scan(scan.out + [r.Read()], NO_LEASE, false)
  {
    var l1 := lines + ["{"];
    LinesMore(lines, "{");
    BracesAre(scan);
    NamesAreRead(l1, scan.out, r);
    var l2 := l1 + [Field("name", r.name)] + [Field("ip_address", r.ip)];
    HardwareIsRead(l2, scan.out, r);
    var l3 := l2 + [Field("hw_address", r.hwAddr)] + [Field("identifier", r.hwAddr)];
    EndIsRead(l3, scan.out, r);
    SevenLines(lines, r.Written());
  }

  lemma SevenLines(lines: seq<string>, w: seq<string>)
    requires |w| == 7
    ensures lines + w == lines + [w[0]] + [w[1]] + [w[2]] + [w[3]] + [w[4]] + [w[5]] + [w[6]]
  {
  }

  lemma {:induction false} RecordsAreRead(rs: seq<Record>)
    requires forall i :: 0 <= i < |rs| ==> rs[i].Valid()
    ensures Lines(WrittenAll(rs)) == Scan(ReadAll(rs), NO_LEASE, false)
  {
    if rs != [] {
      var init := rs[..|rs| - 1];
      RecordsAreRead(init);
      RecordIsRead(WrittenAll(init), Scan(ReadAll(init), NO_LEASE, false), rs[|rs| - 1]);
    }
  }

  lemma WrittenHasNoBreak(r: Record)
    requires r.Valid()
    ensures NoneHas(r.Written(), '\n')
  {
  }

  lemma {:induction false} RecordsHaveNoBreak(rs: seq<Record>)
    requires forall i :: 0 <= i < |rs| ==> rs[i].Valid()
    ensures NoneHas(WrittenAll(rs), '\n')
  {
    if rs != [] {
      RecordsHaveNoBreak(rs[..|rs| - 1]);
      WrittenHasNoBreak(rs[|rs| - 1]);
    }
  }

  /** The database the DHCP server writes reads back record for record, in file order. */
  lemma ParsedIsWritten(rs: seq<Record>)
    requires rs != [] && forall i :: 0 <= i < |rs| ==> rs[i].Valid()
    ensures Parsed(Join(WrittenAll(rs), '\n')) == ReadAll(rs)
  {
    RecordsAreRead(rs);
    RecordsHaveNoBreak(rs);
    SplitJoin(WrittenAll(rs), '\n');
  }
}
