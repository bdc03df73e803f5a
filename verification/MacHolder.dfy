/**
 * Which Mac socket would a mirror shadow? (internal/macsync/holder.go, and the
 * gate in front of every mirror bind in internal/mirror/mirror.go.)
 */
module MacHolder {
  import opened Options
  import opened Listeners

  type Bits32 = n: int | 0 <= n < 0x1_0000_0000
  type Bits128 = n: int | 0 <= n < 0x1_0000_0000_0000_0000_0000_0000_0000_0000

  /** An address literal; the v4-mapped form is a V6 whose top 96 bits are ::ffff. */
  datatype Addr = V4(ip: Bits32) | V6(bits: Bits128) {
    function Unmap(): Addr {
      if V6? && bits / 0x1_0000_0000 == 0xffff then V4(bits % 0x1_0000_0000) else this
    }
    predicate IsUnspecified() { if V4? then ip == 0 else bits == 0 }
  }

  datatype MacListener = MacListener(proto: string, port: Port, addr: Addr, v6only: bool)

  /** One mirror: guest TCP and UDP listeners on a port are independent. */
  datatype Key = Key(proto: string, port: Port)

  /**
   * The Mac as one bind finds it: its own TCP LISTEN sockets, what an enumeration
   * of them returned (None for an error), whether the holder hook is installed,
   * and the binds the kernel refuses for any other reason.
   */
  datatype Mac = Mac(native: seq<MacListener>, polled: Option<seq<MacListener>>, hook: bool, refused: map<Key, Errno>)

  datatype Errno = EADDRINUSE | EACCES | OTHER

  /** The match arms of WildcardHolder for one listener. */
  predicate WildcardServes(l: MacListener, port: Port, ip: Addr) {
    var a := l.addr.Unmap();
    && l.proto == "tcp" && l.port == port && a.IsUnspecified()
    && ((ip.V4? && (a.V4? || !l.v6only)) || (ip.V6? && a.V6?))
  }

  function WildcardHolder(ls: seq<MacListener>, port: Port, mirrorIP: Addr): (r: Option<MacListener>)
    ensures r.Some? ==> r.value in ls && WildcardServes(r.value, port, mirrorIP.Unmap())
    ensures r.None? ==> forall l :: l in ls ==> !WildcardServes(l, port, mirrorIP.Unmap())
  {
    if ls == [] then None
    else if WildcardServes(ls[0], port, mirrorIP.Unmap()) then Some(ls[0])
    else WildcardHolder(ls[1..], port, mirrorIP)
  }

  /** (holder, known): an untrustworthy read is never an answer. */
  function HolderCheck(mirrorIP: Option<Addr>, polled: Option<seq<MacListener>>, proto: string, port: Port)
    : (Option<MacListener>, bool)
  {
    if proto != "tcp" || mirrorIP.None? || polled.None? || polled.value == [] then (None, false)
    else (WildcardHolder(polled.value, port, mirrorIP.value), true)
  }

  predicate MacHeld(mirrorIP: Option<Addr>, mac: Mac, key: Key) {
    mac.hook && HolderCheck(mirrorIP, mac.polled, key.proto, key.port).0.Some?
  }

  /** XNU with SO_REUSEADDR: a TCP bind collides with exact addresses only. */
  function BindError(mirrorIP: Option<Addr>, mac: Mac, key: Key): Option<Errno> {
    if key in mac.refused then Some(mac.refused[key])
    else if key.proto == "tcp" && mirrorIP.Some? && ExactlyHeld(mac, key.port, mirrorIP.value) then Some(EADDRINUSE)
    else None
  }

  predicate ExactlyHeld(mac: Mac, port: Port, mirrorIP: Addr) {
    exists l :: l in mac.native && l.proto == "tcp" && l.port == port && l.addr.Unmap() == mirrorIP.Unmap()
  }

  /** A mirror for `key` opens: not held by a wildcard (TCP only) and the bind succeeds. */
  predicate CanOpen(mirrorIP: Option<Addr>, mac: Mac, key: Key) {
    (key.proto == "udp" || !MacHeld(mirrorIP, mac, key)) && BindError(mirrorIP, mac, key).None?
  }

  /** The v4-mapped range, ::ffff:0.0.0.0 to ::ffff:255.255.255.255, stands for the v4 addresses. */
  lemma UnmapIs(a: Addr)
    ensures a.Unmap() ==
            if a.V6? && 0xffff_0000_0000 <= a.bits <= 0xffff_ffff_ffff then V4(a.bits - 0xffff_0000_0000) else a
    ensures a.IsUnspecified() <==> a in {V4(0), V6(0)}
  {
  }

  /** A connect to ip:port on this Mac reaches `l`. */
  ghost predicate Answers(l: MacListener, port: Port, ip: Addr) {
    var a := l.addr.Unmap();
    && l.proto == "tcp" && l.port == port
    && (a == ip || a == (if ip.V4? then V4(0) else V6(0)) || (a == V6(0) && ip.V4? && !l.v6only))
  }

  /** The read shows every native listener, and nothing else on a wildcard. */
  ghost predicate Trusted(mac: Mac) {
    && mac.hook && mac.polled.Some?
    && (forall l :: l in mac.native ==> l in mac.polled.value)
    && (forall l :: l in mac.polled.value && l.addr.Unmap().IsUnspecified() ==> l in mac.native)
  }

  /** No shadowing, exactly: under a trusted read a TCP mirror opens iff nothing native answers there. */
  lemma OpensIffNothingAnswers(ip: Addr, mac: Mac, key: Key)
    requires Trusted(mac) && key.proto == "tcp" && key !in mac.refused
    ensures CanOpen(Some(ip), mac, key) <==>
            forall l :: l in mac.native ==> !Answers(l, key.port, ip.Unmap())
  {
  }

  /**
   * Whatever the read: UDP opens unless its bind is refused; TCP unless its bind is refused, a
   * native listener sits on the very address, or a read there was shows a wildcard that answers.
   */
  lemma OpensExactly(ip: Addr, mac: Mac, port: Port)
    ensures CanOpen(Some(ip), mac, Key("udp", port)) <==> Key("udp", port) !in mac.refused
    ensures CanOpen(Some(ip), mac, Key("tcp", port)) <==>
            && Key("tcp", port) !in mac.refused
            && (forall l :: l in mac.native && l.proto == "tcp" && l.port == port ==> l.addr.Unmap() != ip.Unmap())
            && (mac.hook && mac.polled.Some? ==>
                  forall l :: l in mac.polled.value && l.addr.Unmap() in {V4(0), V6(0)} ==> !Answers(l, port, ip.Unmap()))
  {
    UnmapIs(ip);
  }

  /** With no mirror address to compare, only a refused bind stands in the way. */
  lemma OpensBlindly(mac: Mac, key: Key)
    ensures CanOpen(None, mac, key) <==> key !in mac.refused
  {
  }

  /** Without the hook the bind alone does not see a wildcard holder: it succeeds and shadows it. */
  lemma BindAloneShadows()
    ensures var ssh := MacListener("tcp", 8080, V4(0), false);
            var mac := Mac([ssh], Some([ssh]), false, map[]);
            CanOpen(Some(V4(0x7f00_0001)), mac, Key("tcp", 8080)) && Answers(ssh, 8080, V4(0x7f00_0001))
  {
  }
}
