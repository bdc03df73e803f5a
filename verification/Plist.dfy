/**
 * The LaunchDaemon plist (internal/install/plist.go): the argv it renders, and the argv
 * read back out of its text.
 */
module Plist {
  import opened Options
  import opened Listeners
  import opened Texts
  import opened VmRefs

  const BINARY_PATH := "/usr/local/libexec/drawbridged"
  const DEFAULT_SKIP: seq<Port> := [22, 323]

  /** `skip` None leaves the daemon's own default alone; Some([]) is told to skip nothing. */
  datatype Config = Config(
    vm: string, udp: seq<Port>, mac: string, subnet: string, skip: Option<seq<Port>>, agent: string, secretFile: string)

  // ---- validation ---------------------------------------------------------------

  predicate IsMac(s: string) {
    var parts := Split(s, ':');
    |parts| == 6 && forall i :: 0 <= i < 6 ==> 1 <= |parts[i]| <= 2 && AreDigits(parts[i], 16)
  }

  predicate IsSubnet(s: string) {
    var halves := Split(s, '/');
    && |halves| == 2 && 1 <= |halves[1]| <= 2 && AreDigits(halves[1], 10)
    && var quads := Split(halves[0], '.');
       |quads| == 4 && forall i :: 0 <= i < 4 ==> 1 <= |quads[i]| <= 3 && AreDigits(quads[i], 10)
  }

  const LOOPBACK := "tcp://127.0.0.1:"

  predicate IsLoopback(s: string) {
    HasPrefix(s, LOOPBACK) && 1 <= |s| - |LOOPBACK| <= 5 && AreDigits(s[|LOOPBACK|..], 10)
  }

  predicate IsSecretPath(s: string) {
    HasPrefix(s, "/") && forall i :: 0 <= i < |s| ==> s[i] !in {'&', '<', '>', '"', '\''} && ' ' <= s[i] && s[i] != '\U{007F}'
  }

  predicate NoZero(ports: seq<Port>) { forall i :: 0 <= i < |ports| ==> ports[i] != 0 }

  predicate Validate(c: Config) {
    && ParseRef(c.vm).Some?
    && NoZero(c.udp)
    && (c.skip.Some? ==> NoZero(c.skip.value))
    && (c.mac != "" ==> IsMac(c.mac))
    && (c.subnet != "" ==> IsSubnet(c.subnet))
    && (c.agent != "" ==> IsLoopback(c.agent))
    && (c.secretFile != "" ==> IsSecretPath(c.secretFile))
  }

  // ---- the argv --------------------------------------------------------------------

  function Itoas(ports: seq<Port>): (s: seq<string>)
    ensures |s| == |ports|
  {
    if ports == [] then [] else [Itoa(ports[0])] + Itoas(ports[1..])
  }

  function JoinPorts(ports: seq<Port>): string { Join(Itoas(ports), ',') }

  function When(given: bool, flag: string, value: string): seq<(string, string)> {
    if given then [(flag, value)] else []
  }

  /** The flags up to -skip, and the rest of them. */
  function FrontFlags(c: Config): seq<(string, string)> {
    [("-agent", if c.agent != "" then c.agent else "auto"), ("-vm", c.vm)]
    + When(c.udp != [], "-udp", JoinPorts(c.udp))
    + When(c.skip.Some?, "-skip", if c.skip.Some? then JoinPorts(c.skip.value) else "")
  }

  function Flags(c: Config): seq<(string, string)> {
    FrontFlags(c)
    + When(c.mac != "", "-vm-mac", c.mac)
    + When(c.subnet != "", "-vm-subnet", c.subnet)
    + When(c.secretFile != "", "-secret-file", c.secretFile)
  }

  function Flat(pairs: seq<(string, string)>): seq<string> {
    if pairs == [] then [] else [pairs[0].0, pairs[0].1] + Flat(pairs[1..])
  }

  function Args(c: Config): seq<string> { [BINARY_PATH] + Flat(Flags(c)) }

  // ---- the document --------------------------------------------------------------------

  function Tag(body: string): string { "<" + body }

  // the text of the dict's first half, tag by tag
  const XML := "?xml version=\"1.0\" encoding=\"UTF-8\"?>\n"
  const DOCTYPE := "!DOCTYPE plist PUBLIC "
  const PUBLIC_ID := "\"-//Apple//DTD PLIST 1.0//EN\" "
  const SYSTEM_HOST := "\"http://www.apple.com/"
  const SYSTEM_PATH := "DTDs/PropertyList-1.0.dtd\">\n"
  const PLIST := "plist version=\"1.0\">\n"
  const DICT := "dict>\n\t"
  const LABEL_KEY := "key>Label"
  const END_KEY := "/key>\n\t"
  const LABEL := "string>com.archcorsair.drawbridged"
  const END_LABEL := "/string>\n\t"
  const ARGS_KEY := "<key>ProgramArguments</key>"
  const ARRAY := "\n\t<array>\n"
  const END_ARRAY := "</array>"
  const LOG := "<string>/Library/Logs/drawbridge/drawbridged.log</string>\n"
  const RUN_KEY := "<key>RunAtLoad</key>\n\t<true/>\n"
  const ALIVE_KEY := "<key>KeepAlive</key>\n\t<true/>\n"
  const TYPE_KEY := "<key>ProcessType</key>\n\t"
  const TYPE := "<string>Interactive</string>\n"
  const OUT_KEY := "<key>StandardOutPath</key>\n\t"
  const ERROR_KEY := "<key>StandardErrorPath</key>\n\t"
  const END_DICT := "</dict>\n</plist>\n"

  const OPEN := "<string>"
  const CLOSE := "</string>"

  function Element(arg: string): string { "\t\t" + OPEN + arg + CLOSE + "\n" }

  function Elements(args: seq<string>): string {
    if args == [] then "" else Elements(args[..|args| - 1]) + Element(args[|args| - 1])
  }

  function Preamble(): string { DOCTYPE + PUBLIC_ID + SYSTEM_HOST + SYSTEM_PATH }

  function Head(): string {
    Tag(XML) + Tag(Preamble()) + Tag(PLIST) + Tag(DICT)
    + Tag(LABEL_KEY) + Tag(END_KEY) + Tag(LABEL) + Tag(END_LABEL) + ARGS_KEY + ARRAY
  }

  function Foot(): string {
    "\t" + END_ARRAY + ("\n\t" + RUN_KEY + "\t" + ALIVE_KEY + "\t" + TYPE_KEY + TYPE + Outputs() + END_DICT)
  }

  function Outputs(): string { "\t" + OUT_KEY + LOG + "\t" + ERROR_KEY + LOG }

  function Document(args: seq<string>): string { Head() + Elements(args) + Foot() }

  method RenderArgs(head: string, args: seq<string>, foot: string) returns (b: string)
    ensures b == head + Elements(args) + foot
  {
    b := head;
    for i := 0 to |args|
      invariant b == head + Elements(args[..i])
    {
      assert args[..i + 1][..i] == args[..i];
      b := b + ("\t\t" + OPEN + args[i] + CLOSE + "\n");
    }
    assert args[..|args|] == args;
    b := b + foot;
  }

  method RenderPlist(c: Config) returns (r: Option<string>)
    ensures r == if Validate(c) then Some(Document(Args(c))) else None
  {
    if !Validate(c) {
      return None;
    }
    var b := RenderArgs(Head(), Args(c), Foot());
    return Some(b);
  }

  // ---- reading it back --------------------------------------------------------------------

  /** The value of the <string> element at the front of `s`, and what follows it. */
  function ElementAt(s: string): Option<(string, string)> {
    if !HasPrefix(s, OPEN) then None
    else
      var rest := s[|OPEN|..];
      var i := IndexOf(rest, '<');
      if HasPrefix(rest[i..], CLOSE) then Some((rest[..i], rest[i + |CLOSE|..])) else None
  }

  /** Every match of <string>([^<]*)</string>, left to right. */
  function FindStrings(s: string): seq<string>
    decreases |s|
  {
    if s == "" then []
    else if ElementAt(s).Some? then [ElementAt(s).value.0] + FindStrings(ElementAt(s).value.1)
    else FindStrings(s[1..])
  }

  /** Only the ProgramArguments array when there is one. */
  function ArgumentsPart(text: string): string {
    match From(text, ARGS_KEY)
    case Some(rest) => UpTo(rest, END_ARRAY)
    case None => text
  }

  predicate IsFlag(token: string) { HasPrefix(token, "-") }

  /** A flag and the token after it, again and again; whatever is neither is passed over. */
  function Pairs(tokens: seq<string>, known: map<string, string>): map<string, string> {
    if tokens == [] then known
    else if !IsFlag(tokens[0]) || |tokens| == 1 then Pairs(tokens[1..], known)
    else Pairs(tokens[2..], known[tokens[0] := TrimSpace(tokens[1])])
  }

  function InstalledArgs(text: string): map<string, string> { Pairs(FindStrings(ArgumentsPart(text)), map[]) }

  method ArgsFromPlist(text: string) returns (out: map<string, string>)
    ensures out == InstalledArgs(text)
  {
    var m := FindStrings(ArgumentsPart(text));
    out := map[];
    var i := 0;
    while i < |m|
      invariant i <= |m| && Pairs(m, map[]) == Pairs(m[i..], out)
    {
      var tok := m[i];
      assert m[i..][0] == tok && m[i..][1..] == m[i + 1..];
      if !IsFlag(tok) || i + 1 >= |m| {
        i := i + 1;
        continue;
      }
      assert m[i..][1] == m[i + 1] && m[i..][2..] == m[i + 2..];
      out := out[tok := TrimSpace(m[i + 1])];
      i := i + 2;
    }
  }

  // ---- what a search makes of the rendered text ---------------------------------------------

  lemma FindNone(s: string, at: nat)
    requires s != "" && Differs(s, OPEN, at)
    ensures FindStrings(s) == FindStrings(s[1..])
  {
  }

  lemma {:induction false} FindPlain(plain: string, rest: string)
    requires '<' !in plain
    ensures FindStrings(plain + rest) == FindStrings(rest)
  {
    if plain == "" {
      assert plain + rest == rest;
    } else {
      FindNone(plain + rest, 0);
      assert (plain + rest)[1..] == plain[1..] + rest;
      FindPlain(plain[1..], rest);
    }
  }

  lemma FindTag(tag: string, rest: string, at: nat)
    requires tag != "" && tag[0] == '<' && '<' !in tag[1..] && Differs(tag, OPEN, at)
    ensures FindStrings(tag + rest) == FindStrings(rest)
  {
    FindNone(tag + rest, at);
    assert (tag + rest)[1..] == tag[1..] + rest;
    FindPlain(tag[1..], rest);
  }

  lemma FindElement(arg: string, rest: string)
    requires '<' !in arg
    ensures FindStrings(OPEN + arg + CLOSE + rest) == [arg] + FindStrings(rest)
  {
    var s, after := OPEN + arg + CLOSE + rest, arg + CLOSE + rest;
    assert s[|OPEN|..] == after;
    IndexIs(after, '<', |arg|);
    assert after[|arg|..] == CLOSE + rest && after[|arg| + |CLOSE|..] == rest && after[..|arg|] == arg;
    assert HasPrefix(CLOSE + rest, CLOSE);
    assert ElementAt(s) == Some((arg, rest));
  }

  predicate Plain(args: seq<string>) { forall i :: 0 <= i < |args| ==> '<' !in args[i] }

  lemma Regroup(a: string, b: string, c: string)
    ensures (a + b) + c == a + (b + c)
  {
  }

  lemma LastElement(args: seq<string>, rest: string)
    requires args != []
    ensures Elements(args) + rest == Elements(args[..|args| - 1]) + (Element(args[|args| - 1]) + rest)
  {
    Regroup(Elements(args[..|args| - 1]), Element(args[|args| - 1]), rest);
  }

  lemma ElementParts(a: string, b: string, c: string, d: string, e: string, rest: string)
    ensures a + b + c + d + e + rest == a + (b + c + d + (e + rest)) == a + ((b + c) + ((d + e) + rest))
  {
  }

  /** The elements hold the arguments and nothing else. */
  lemma {:induction false} FindElements(args: seq<string>, rest: string)
    requires Plain(args)
    ensures FindStrings(Elements(args) + rest) == args + FindStrings(rest)
  {
    if args == [] {
      assert Elements(args) + rest == rest;
    } else {
      var n := |args| - 1;
      FindElements(args[..n], Element(args[n]) + rest);
      LastElement(args, rest);
      FindOne(args[n], rest);
      LastFound(args, FindStrings(rest));
    }
  }

  lemma LastFound(args: seq<string>, found: seq<string>)
    requires args != []
    ensures args[..|args| - 1] + ([args[|args| - 1]] + found) == args + found
  {
  }

  lemma FindOne(arg: string, rest: string)
    requires '<' !in arg
    ensures FindStrings(Element(arg) + rest) == [arg] + FindStrings(rest)
  {
    ElementParts("\t\t", OPEN, arg, CLOSE, "\n", rest);
    FindPlain("\t\t", OPEN + arg + CLOSE + ("\n" + rest));
    FindElement(arg, "\n" + rest);
    FindPlain("\n", rest);
  }

  /** Nor does the array end among them. */
  lemma {:induction false} UpToElements(args: seq<string>, rest: string)
    requires Plain(args)
    ensures UpTo(Elements(args) + rest, END_ARRAY) == Elements(args) + UpTo(rest, END_ARRAY)
  {
    if args == [] {
      assert Elements(args) + rest == rest;
      assert "" + UpTo(rest, END_ARRAY) == UpTo(rest, END_ARRAY);
    } else {
      var n := |args| - 1;
      UpToElements(args[..n], Element(args[n]) + rest);
      LastElement(args, rest);
      UpToOne(args[n], rest);
      LastElement(args, UpTo(rest, END_ARRAY));
    }
  }

  /** Past a tag at which the array cannot end. */
  lemma PastTag(tag: string, rest: string, at: nat)
    requires tag != "" && tag[0] == '<' && '<' !in tag[1..] && Differs(tag, END_ARRAY, at)
    ensures UpTo(tag + rest, END_ARRAY) == tag + UpTo(rest, END_ARRAY)
  {
    SkipTag(tag, rest, END_ARRAY, at);
  }

  lemma PastOpen(arg: string, rest: string)
    requires '<' !in arg
    ensures UpTo((OPEN + arg) + rest, END_ARRAY) == (OPEN + arg) + UpTo(rest, END_ARRAY)
  {
    assert (OPEN + arg)[1..] == "string>" + arg;
    PastTag(OPEN + arg, rest, 1);
  }

  lemma PastClose(rest: string)
    ensures UpTo((CLOSE + "\n") + rest, END_ARRAY) == (CLOSE + "\n") + UpTo(rest, END_ARRAY)
  {
    assert (CLOSE + "\n")[1..] == "/string>" + "\n";
    PastTag(CLOSE + "\n", rest, 2);
  }

  lemma PastTabs(rest: string)
    ensures UpTo("\t\t" + rest, END_ARRAY) == "\t\t" + UpTo(rest, END_ARRAY)
  {
    SkipPlain("\t\t", rest, END_ARRAY);
  }

  lemma UpToOne(arg: string, rest: string)
    requires '<' !in arg
    ensures UpTo(Element(arg) + rest, END_ARRAY) == Element(arg) + UpTo(rest, END_ARRAY)
  {
    ElementParts("\t\t", OPEN, arg, CLOSE, "\n", rest);
    PastTabs((OPEN + arg) + ((CLOSE + "\n") + rest));
    PastOpen(arg, (CLOSE + "\n") + rest);
    PastClose(rest);
    ElementParts("\t\t", OPEN, arg, CLOSE, "\n", UpTo(rest, END_ARRAY));
  }

  /** A tag at which a search for `sub` cannot stop. */
  predicate Misses(body: string, sub: string, at: nat) {
    '<' !in body && sub != "" && sub[0] == '<' && Differs(Tag(body), sub, at)
  }

  lemma SkipMiss(body: string, rest: string, sub: string, at: nat)
    requires Misses(body, sub, at)
    ensures From(Tag(body) + rest, sub) == From(rest, sub)
  {
    assert Tag(body)[1..] == body;
    SkipTag(Tag(body), rest, sub, at);
  }

  lemma PreambleMisses()
    ensures Misses(XML, ARGS_KEY, 1) && Misses(PLIST, ARGS_KEY, 1) && Misses(DICT, ARGS_KEY, 1)
  {
  }

  lemma PreambleIsPlain()
    ensures '<' !in Preamble()
  {
    assert '<' !in DOCTYPE && '<' !in PUBLIC_ID && '<' !in SYSTEM_HOST && '<' !in SYSTEM_PATH;
  }

  lemma DoctypeMisses()
    ensures Misses(Preamble(), ARGS_KEY, 1)
  {
    PreambleIsPlain();
    assert Preamble()[0] == DOCTYPE[0];
  }

  lemma LabelMisses()
    ensures Misses(LABEL_KEY, ARGS_KEY, 5) && Misses(END_KEY, ARGS_KEY, 1)
    ensures Misses(LABEL, ARGS_KEY, 1) && Misses(END_LABEL, ARGS_KEY, 1)
  {
  }

  lemma SkipFour(b1: string, b2: string, b3: string, b4: string, rest: string, sub: string, at: nat)
    requires Misses(b1, sub, at) && Misses(b2, sub, 1) && Misses(b3, sub, 1) && Misses(b4, sub, 1)
    ensures From(Tag(b1) + (Tag(b2) + (Tag(b3) + (Tag(b4) + rest))), sub) == From(rest, sub)
  {
    SkipMiss(b1, Tag(b2) + (Tag(b3) + (Tag(b4) + rest)), sub, at);
    SkipMiss(b2, Tag(b3) + (Tag(b4) + rest), sub, 1);
    SkipMiss(b3, Tag(b4) + rest, sub, 1);
    SkipMiss(b4, rest, sub, 1);
  }

  lemma Reassociate(t: seq<string>, rest: string)
    requires |t| == 10
    ensures t[0] + t[1] + t[2] + t[3] + t[4] + t[5] + t[6] + t[7] + t[8] + t[9] + rest ==
            t[0] + (t[1] + (t[2] + (t[3] + (t[4] + (t[5] + (t[6] + (t[7] + (t[8] + (t[9] + rest)))))))))
  {
  }

  /** Nothing before the arguments' key looks like it. */
  lemma KeyComesFirst(rest: string)
    ensures From(Head() + rest, ARGS_KEY) == Some(ARGS_KEY + (ARRAY + rest))
  {
    var here := ARGS_KEY + (ARRAY + rest);
    var labelled := Tag(LABEL_KEY) + (Tag(END_KEY) + (Tag(LABEL) + (Tag(END_LABEL) + here)));
    Reassociate([Tag(XML), Tag(Preamble()), Tag(PLIST), Tag(DICT),
                 Tag(LABEL_KEY), Tag(END_KEY), Tag(LABEL), Tag(END_LABEL), ARGS_KEY, ARRAY], rest);
    PreambleMisses();
    DoctypeMisses();
    SkipFour(XML, Preamble(), PLIST, DICT, labelled, ARGS_KEY, 1);
    LabelMisses();
    SkipFour(LABEL_KEY, END_KEY, LABEL, END_LABEL, here, ARGS_KEY, 5);
    FoundAtOnce(ARGS_KEY, ARRAY + rest);
  }

  // ---- from the document to the argv --------------------------------------------------------

  lemma ArgsKeyIs()
    ensures ARGS_KEY == Tag("key>ProgramArguments") + Tag("/key>") && ARRAY == "\n\t" + Tag("array>\n")
  {
  }

  /** The part that is searched: from the key to the end of its array. */
  function Searched(args: seq<string>): string { ARGS_KEY + (ARRAY + (Elements(args) + "\t")) }

  lemma UpToFoot()
    ensures UpTo(Foot(), END_ARRAY) == "\t"
  {
    var rest := "\n\t" + RUN_KEY + "\t" + ALIVE_KEY + "\t" + TYPE_KEY + TYPE + Outputs() + END_DICT;
    Regroup("\t", END_ARRAY, rest);
    SkipPlain("\t", END_ARRAY + rest, END_ARRAY);
    FoundAtOnce(END_ARRAY, rest);
  }

  lemma UpToArray(rest: string)
    ensures UpTo(ARGS_KEY + (ARRAY + rest), END_ARRAY) == ARGS_KEY + (ARRAY + UpTo(rest, END_ARRAY))
  {
    ArgsKeyIs();
    var t1, t2, t3 := Tag("key>ProgramArguments"), Tag("/key>"), Tag("array>\n");
    FourParts(t1, t2, "\n\t", t3, rest);
    SkipTag(t1, t2 + ("\n\t" + (t3 + rest)), END_ARRAY, 1);
    SkipTag(t2, "\n\t" + (t3 + rest), END_ARRAY, 2);
    SkipPlain("\n\t", t3 + rest, END_ARRAY);
    SkipTag(t3, rest, END_ARRAY, 1);
    FourParts(t1, t2, "\n\t", t3, UpTo(rest, END_ARRAY));
  }

  lemma FourParts(a: string, b: string, c: string, d: string, rest: string)
    ensures (a + b) + ((c + d) + rest) == a + (b + (c + (d + rest)))
  {
  }

  lemma FindArray(rest: string)
    ensures FindStrings(ARGS_KEY + (ARRAY + rest)) == FindStrings(rest)
  {
    ArgsKeyIs();
    var t1, t2, t3 := Tag("key>ProgramArguments"), Tag("/key>"), Tag("array>\n");
    FourParts(t1, t2, "\n\t", t3, rest);
    FindTag(t1, t2 + ("\n\t" + (t3 + rest)), 1);
    FindTag(t2, "\n\t" + (t3 + rest), 1);
    FindPlain("\n\t", t3 + rest);
    FindTag(t3, rest, 1);
  }

  lemma PartIsSearched(args: seq<string>)
    requires Plain(args)
    ensures ArgumentsPart(Document(args)) == Searched(args)
  {
    var rest := Elements(args) + Foot();
    Regroup(Head(), Elements(args), Foot());
    KeyComesFirst(rest);
    UpToArray(rest);
    UpToElements(args, Foot());
    UpToFoot();
  }

  /** Reading the rendered document finds the argv, whole and in order. */
  lemma FindsArgs(args: seq<string>)
    requires Plain(args)
    ensures FindStrings(ArgumentsPart(Document(args))) == args
  {
    PartIsSearched(args);
    FindArray(Elements(args) + "\t");
    FindElements(args, "\t");
    NothingAfter(args);
  }

  lemma NothingAfter(args: seq<string>)
    ensures args + FindStrings("\t") == args
  {
  }
}
