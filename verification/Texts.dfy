/** The pieces of Go's strings and strconv packages the parsers here lean on. */
module Texts {
  import opened Options

  /** unicode.IsSpace. */
  predicate IsSpace(c: char) {
    || c == ' ' || ('\t' <= c <= '\r') || c == '\U{0085}' || c == '\U{00A0}' || c == '\U{1680}'
    || ('\U{2000}' <= c <= '\U{200A}') || c == '\U{2028}' || c == '\U{2029}' || c == '\U{202F}'
    || c == '\U{205F}' || c == '\U{3000}'
  }

  /** Unicode's white space, by code point. */
  lemma SpacesAre(c: char)
    ensures IsSpace(c) <==>
            var n := c as int;
            9 <= n <= 13 || 8192 <= n <= 8202 || n in {32, 133, 160, 5760, 8232, 8233, 8239, 8287, 12288}
  {
  }

  function TrimLeft(s: string): (r: string)
    ensures |r| <= |s|
    ensures r != "" ==> !IsSpace(r[0])
  {
    if s != "" && IsSpace(s[0]) then TrimLeft(s[1..]) else s
  }

  function TrimRight(s: string): (r: string)
    ensures |r| <= |s| && r <= s
    ensures r != "" ==> !IsSpace(r[|r| - 1])
  {
    if s != "" && IsSpace(s[|s| - 1]) then TrimRight(s[..|s| - 1]) else s
  }

  function TrimSpace(s: string): string { TrimRight(TrimLeft(s)) }

  /** No white space at either end. */
  predicate IsTrimmed(s: string) { s == "" || (!IsSpace(s[0]) && !IsSpace(s[|s| - 1])) }

  lemma TrimmedStays(s: string)
    ensures IsTrimmed(s) <==> TrimSpace(s) == s
  {
  }

  lemma TrimIsTrimmed(s: string)
    ensures IsTrimmed(TrimSpace(s)) && TrimSpace(TrimSpace(s)) == TrimSpace(s)
  {
  }

  /** strings.Split on one character: always at least one part. */
  function Split(s: string, sep: char): (parts: seq<string>)
    ensures |parts| >= 1
  {
    if s == "" then [""]
    else
      var rest := Split(s[1..], sep);
      if s[0] == sep then [""] + rest else [[s[0]] + rest[0]] + rest[1..]
  }

  /** strings.Join with a one-character separator. */
  function Join(parts: seq<string>, sep: char): string {
    if parts == [] then ""
    else if |parts| == 1 then parts[0]
    else parts[0] + [sep] + Join(parts[1..], sep)
  }

  predicate NoneHas(parts: seq<string>, c: char) { forall i :: 0 <= i < |parts| ==> c !in parts[i] }

  lemma {:induction false} SplitFront(part: string, sep: char, rest: string)
    requires sep !in part
    ensures Split(part, sep) == [part]
    ensures Split(part + [sep] + rest, sep) == [part] + Split(rest, sep)
  {
    var whole := part + [sep] + rest;
    if part == "" {
      assert whole[1..] == rest;
    } else {
      SplitFront(part[1..], sep, rest);
      assert whole[1..] == part[1..] + [sep] + rest;
      assert [part[0]] + part[1..] == part;
    }
  }

  /** Splitting what was joined gives the parts back, provided none holds the separator. */
  lemma {:induction false} SplitJoin(parts: seq<string>, sep: char)
    requires parts != [] && NoneHas(parts, sep)
    ensures Split(Join(parts, sep), sep) == parts
  {
    if |parts| == 1 {
      SplitFront(parts[0], sep, "");
    } else {
      SplitJoin(parts[1..], sep);
      SplitFront(parts[0], sep, Join(parts[1..], sep));
    }
  }

  /** strings.IndexByte: the first place `c` stands, or the length. */
  function IndexOf(s: string, c: char): (i: nat)
    ensures i <= |s| && c !in s[..i]
    ensures i < |s| ==> s[i] == c
  {
    if s == "" || s[0] == c then 0
    else
      assert s[..1 + IndexOf(s[1..], c)] == [s[0]] + s[1..][..IndexOf(s[1..], c)];
      1 + IndexOf(s[1..], c)
  }

  lemma IndexIs(s: string, c: char, i: nat)
    requires i <= |s| && c !in s[..i] && (i < |s| ==> s[i] == c)
    ensures IndexOf(s, c) == i
  {
  }

  // ---- numbers -------------------------------------------------------------------

  function Lower(c: char): char {
    if 'A' <= c <= 'Z' then (c as int - 'A' as int + 'a' as int) as char else c
  }

  function LowerAll(s: string): (r: string)
    ensures |r| == |s|
  {
    if s == "" then "" else [Lower(s[0])] + LowerAll(s[1..])
  }

  function DigitValue(c: char): nat {
    if '0' <= c <= '9' then c as int - '0' as int
    else if 'a' <= c <= 'f' then c as int - 'a' as int + 10
    else if 'A' <= c <= 'F' then c as int - 'A' as int + 10
    else 16
  }

  predicate AreDigits(s: string, base: nat) { forall i :: 0 <= i < |s| ==> DigitValue(s[i]) < base }

  function DigitsValue(s: string, base: nat): nat {
    if s == "" then 0 else DigitsValue(s[..|s| - 1], base) * base + DigitValue(s[|s| - 1])
  }

  const MAX_INT64 := 0x7fff_ffff_ffff_ffff

  /** strconv.ParseInt(s, base, 64) for base 10 or 16, None for any error. */
  function ParseInt(s: string, base: nat): Option<int> {
    var negative := s != "" && s[0] == '-';
    var digits := if s != "" && (s[0] == '-' || s[0] == '+') then s[1..] else s;
    if digits == "" || !AreDigits(digits, base) then None
    else
      var n: int := DigitsValue(digits, base);
      if negative then (if n > MAX_INT64 + 1 then None else Some(-n))
      else if n > MAX_INT64 then None
      else Some(n)
  }

  /** strconv.ParseUint(s, 10, 16), None for any error. */
  function ParseUint16(s: string): Option<nat> {
    if s == "" || !AreDigits(s, 10) || DigitsValue(s, 10) > 0xffff then None else Some(DigitsValue(s, 10))
  }

  function Digit(v: nat): char
    requires v < 10
  {
    ('0' as int + v) as char
  }

  /** strconv.Itoa. */
  function Itoa(n: nat): string {
    if n < 10 then [Digit(n)] else Itoa(n / 10) + [Digit(n % 10)]
  }

  lemma {:induction false} ItoaParses(n: nat)
    ensures Itoa(n) != "" && AreDigits(Itoa(n), 10) && DigitsValue(Itoa(n), 10) == n
  {
    if n < 10 {
      assert Itoa(n)[..0] == "";
    } else {
      ItoaParses(n / 10);
      assert Itoa(n)[..|Itoa(n)| - 1] == Itoa(n / 10);
    }
  }

  lemma DigitsArePlain(s: string, c: char)
    requires s != "" && AreDigits(s, 16) && DigitValue(c) == 16
    ensures c !in s
    ensures !IsSpace(s[0]) && !IsSpace(s[|s| - 1])
  {
  }

  // ---- searching --------------------------------------------------------------------

  predicate HasPrefix(s: string, prefix: string) { |prefix| <= |s| && s[..|prefix|] == prefix }

  /** What starts at the first place `sub` stands in `s`; None when it is nowhere. */
  function From(s: string, sub: string): Option<string> {
    if HasPrefix(s, sub) then Some(s) else if s == "" then None else From(s[1..], sub)
  }

  /** What stands before the first `sub`; all of `s` when it is nowhere. */
  function UpTo(s: string, sub: string): string {
    if HasPrefix(s, sub) || s == "" then "" else [s[0]] + UpTo(s[1..], sub)
  }

  /** A place where `text` cannot match `sub`. */
  predicate Differs(text: string, sub: string, at: nat) { at < |text| && at < |sub| && text[at] != sub[at] }

  lemma DiffersHasNoPrefix(text: string, sub: string, at: nat)
    requires Differs(text, sub, at)
    ensures !HasPrefix(text, sub)
  {
  }

  lemma SkipOne(whole: string, c: char, tail: string, sub: string)
    requires whole == [c] + tail && !HasPrefix(whole, sub)
    ensures From(whole, sub) == From(tail, sub) && UpTo(whole, sub) == [c] + UpTo(tail, sub)
  {
  }

  /** Text without `sub`'s first character cannot hold its start. */
  lemma {:induction false} SkipPlain(plain: string, rest: string, sub: string)
    requires sub != "" && sub[0] !in plain
    ensures From(plain + rest, sub) == From(rest, sub)
    ensures UpTo(plain + rest, sub) == plain + UpTo(rest, sub)
  {
    if plain == "" {
      assert plain + rest == rest;
    } else {
      var c, tail := plain[0], plain[1..];
      SkipPlain(tail, rest, sub);
      assert plain + rest == [c] + (tail + rest);
      SkipOne(plain + rest, c, tail + rest, sub);
      assert [c] + (tail + UpTo(rest, sub)) == plain + UpTo(rest, sub);
    }
  }

  /** Nor can a tag that differs from it somewhere. */
  lemma SkipTag(tag: string, rest: string, sub: string, at: nat)
    requires tag != "" && sub != "" && tag[0] == sub[0] && sub[0] !in tag[1..] && Differs(tag, sub, at)
    ensures From(tag + rest, sub) == From(rest, sub)
    ensures UpTo(tag + rest, sub) == tag + UpTo(rest, sub)
  {
    DiffersHasNoPrefix(tag + rest, sub, at);
    var c, tail := tag[0], tag[1..];
    assert tag + rest == [c] + (tail + rest);
    SkipOne(tag + rest, c, tail + rest, sub);
    SkipPlain(tail, rest, sub);
    assert [c] + (tail + UpTo(rest, sub)) == tag + UpTo(rest, sub);
  }

  lemma FoundAtOnce(sub: string, rest: string)
    ensures From(sub + rest, sub) == Some(sub + rest)
    ensures UpTo(sub + rest, sub) == ""
  {
  }

  // ---- where characters go ---------------------------------------------------------------

  /** Trimming takes nothing but white space. */
  lemma {:induction false} TrimKeeps(s: string, c: char)
    requires c in s && !IsSpace(c)
    ensures c in TrimSpace(s)
  {
    TrimLeftKeeps(s, c);
    TrimRightKeeps(TrimLeft(s), c);
  }

  lemma {:induction false} TrimLeftKeeps(s: string, c: char)
    requires c in s && !IsSpace(c)
    ensures c in TrimLeft(s)
  {
    if IsSpace(s[0]) {
      assert s == [s[0]] + s[1..];
      TrimLeftKeeps(s[1..], c);
    }
  }

  lemma {:induction false} TrimRightKeeps(s: string, c: char)
    requires c in s && !IsSpace(c)
    ensures c in TrimRight(s)
  {
    var n := |s| - 1;
    if IsSpace(s[n]) {
      assert s == s[..n] + [s[n]];
      TrimRightKeeps(s[..n], c);
    }
  }

  /** A character that is not the separator ends up in some part. */
  lemma {:induction false} SplitKeeps(s: string, sep: char, c: char) returns (i: nat)
    requires c in s && c != sep
    ensures i < |Split(s, sep)| && c in Split(s, sep)[i]
  {
    if s[0] == c {
      i := 0;
    } else {
      assert s == [s[0]] + s[1..];
      var j := SplitKeeps(s[1..], sep, c);
      i := if s[0] == sep then j + 1 else j;
    }
  }
}
