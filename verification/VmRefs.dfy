/** The -vm value (internal/vmprovider): which provider, which instance. */
module VmRefs {
  import opened Options
  import opened Texts

  const LIMA := "lima"
  const COLIMA := "colima"
  const PODMAN := "podman"
  const MAX_NAME_LEN := 64

  datatype Ref = Ref(provider: string, instance: string)

  predicate IsAlnum(c: char) { '0' <= c <= '9' || 'A' <= c <= 'Z' || 'a' <= c <= 'z' }

  predicate IsInstanceName(s: string) {
    && 0 < |s| <= MAX_NAME_LEN && IsAlnum(s[0])
    && forall i :: 0 <= i < |s| ==> IsAlnum(s[i]) || s[i] in {'.', '_', '-'}
  }

  /** A colima profile and the Lima instance made from it are one VM. */
  function ColimaInstance(profile: string): string {
    if profile == "" || profile == "default" then "colima"
    else if profile == "colima" || HasPrefix(profile, "colima-") then profile
    else "colima-" + profile
  }

  function ParseRef(spec: string): Option<Ref> { RefOf(TrimSpace(spec)) }

  /** What a reference without white space around it names. */
  function RefOf(s: string): Option<Ref> {
    var i := IndexOf(s, ':');
    var provider := if i < |s| then TrimSpace(s[..i]) else LIMA;
    var name := if i < |s| then TrimSpace(s[i + 1..]) else s;
    if provider !in {LIMA, COLIMA, PODMAN} || !IsInstanceName(name) then None
    else Some(Ref(provider, if provider == COLIMA then ColimaInstance(name) else name))
  }

  /** An instance name: 1 to 64 letters, digits, dots, underscores and dashes, a letter or digit first. */
  lemma InstanceNames(s: string)
    ensures IsInstanceName(s) <==> 1 <= |s| <= 64 && IsAlnum(s[0]) && forall c :: c in s ==> IsAlnum(c) || c in {'.', '_', '-'}
    ensures forall c :: IsAlnum(c) <==> '0' <= c <= '9' || 'A' <= c <= 'Z' || 'a' <= c <= 'z'
  {
  }

  lemma NameIsWhole(name: string)
    requires IsInstanceName(name)
    ensures TrimSpace(name) == name && ':' !in name
  {
    InstanceNames(name);
    TrimmedStays(name);
  }

  /** A bare name is a Lima instance. */
  lemma BareRefIs(name: string)
    requires IsInstanceName(name)
    ensures ParseRef(name) == Some(Ref("lima", name))
  {
    NameIsWhole(name);
    IndexIs(name, ':', |name|);
    assert "lima" != COLIMA by { assert |COLIMA| == 6; }
  }

  lemma ProviderIsWhole(provider: string)
    requires provider in {"lima", "colima", "podman"}
    ensures IsTrimmed(provider) && provider != "" && ':' !in provider && provider in {LIMA, COLIMA, PODMAN}
  {
  }

  /** A colon names the provider: lima, colima or podman. */
  lemma RefIs(provider: string, name: string)
    requires provider in {"lima", "colima", "podman"} && IsInstanceName(name)
    ensures ParseRef(provider + [':'] + name) ==
            Some(Ref(provider, if provider == "colima" then ColimaInstance(name) else name))
  {
    var s := provider + [':'] + name;
    ProviderIsWhole(provider);
    NameIsWhole(name);
    TrimmedStays(provider);
    TrimmedStays(name);
    TrimmedStays(s);
    IndexIs(s, ':', |provider|);
    assert s[..|provider|] == provider && s[|provider| + 1..] == name;
  }

  /** Any other provider, or what is no name, is refused. */
  lemma RefIsNot(spec: string, i: nat)
    requires var s := TrimSpace(spec); i < |s| && s[i] == ':' && ':' !in s[..i]
    ensures var s := TrimSpace(spec);
            TrimSpace(s[..i]) !in {"lima", "colima", "podman"} || !IsInstanceName(TrimSpace(s[i + 1..])) ==> ParseRef(spec) == None
  {
    IndexIs(TrimSpace(spec), ':', i);
  }

  /** colima's default profile is the instance colima; any other is colima- and its name, said once. */
  lemma ColimaNames(profile: string)
    ensures ColimaInstance("") == "colima" && ColimaInstance("default") == "colima" && ColimaInstance("colima") == "colima"
    ensures ColimaInstance("colima-" + profile) == "colima-" + profile
    ensures profile !in {"", "default", "colima"} && !HasPrefix(profile, "colima-") ==> ColimaInstance(profile) == "colima-" + profile
  {
    assert |"default"| == 7 && |"colima"| == 6;
    assert ("colima-" + profile)[..7] == "colima-";
    assert "colima-" + profile != "default" by { assert ("colima-" + profile)[0] == 'c'; }
  }

  lemma ProvidersArePlain(provider: string)
    requires provider in {LIMA, COLIMA, PODMAN}
    ensures '<' !in provider
  {
  }

  lemma NamesArePlain(name: string)
    requires IsInstanceName(name)
    ensures '<' !in name
  {
  }

  lemma TrimIsPlain(s: string)
    requires '<' !in TrimSpace(s)
    ensures '<' !in s
  {
    if '<' in s {
      TrimKeeps(s, '<');
    }
  }

  /** What is accepted holds nothing a plist would have to escape, and more than white space. */
  lemma RefIsPlain(spec: string)
    requires ParseRef(spec).Some?
    ensures '<' !in spec && TrimSpace(spec) != ""
  {
    var s := TrimSpace(spec);
    var i := IndexOf(s, ':');
    if i < |s| {
      ProvidersArePlain(TrimSpace(s[..i]));
      TrimIsPlain(s[..i]);
      NamesArePlain(TrimSpace(s[i + 1..]));
      TrimIsPlain(s[i + 1..]);
      PartsArePlain(s, i);
    } else {
      NamesArePlain(s);
    }
    TrimIsPlain(spec);
  }

  lemma PartsArePlain(s: string, i: nat)
    requires i < |s| && '<' !in s[..i] && s[i] != '<' && '<' !in s[i + 1..]
    ensures '<' !in s
  {
  }

  lemma ParseRefTrims(spec: string)
    ensures ParseRef(TrimSpace(spec)) == ParseRef(spec)
  {
    TrimIsTrimmed(spec);
  }
}
