/**
 * The bundle rewrite of the OCI runtime wrapper (internal/ociruntime/mutate.go): bind
 * goes to a notify listener, and nothing else about the profile may change.
 */
module SeccompProfile {
  import opened Options
  import opened JsonTrees

  const OPT_OUT_ANNOTATION := "dev.drawbridge.arbitrate"
  const ACT_ALLOW := "SCMP_ACT_ALLOW"
  const ACT_LOG := "SCMP_ACT_LOG"
  const ACT_NOTIFY := "SCMP_ACT_NOTIFY"

  datatype Reason =
    | OptOut
    | PrivateNetns
    | HasListener
    | UsesNotify
    | DefaultNotify
    | HandlesBind(action: string)
    | ConstrainsBind
    | NoBindRule(defaultAction: string)

  /** Crash is the write into a nil map that a document of `null` runs into. */
  datatype Outcome = ParseError | Crash | Untouched(reason: Reason) | Injected(spec: Object)

  // ---- what a profile says -------------------------------------------------------

  function Rules(sec: Object): seq<Json> { ArrAt(sec, "syscalls") }

  predicate Names(rule: Json, name: string) {
    rule.Obj? && Str(name) in ArrAt(rule.fields, "names")
  }

  function Action(rule: Json): string { if rule.Obj? then StrAt(rule.fields, "action") else "" }

  predicate Constrained(rule: Json) { rule.Obj? && ArrAt(rule.fields, "args") != [] }

  /** The rules that name a syscall, in order: everything they say but the names. */
  function RulesFor(rules: seq<Json>, name: string): seq<Object> {
    if rules == [] then []
    else
      var last := rules[|rules| - 1];
      RulesFor(rules[..|rules| - 1], name) + if Names(last, name) then [last.fields - {"names"}] else []
  }

  /** The profile in force: none when linux.seccomp is not an object. */
  function Seccomp(spec: Object): Option<Object> {
    match ObjAt(spec, "linux")
    case Some(linux) => ObjAt(linux, "seccomp")
    case None => None
  }

  // ---- the decision ----------------------------------------------------------------

  predicate OptsOut(spec: Object) {
    var annotations := ObjAt(spec, "annotations");
    annotations.Some? && StrAt(annotations.value, OPT_OUT_ANNOTATION) == "false"
  }

  predicate IsNetwork(ns: Json) { ns.Obj? && StrAt(ns.fields, "type") == "network" }

  predicate HasPrivateNetns(spec: Object) {
    var linux := ObjAt(spec, "linux");
    linux.Some? && exists ns :: ns in ArrAt(linux.value, "namespaces") && IsNetwork(ns)
  }

  predicate NotifiesAnywhere(rules: seq<Json>) { exists r :: r in rules && Action(r) == ACT_NOTIFY }

  /** Why the first bind rule that is not an unconditional allow stops the rewrite. */
  function FirstObjection(rules: seq<Json>): Option<Reason> {
    if rules == [] then None
    else if FirstObjection(rules[..|rules| - 1]).Some? then FirstObjection(rules[..|rules| - 1])
    else
      var rule := rules[|rules| - 1];
      if !Names(rule, "bind") then None
      else if Action(rule) != ACT_ALLOW then Some(HandlesBind(Action(rule)))
      else if Constrained(rule) then Some(ConstrainsBind)
      else None
  }

  function Refusal(sec: Object): Option<Reason> {
    if StrAt(sec, "listenerPath") != "" then Some(HasListener)
    else if NotifiesAnywhere(Rules(sec)) then Some(UsesNotify)
    else if StrAt(sec, "defaultAction") == ACT_NOTIFY then Some(DefaultNotify)
    else if FirstObjection(Rules(sec)).Some? then FirstObjection(Rules(sec))
    else if RulesFor(Rules(sec), "bind") == [] && StrAt(sec, "defaultAction") !in {ACT_ALLOW, ACT_LOG}
    then Some(NoBindRule(StrAt(sec, "defaultAction")))
    else None
  }

  function Decision(spec: Object): Option<Reason> {
    if OptsOut(spec) then Some(OptOut)
    else if HasPrivateNetns(spec) then Some(PrivateNetns)
    else
      match Seccomp(spec)
      case Some(sec) => Refusal(sec)
      case None => None
  }

  // ---- the rewrite -------------------------------------------------------------------

  const NOTIFY_RULE: Json := Obj(map["names" := Arr([Str("bind")]), "action" := Str(ACT_NOTIFY)])

  function WithoutBind(names: seq<Json>): seq<Json> {
    if names == [] then []
    else
      var last := names[|names| - 1];
      WithoutBind(names[..|names| - 1]) + if last == Str("bind") then [] else [last]
  }

  /** A rule with bind taken out of its names; None when that leaves no names. */
  function Stripped(rule: Json): Option<Json> {
    if !Names(rule, "bind") then Some(rule)
    else
      var rest := WithoutBind(ArrAt(rule.fields, "names"));
      if rest == [] then None else Some(Obj(rule.fields["names" := Arr(rest)]))
  }

  function StrippedAll(rules: seq<Json>): seq<Json> {
    if rules == [] then []
    else
      match Stripped(rules[|rules| - 1])
      case Some(r) => StrippedAll(rules[..|rules| - 1]) + [r]
      case None => StrippedAll(rules[..|rules| - 1])
  }

  function Rewired(sec: Option<Object>, path: string, metadata: string): Object {
    var base: Object :=
      match sec
      case Some(s) => s["syscalls" := Arr(StrippedAll(Rules(s)) + [NOTIFY_RULE])]
      case None => map["defaultAction" := Str(ACT_ALLOW), "syscalls" := Arr([NOTIFY_RULE])];
    base["listenerPath" := Str(path)]["listenerMetadata" := Str(metadata)]
  }

  function Rewritten(spec: Object, path: string, metadata: string): Object {
    var linux := if ObjAt(spec, "linux").Some? then ObjAt(spec, "linux").value else map[];
    spec["linux" := Obj(linux["seccomp" := Obj(Rewired(Seccomp(spec), path, metadata))])]
  }

  /** MutateConfig on a decoded document; None is undecodable. */
  function Mutated(doc: Option<Json>, path: string, metadata: string): Outcome {
    if doc.None? then ParseError
    else if doc.value.Null? then Crash
    else if !doc.value.Obj? then ParseError
    else
      match Decision(doc.value.fields)
      case Some(reason) => Untouched(reason)
      case None => Injected(Rewritten(doc.value.fields, path, metadata))
  }

  // ---- the code ------------------------------------------------------------------------

  method NamesContain(rule: Object, name: string) returns (found: bool)
    ensures found == Names(Obj(rule), name)
  {
    var names := ArrAt(rule, "names");
    for i := 0 to |names|
      invariant Str(name) !in names[..i]
    {
      if names[i] == Str(name) {
        return true;
      }
    }
    return false;
  }

  method HasNetworkNamespace(spec: Object) returns (found: bool)
    ensures found == HasPrivateNetns(spec)
  {
    var linux := ObjAt(spec, "linux");
    if linux.None? {
      return false;
    }
    var namespaces := ArrAt(linux.value, "namespaces");
    for i := 0 to |namespaces|
      invariant forall ns :: ns in namespaces[..i] ==> !IsNetwork(ns)
    {
      if IsNetwork(namespaces[i]) {
        return true;
      }
    }
    return false;
  }

  /** The profile to rewrite (None when unconfined), or why not to. */
  method SeccompOf(spec: Object) returns (sec: Option<Object>, refuse: Option<Reason>)
    ensures refuse == match Seccomp(spec) case Some(s) => Refusal(s) case None => None
    ensures refuse.None? ==> sec == Seccomp(spec)
  {
    sec, refuse := Seccomp(spec), None;
    if sec.None? {
      return;
    }
    var s := sec.value;
    if StrAt(s, "listenerPath") != "" {
      return None, Some(HasListener);
    }
    var rules := Rules(s);
    for i := 0 to |rules|
      invariant !NotifiesAnywhere(rules[..i])
    {
      if rules[i].Obj? && Action(rules[i]) == ACT_NOTIFY {
        return None, Some(UsesNotify);
      }
    }
    assert rules[..|rules|] == rules;
    var da := StrAt(s, "defaultAction");
    if da == ACT_NOTIFY {
      return None, Some(DefaultNotify);
    }
    var bindRules := 0;
    for i := 0 to |rules|
      invariant FirstObjection(rules[..i]).None?
      invariant bindRules == |RulesFor(rules[..i], "bind")|
    {
      assert rules[..i + 1][..i] == rules[..i];
      var named := false;
      if rules[i].Obj? {
        named := NamesContain(rules[i].fields, "bind");
      }
      if named {
        bindRules := bindRules + 1;
        var objection :=
          if Action(rules[i]) != ACT_ALLOW then Some(HandlesBind(Action(rules[i])))
          else if Constrained(rules[i]) then Some(ConstrainsBind)
          else None;
        if objection.Some? {
          ObjectionStands(rules, i + 1);
          return None, objection;
        }
      }
    }
    if bindRules == 0 && da != ACT_ALLOW && da != ACT_LOG {
      return None, Some(NoBindRule(da));
    }
  }

  lemma {:induction false} ObjectionStands(rules: seq<Json>, i: nat)
    requires i <= |rules| && FirstObjection(rules[..i]).Some?
    ensures FirstObjection(rules) == FirstObjection(rules[..i])
  {
    if i < |rules| {
      assert rules[..|rules| - 1][..i] == rules[..i];
      ObjectionStands(rules[..|rules| - 1], i);
    } else {
      assert rules[..i] == rules;
    }
  }

  method StripBind(sec: Object) returns (sec': Object)
    ensures sec' == sec["syscalls" := Arr(StrippedAll(Rules(sec)))]
  {
    var rules, kept: seq<Json> := Rules(sec), [];
    for i := 0 to |rules|
      invariant kept == StrippedAll(rules[..i])
    {
      assert rules[..i + 1][..i] == rules[..i];
      var named := false;
      if rules[i].Obj? {
        named := NamesContain(rules[i].fields, "bind");
      }
      if !named {
        kept := kept + [rules[i]];
      } else {
        var names, rest: seq<Json> := ArrAt(rules[i].fields, "names"), [];
        for j := 0 to |names|
          invariant rest == WithoutBind(names[..j])
        {
          assert names[..j + 1][..j] == names[..j];
          if names[j] != Str("bind") {
            rest := rest + [names[j]];
          }
        }
        assert names[..|names|] == names;
        if |rest| > 0 {
          kept := kept + [Obj(rules[i].fields["names" := Arr(rest)])];
        }
      }
    }
    assert rules[..|rules|] == rules;
    sec' := sec["syscalls" := Arr(kept)];
  }

  method MutateConfig(doc: Option<Json>, path: string, metadata: string) returns (r: Outcome)
    ensures r == Mutated(doc, path, metadata)
  {
    if doc.None? || (!doc.value.Obj? && !doc.value.Null?) {
      return ParseError;
    }
    if doc.value.Null? {
      return Crash;
    }
    var spec := doc.value.fields;
    if OptsOut(spec) {
      return Untouched(OptOut);
    }
    var private := HasNetworkNamespace(spec);
    if private {
      return Untouched(PrivateNetns);
    }
    var sec, refuse := SeccompOf(spec);
    if refuse.Some? {
      return Untouched(refuse.value);
    }
    var linux: Object := map[];
    if ObjAt(spec, "linux").Some? {
      linux := ObjAt(spec, "linux").value;
    }
    if sec.None? {
      linux := linux["seccomp" := Obj(map[
        "defaultAction" := Str(ACT_ALLOW),
        "syscalls" := Arr([NOTIFY_RULE]),
        "listenerPath" := Str(path),
        "listenerMetadata" := Str(metadata)])];
      assert linux["seccomp"].fields == Rewired(None, path, metadata);
    } else {
      var s := StripBind(sec.value);
      s := s["syscalls" := Arr(Rules(s) + [NOTIFY_RULE])];
      s := s["listenerPath" := Str(path)];
      s := s["listenerMetadata" := Str(metadata)];
      linux := linux["seccomp" := Obj(s)];
      assert s == Rewired(sec, path, metadata);
    }
    return Injected(spec["linux" := Obj(linux)]);
  }

  // ---- what the rewrite keeps ------------------------------------------------------------

  lemma {:induction false} WithoutBindKeeps(names: seq<Json>)
    ensures Str("bind") !in WithoutBind(names)
    ensures forall n :: n in WithoutBind(names) <==> n in names && n != Str("bind")
  {
    if names != [] {
      WithoutBindKeeps(names[..|names| - 1]);
      assert names == names[..|names| - 1] + [names[|names| - 1]];
    }
  }

  /** Stripping a rule changes neither whether it names another syscall nor what it says of it. */
  lemma StrippedKeeps(rule: Json, name: string)
    requires name != "bind"
    ensures Stripped(rule).None? ==> !Names(rule, name)
    ensures Stripped(rule).Some? ==>
      var r := Stripped(rule).value;
      !Names(r, "bind") && Names(r, name) == Names(rule, name) && (Names(r, name) ==> r.fields - {"names"} == rule.fields - {"names"})
  {
    if Names(rule, "bind") {
      WithoutBindKeeps(ArrAt(rule.fields, "names"));
    }
  }

  lemma {:induction false} StrippedAllKeeps(rules: seq<Json>, name: string)
    requires name != "bind"
    ensures RulesFor(StrippedAll(rules), name) == RulesFor(rules, name)
    ensures RulesFor(StrippedAll(rules), "bind") == []
  {
    if rules != [] {
      var init, last := rules[..|rules| - 1], rules[|rules| - 1];
      StrippedAllKeeps(init, name);
      StrippedKeeps(last, name);
      if Stripped(last).Some? {
        RulesForSnoc(StrippedAll(init), Stripped(last).value, name);
        RulesForSnoc(StrippedAll(init), Stripped(last).value, "bind");
      }
    }
  }

  lemma RulesForSnoc(rules: seq<Json>, rule: Json, name: string)
    ensures RulesFor(rules + [rule], name) == RulesFor(rules, name) + if Names(rule, name) then [rule.fields - {"names"}] else []
  {
  }

  /** The injected spec has the rewired profile in force. */
  lemma InjectedProfile(spec: Object, path: string, metadata: string)
    ensures Seccomp(Rewritten(spec, path, metadata)) == Some(Rewired(Seccomp(spec), path, metadata))
  {
  }

  /** Unconfined counts as a profile that allows everything by default and has no rules. */
  function DefaultOf(sec: Option<Object>): Option<Json> {
    match sec
    case Some(s) => if "defaultAction" in s then Some(s["defaultAction"]) else None
    case None => Some(Str(ACT_ALLOW))
  }

  function RulesOf(sec: Option<Object>): seq<Json> {
    match sec
    case Some(s) => Rules(s)
    case None => []
  }

  lemma RewiredIs(sec: Option<Object>, path: string, metadata: string)
    ensures var after := Rewired(sec, path, metadata);
            Rules(after) == StrippedAll(RulesOf(sec)) + [NOTIFY_RULE] && DefaultOf(Some(after)) == DefaultOf(sec)
  {
  }

  lemma RulesKept(rules: seq<Json>, name: string)
    requires name != "bind"
    ensures RulesFor(StrippedAll(rules) + [NOTIFY_RULE], name) == RulesFor(rules, name)
    ensures RulesFor(StrippedAll(rules) + [NOTIFY_RULE], "bind") == [map["action" := Str(ACT_NOTIFY)]]
  {
    StrippedAllKeeps(rules, name);
    RulesForSnoc(StrippedAll(rules), NOTIFY_RULE, name);
    RulesForSnoc(StrippedAll(rules), NOTIFY_RULE, "bind");
    assert NOTIFY_RULE.fields - {"names"} == map["action" := Str(ACT_NOTIFY)];
  }

  /**
   * For every syscall but bind, the ordered rules naming it and the default action are what
   * they were; bind is named by exactly one rule, which says notify and nothing more.
   */
  lemma OnlyBindChanges(doc: Json, path: string, metadata: string, name: string)
    requires Mutated(Some(doc), path, metadata).Injected? && name != "bind"
    ensures doc.Obj?
    ensures var before, after := Seccomp(doc.fields), Seccomp(Mutated(Some(doc), path, metadata).spec);
            && RulesFor(RulesOf(after), name) == RulesFor(RulesOf(before), name)
            && RulesFor(RulesOf(after), "bind") == [map["action" := Str(ACT_NOTIFY)]]
            && DefaultOf(after) == DefaultOf(before)
  {
    InjectedProfile(doc.fields, path, metadata);
    RewiredIs(Seccomp(doc.fields), path, metadata);
    RulesKept(RulesOf(Seccomp(doc.fields)), name);
  }

  /** Nothing outside linux.seccomp changes, nor anything in it but the rules and the listener. */
  lemma RestUnchanged(doc: Json, path: string, metadata: string)
    requires Mutated(Some(doc), path, metadata).Injected?
    ensures doc.Obj?
    ensures var spec, after := doc.fields, Mutated(Some(doc), path, metadata).spec;
            && after - {"linux"} == spec - {"linux"}
            && ObjAt(after, "linux").Some?
            && (ObjAt(spec, "linux").Some? ==>
                  ObjAt(after, "linux").value - {"seccomp"} == ObjAt(spec, "linux").value - {"seccomp"})
            && (ObjAt(spec, "linux").None? ==> ObjAt(after, "linux").value.Keys == {"seccomp"})
    ensures var edited := {"syscalls", "listenerPath", "listenerMetadata"};
            var sec, after := Seccomp(doc.fields), Seccomp(Mutated(Some(doc), path, metadata).spec);
            && after.Some?
            && (sec.Some? ==> after.value - edited == sec.value - edited)
            && (sec.None? ==> after.value.Keys == edited + {"defaultAction"})
            && after.value["listenerPath"] == Str(path) && after.value["listenerMetadata"] == Str(metadata)
  {
  }

  // ---- when it injects ----------------------------------------------------------------------

  /** An unconditional allow, or nothing said and a default that lets it through. */
  predicate AllowsBind(sec: Object) {
    && (forall r :: r in Rules(sec) && Names(r, "bind") ==> Action(r) == ACT_ALLOW && !Constrained(r))
    && ((exists r :: r in Rules(sec) && Names(r, "bind")) || StrAt(sec, "defaultAction") in {ACT_ALLOW, ACT_LOG})
  }

  /** A profile no seccomp agent is behind. */
  predicate Agentless(sec: Object) {
    && StrAt(sec, "listenerPath") == ""
    && StrAt(sec, "defaultAction") != ACT_NOTIFY
    && (forall r :: r in Rules(sec) ==> Action(r) != ACT_NOTIFY)
  }

  lemma {:induction false} ObjectionIff(rules: seq<Json>)
    ensures FirstObjection(rules).None? <==>
            forall r :: r in rules && Names(r, "bind") ==> Action(r) == ACT_ALLOW && !Constrained(r)
  {
    if rules != [] {
      ObjectionIff(rules[..|rules| - 1]);
      assert rules == rules[..|rules| - 1] + [rules[|rules| - 1]];
    }
  }

  lemma {:induction false} RulesForIff(rules: seq<Json>, name: string)
    ensures RulesFor(rules, name) != [] <==> exists r :: r in rules && Names(r, name)
  {
    if rules != [] {
      RulesForIff(rules[..|rules| - 1], name);
      assert rules == rules[..|rules| - 1] + [rules[|rules| - 1]];
    }
  }

  /**
   * Injection happens exactly when nobody opted out and bind was provably allowed already.
   * A document of `null` decodes to a nil map; with nothing to refuse it on, the rewrite
   * writes into it.
   */
  lemma InjectsIff(doc: Json, path: string, metadata: string)
    ensures Mutated(Some(doc), path, metadata).Injected? <==>
            && doc.Obj? && !OptsOut(doc.fields) && !HasPrivateNetns(doc.fields)
            && (Seccomp(doc.fields).Some? ==> Agentless(Seccomp(doc.fields).value) && AllowsBind(Seccomp(doc.fields).value))
    ensures Mutated(Some(doc), path, metadata).Crash? <==> doc == Null
  {
    if doc.Obj? && Seccomp(doc.fields).Some? {
      ObjectionIff(Rules(Seccomp(doc.fields).value));
      RulesForIff(Rules(Seccomp(doc.fields).value), "bind");
    }
  }

  /** Run on its own output, the rewrite always refuses. */
  lemma RefusesItsOwnOutput(doc: Json, path: string, metadata: string, path': string, metadata': string)
    requires Mutated(Some(doc), path, metadata).Injected?
    ensures Mutated(Some(Obj(Mutated(Some(doc), path, metadata).spec)), path', metadata') ==
            Untouched(if path != "" then HasListener else UsesNotify)
  {
    var spec, after := doc.fields, Mutated(Some(doc), path, metadata).spec;
    InjectedProfile(spec, path, metadata);
    var sec := Seccomp(after).value;
    assert !OptsOut(after);
    assert HasPrivateNetns(after) == HasPrivateNetns(spec) by {
      assert ObjAt(spec, "linux").Some? ==>
        ArrAt(ObjAt(after, "linux").value, "namespaces") == ArrAt(ObjAt(spec, "linux").value, "namespaces");
    }
    assert NOTIFY_RULE in Rules(sec) && Action(NOTIFY_RULE) == ACT_NOTIFY;
  }
}
