/**
 * The bundle rewrite against the document's own words (internal/ociruntime/mutate.go): which
 * documents it touches, why it leaves the others, and what is left of each rule.
 */
module SeccompReasons {
  import opened Options
  import opened JsonTrees
  import opened SeccompProfile

  // ---- the document's words ------------------------------------------------------------

  predicate Says(m: Object, key: string, v: string) { key in m && m[key] == Str(v) }

  predicate IsObj(m: Object, key: string) { key in m && m[key].Obj? }

  /** The entries of the list at `key`; a value of another kind lists nothing. */
  predicate Lists(m: Object, key: string, item: Json) { key in m && m[key].Arr? && item in m[key].items }

  predicate OptedOut(spec: Object) {
    IsObj(spec, "annotations") && Says(spec["annotations"].fields, "dev.drawbridge.arbitrate", "false")
  }

  ghost predicate HasNetns(spec: Object) {
    IsObj(spec, "linux") &&
    exists ns :: Lists(spec["linux"].fields, "namespaces", ns) && ns.Obj? && Says(ns.fields, "type", "network")
  }

  /** `sec` is the profile in force. */
  predicate Confines(spec: Object, sec: Object) {
    IsObj(spec, "linux") && IsObj(spec["linux"].fields, "seccomp") && sec == spec["linux"].fields["seccomp"].fields
  }

  predicate NamesIt(rule: Json, name: string) { rule.Obj? && Lists(rule.fields, "names", Str(name)) }

  predicate Does(rule: Json, action: string) { rule.Obj? && Says(rule.fields, "action", action) }

  predicate HasArgs(rule: Json) { rule.Obj? && "args" in rule.fields && rule.fields["args"].Arr? && rule.fields["args"].items != [] }

  /** Somebody else's agent listens, or would. */
  ghost predicate HasAgent(sec: Object) {
    || ("listenerPath" in sec && sec["listenerPath"].Str? && sec["listenerPath"].s != "")
    || Says(sec, "defaultAction", "SCMP_ACT_NOTIFY")
    || exists r :: Lists(sec, "syscalls", r) && Does(r, "SCMP_ACT_NOTIFY")
  }

  /** bind is let through whatever its arguments: by every rule that names it, or by default when none does. */
  ghost predicate LetsBind(sec: Object) {
    && (forall r :: Lists(sec, "syscalls", r) && NamesIt(r, "bind") ==> Does(r, "SCMP_ACT_ALLOW") && !HasArgs(r))
    && ((exists r :: Lists(sec, "syscalls", r) && NamesIt(r, "bind"))
        || Says(sec, "defaultAction", "SCMP_ACT_ALLOW") || Says(sec, "defaultAction", "SCMP_ACT_LOG"))
  }

  lemma WordsRead(spec: Object)
    ensures OptsOut(spec) <==> OptedOut(spec)
    ensures HasPrivateNetns(spec) <==> HasNetns(spec)
    ensures forall sec :: Seccomp(spec) == Some(sec) <==> Confines(spec, sec)
  {
    assert StrAt(map[], "type") != "network";
    if IsObj(spec, "linux") {
      forall ns | ns in ArrAt(spec["linux"].fields, "namespaces")
        ensures IsNetwork(ns) <==> ns.Obj? && Says(ns.fields, "type", "network")
      {
      }
    }
  }

  lemma RuleReads(rule: Json)
    ensures forall name :: Names(rule, name) <==> NamesIt(rule, name)
    ensures forall action :: action != "" ==> (Action(rule) == action <==> Does(rule, action))
    ensures Constrained(rule) <==> HasArgs(rule)
  {
  }

  lemma RulesRead(sec: Object, r: Json)
    ensures r in Rules(sec) <==> Lists(sec, "syscalls", r)
  {
  }

  lemma ActionsAreNamed()
    ensures ACT_ALLOW != "" && ACT_LOG != "" && ACT_NOTIFY != ""
    ensures ACT_ALLOW == "SCMP_ACT_ALLOW" && ACT_LOG == "SCMP_ACT_LOG" && ACT_NOTIFY == "SCMP_ACT_NOTIFY"
  {
  }

  lemma ProfileReads(sec: Object)
    ensures Agentless(sec) <==> !HasAgent(sec)
    ensures AllowsBind(sec) <==> LetsBind(sec)
  {
    ActionsAreNamed();
    forall r ensures r in Rules(sec) <==> Lists(sec, "syscalls", r) {
      RulesRead(sec, r);
    }
    forall r {
      RuleReads(r);
    }
    assert forall r :: Action(r) == ACT_NOTIFY <==> Does(r, "SCMP_ACT_NOTIFY");
    assert forall r :: Action(r) == ACT_ALLOW <==> Does(r, "SCMP_ACT_ALLOW");
    assert forall r :: Names(r, "bind") <==> NamesIt(r, "bind");
  }

  /**
   * In the document's words: the rewrite happens exactly when nobody opted out, the network
   * namespace is the host's, and a profile in force has no agent and lets bind through.
   */
  lemma InjectsExactly(doc: Json, path: string, metadata: string)
    ensures Mutated(Some(doc), path, metadata).Injected? <==>
            && doc.Obj? && !OptedOut(doc.fields) && !HasNetns(doc.fields)
            && forall sec :: Confines(doc.fields, sec) ==> !HasAgent(sec) && LetsBind(sec)
    ensures Mutated(Some(doc), path, metadata).ParseError? <==> !doc.Obj? && !doc.Null?
    ensures Mutated(None, path, metadata).ParseError?
  {
    InjectsIff(doc, path, metadata);
    if doc.Obj? {
      WordsRead(doc.fields);
      if Seccomp(doc.fields).Some? {
        ProfileReads(Seccomp(doc.fields).value);
        assert Confines(doc.fields, Seccomp(doc.fields).value);
      }
    }
  }

  /** The reasons given, in the order they are looked for; the ones about bind name what was found. */
  lemma ReasonIs(spec: Object, path: string, metadata: string)
    ensures var r := Mutated(Some(Obj(spec)), path, metadata);
            && (r == Untouched(OptOut) <==> OptedOut(spec))
            && (r == Untouched(PrivateNetns) <==> !OptedOut(spec) && HasNetns(spec))
    ensures forall sec: Object :: Confines(spec, sec) && !OptedOut(spec) && !HasNetns(spec) ==>
              var r := Mutated(Some(Obj(spec)), path, metadata);
              var listens := "listenerPath" in sec && sec["listenerPath"].Str? && sec["listenerPath"].s != "";
              var notifies := HasNotify(sec);
              && (r == Untouched(HasListener) <==> listens)
              && (r == Untouched(UsesNotify) <==> !listens && notifies)
              && (r == Untouched(DefaultNotify) <==> !listens && !notifies && Says(sec, "defaultAction", "SCMP_ACT_NOTIFY"))
              && (r.Untouched? && (r.reason.HandlesBind? || r.reason.ConstrainsBind? || r.reason.NoBindRule?) <==>
                    !HasAgent(sec) && !LetsBind(sec))
              && (r.Untouched? && r.reason.NoBindRule? ==>
                    && (forall rule :: Lists(sec, "syscalls", rule) ==> !NamesIt(rule, "bind"))
                    && (Says(sec, "defaultAction", r.reason.defaultAction)
                        || (r.reason.defaultAction == "" && !("defaultAction" in sec && sec["defaultAction"].Str?))))
  {
    WordsRead(spec);
    if Seccomp(spec).Some? {
      var sec := Seccomp(spec).value;
      assert Confines(spec, sec);
      ProfileReads(sec);
      ReasonInProfile(sec);
      NoReason(sec);
      NoRuleForBind(sec);
    }
  }

  /** Some rule notifies. */
  ghost predicate HasNotify(sec: Object) { exists rule :: Lists(sec, "syscalls", rule) && Does(rule, "SCMP_ACT_NOTIFY") }

  lemma NotifyReads(sec: Object)
    ensures NotifiesAnywhere(Rules(sec)) <==> HasNotify(sec)
  {
    ActionsAreNamed();
    if HasNotify(sec) {
      var r :| Lists(sec, "syscalls", r) && Does(r, "SCMP_ACT_NOTIFY");
      RulesRead(sec, r);
      RuleReads(r);
    }
    if r :| r in Rules(sec) && Action(r) == ACT_NOTIFY {
      RulesRead(sec, r);
      RuleReads(r);
    }
  }

  lemma ObjectionIsOfBind(rules: seq<Json>)
    ensures match FirstObjection(rules) case None => true case Some(r) => r.HandlesBind? || r.ConstrainsBind?
  {
    ObjectionIsToFirst(rules);
  }

  lemma ReasonInProfile(sec: Object)
    ensures var listens := "listenerPath" in sec && sec["listenerPath"].Str? && sec["listenerPath"].s != "";
            && (Refusal(sec) == Some(HasListener) <==> listens)
            && (Refusal(sec) == Some(UsesNotify) <==> !listens && HasNotify(sec))
            && (Refusal(sec) == Some(DefaultNotify) <==> !listens && !HasNotify(sec) && Says(sec, "defaultAction", "SCMP_ACT_NOTIFY"))
    ensures Refusal(sec) != Some(OptOut) && Refusal(sec) != Some(PrivateNetns)
  {
    ActionsAreNamed();
    NotifyReads(sec);
    ObjectionIsOfBind(Rules(sec));
  }

  /** For want of a bind rule: there is none, and the default it names is the profile's. */
  lemma NoRuleForBind(sec: Object)
    ensures Refusal(sec).Some? && Refusal(sec).value.NoBindRule? ==>
              var d := Refusal(sec).value.defaultAction;
              && (forall rule :: Lists(sec, "syscalls", rule) ==> !NamesIt(rule, "bind"))
              && (Says(sec, "defaultAction", d) || (d == "" && !("defaultAction" in sec && sec["defaultAction"].Str?)))
  {
    if Refusal(sec).Some? && Refusal(sec).value.NoBindRule? {
      ObjectionIsOfBind(Rules(sec));
      RulesForIff(Rules(sec), "bind");
      forall rule | Lists(sec, "syscalls", rule) ensures !NamesIt(rule, "bind") {
        RulesRead(sec, rule);
        RuleReads(rule);
      }
    }
  }

  lemma NoReason(sec: Object)
    ensures Refusal(sec).None? <==> Agentless(sec) && AllowsBind(sec)
  {
    ObjectionIff(Rules(sec));
    RulesForIff(Rules(sec), "bind");
  }

  predicate Bad(rule: Json) { NamesIt(rule, "bind") && !(Does(rule, "SCMP_ACT_ALLOW") && !HasArgs(rule)) }

  predicate FirstBad(rules: seq<Json>, i: nat, reason: Reason) {
    && i < |rules| && Bad(rules[i]) && (forall j :: 0 <= j < i ==> !Bad(rules[j]))
    && reason == if Does(rules[i], "SCMP_ACT_ALLOW") then ConstrainsBind else HandlesBind(Action(rules[i]))
  }

  /** The objection is to the first bind rule that is no plain allow, and says what that rule does. */
  lemma {:induction false} ObjectionIsToFirst(rules: seq<Json>)
    ensures FirstObjection(rules).None? ==> forall j :: 0 <= j < |rules| ==> !Bad(rules[j])
    ensures FirstObjection(rules).Some? ==> exists i :: FirstBad(rules, i, FirstObjection(rules).value)
  {
    if rules != [] {
      var n := |rules| - 1;
      var init := rules[..n];
      ObjectionIsToFirst(init);
      if FirstObjection(init).Some? {
        var i :| FirstBad(init, i, FirstObjection(init).value);
        BadStays(init, rules[n], i, FirstObjection(init).value);
        assert init + [rules[n]] == rules;
      } else {
        assert forall j :: 0 <= j < n ==> init[j] == rules[j];
        LastObjection(rules);
      }
    }
  }

  lemma BadStays(init: seq<Json>, last: Json, i: nat, reason: Reason)
    requires FirstBad(init, i, reason)
    ensures FirstBad(init + [last], i, reason)
  {
  }

  lemma LastObjection(rules: seq<Json>)
    requires rules != [] && FirstObjection(rules[..|rules| - 1]).None?
    requires forall j :: 0 <= j < |rules| - 1 ==> !Bad(rules[j])
    ensures FirstObjection(rules).None? ==> !Bad(rules[|rules| - 1])
    ensures FirstObjection(rules).Some? ==> FirstBad(rules, |rules| - 1, FirstObjection(rules).value)
  {
    ActionsAreNamed();
    RuleReads(rules[|rules| - 1]);
  }

  // ---- what is left of the rules ------------------------------------------------------------------

  /** `some` are the names but bind, those at the places in `rank`, in order. */
  ghost predicate NamePicks(names: seq<Json>, some: seq<Json>, rank: seq<nat>) {
    && |rank| == |some|
    && (forall k :: 0 <= k < |rank| ==> rank[k] < |names| && some[k] == names[rank[k]])
    && (forall a, b :: 0 <= a < b < |rank| ==> rank[a] < rank[b])
    && (forall i: nat :: i in rank <==> i < |names| && names[i] != Str("bind"))
  }

  /** The names a rule keeps are all but bind, in their order and as often. */
  lemma {:induction false} NamesPicked(names: seq<Json>) returns (rank: seq<nat>)
    ensures NamePicks(names, WithoutBind(names), rank)
  {
    if names == [] {
      rank := [];
    } else {
      var n := |names| - 1;
      var before := NamesPicked(names[..n]);
      rank := OneMoreName(names[..n], names[n], WithoutBind(names[..n]), before);
      assert names[..n] + [names[n]] == names;
    }
  }

  lemma OneMoreName(init: seq<Json>, last: Json, some: seq<Json>, before: seq<nat>) returns (rank: seq<nat>)
    requires NamePicks(init, some, before)
    ensures NamePicks(init + [last], some + if last == Str("bind") then [] else [last], rank)
  {
    rank := before;
    if last != Str("bind") {
      rank := before + [|init|];
      assert forall a :: 0 <= a < |before| ==> before[a] in before && before[a] < |init|;
    }
  }

  /** A rule that names something else than bind, or not bind at all: it stays, without bind. */
  ghost predicate Outlives(rule: Json) {
    !NamesIt(rule, "bind") || exists n :: Lists(rule.fields, "names", n) && n != Str("bind")
  }

  /** `after` is `rule`, but for bind among its names. */
  ghost predicate IsStripped(rule: Json, after: Json) {
    if !NamesIt(rule, "bind") then after == rule
    else
      && after.Obj? && "names" in after.fields && after.fields["names"].Arr?
      && after.fields - {"names"} == rule.fields - {"names"}
      && after.fields["names"].items == WithoutBind(rule.fields["names"].items)
  }

  lemma StripIs(rule: Json)
    ensures Stripped(rule).Some? <==> Outlives(rule)
    ensures Stripped(rule).Some? ==> IsStripped(rule, Stripped(rule).value)
  {
    RuleReads(rule);
    if NamesIt(rule, "bind") {
      var names := rule.fields["names"].items;
      WithoutBindKeeps(names);
      if WithoutBind(names) != [] {
        assert WithoutBind(names)[0] in WithoutBind(names);
        assert Lists(rule.fields, "names", WithoutBind(names)[0]);
      }
    }
  }

  /** `some` are the rules that outlive bind, those at the places in `rank`, in order and without it. */
  ghost predicate RulePicks(rules: seq<Json>, some: seq<Json>, rank: seq<nat>) {
    && |rank| == |some|
    && (forall k :: 0 <= k < |rank| ==> rank[k] < |rules| && IsStripped(rules[rank[k]], some[k]))
    && (forall a, b :: 0 <= a < b < |rank| ==> rank[a] < rank[b])
    && (forall i: nat :: i in rank <==> i < |rules| && Outlives(rules[i]))
  }

  lemma {:induction false} RulesPicked(rules: seq<Json>) returns (rank: seq<nat>)
    ensures RulePicks(rules, StrippedAll(rules), rank)
  {
    if rules == [] {
      rank := [];
    } else {
      var n := |rules| - 1;
      var before := RulesPicked(rules[..n]);
      rank := OneMoreRule(rules[..n], rules[n], StrippedAll(rules[..n]), before);
      assert rules[..n] + [rules[n]] == rules;
    }
  }

  lemma OneMoreRule(init: seq<Json>, last: Json, some: seq<Json>, before: seq<nat>) returns (rank: seq<nat>)
    requires RulePicks(init, some, before)
    ensures RulePicks(init + [last], some + if Stripped(last).Some? then [Stripped(last).value] else [], rank)
  {
    StripIs(last);
    rank := before;
    if Stripped(last).Some? {
      rank := before + [|init|];
      assert forall a :: 0 <= a < |before| ==> before[a] in before && before[a] < |init|;
    }
  }

  /** The rules of the rewritten profile: those that stay, then one that notifies on bind and nothing else. */
  lemma RewrittenRules(spec: Object, path: string, metadata: string)
    requires Mutated(Some(Obj(spec)), path, metadata).Injected?
    ensures var after := Mutated(Some(Obj(spec)), path, metadata).spec;
            exists sec: Object ::
              && Confines(after, sec) && "syscalls" in sec && sec["syscalls"].Arr?
              && sec["syscalls"].items == (if Seccomp(spec).Some? then StrippedAll(Rules(Seccomp(spec).value)) else [])
                   + [Obj(map["names" := Arr([Str("bind")]), "action" := Str("SCMP_ACT_NOTIFY")])]
              && Says(sec, "listenerPath", path) && Says(sec, "listenerMetadata", metadata)
              && (Seccomp(spec).None? ==> Says(sec, "defaultAction", "SCMP_ACT_ALLOW"))
  {
    InjectedProfile(spec, path, metadata);
    WordsRead(Mutated(Some(Obj(spec)), path, metadata).spec);
    var sec := Rewired(Seccomp(spec), path, metadata);
    assert Confines(Mutated(Some(Obj(spec)), path, metadata).spec, sec);
  }
}
