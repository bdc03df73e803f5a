/**
 * Ups and a user's own edits of daemon.json in any order, and then a down
 * (internal/guestbin/provision.go): what the undoing key by key keeps.
 */
module DaemonEdits {
  import opened Options
  import opened DaemonJson

  /** A user's edit: top-level keys and registered runtimes, set or dropped. */
  datatype Edit = Edit(set_: Config, drop: set<string>, setRuntimes: Config, dropRuntimes: set<string>) {
    /** It touches neither default-runtime nor runtimes.drawbridge. */
    predicate Foreign() {
      && DEFAULT_KEY !in set_ && DEFAULT_KEY !in drop && RUNTIMES_KEY !in set_ && RUNTIMES_KEY !in drop
      && RUNTIME_NAME !in setRuntimes && RUNTIME_NAME !in dropRuntimes
    }

    function OnRuntimes(runtimes: Config): Config { runtimes - dropRuntimes + setRuntimes }

    /** Only a runtime to set, or an object to edit, makes it write a runtimes object. */
    function On(cfg: Config): Config
      requires DecodeNested(cfg, RUNTIMES_KEY).Some?
    {
      var top := cfg - drop + set_;
      if setRuntimes != map[] || (RUNTIMES_KEY in cfg && cfg[RUNTIMES_KEY].Object?)
      then top[RUNTIMES_KEY := Object(OnRuntimes(DecodeNested(cfg, RUNTIMES_KEY).value), 0)]
      else top
    }
  }

  predicate AllForeign(es: seq<Edit>) { forall i :: 0 <= i < |es| ==> es[i].Foreign() }

  /** The edits, first to last. */
  function OnAll(es: seq<Edit>, cfg: Config): (r: Config)
    requires AllForeign(es) && DecodeNested(cfg, RUNTIMES_KEY).Some?
    ensures DecodeNested(r, RUNTIMES_KEY).Some?
  {
    if es == [] then cfg else es[|es| - 1].On(OnAll(es[..|es| - 1], cfg))
  }

  function OnAllRuntimes(es: seq<Edit>, runtimes: Config): Config {
    if es == [] then runtimes else es[|es| - 1].OnRuntimes(OnAllRuntimes(es[..|es| - 1], runtimes))
  }

  // ---- what two configs say ----------------------------------------------------------

  const OWNED := {RUNTIMES_KEY, DEFAULT_KEY}

  function At(cfg: Config, key: string): Option<Raw> { if key in cfg then Some(cfg[key]) else None }

  /** Agreement, spelling and key order of the two owned keys aside. */
  ghost predicate Agree(a: Config, b: Config) {
    && a - OWNED == b - OWNED
    && SameValue(At(a, RUNTIMES_KEY), At(b, RUNTIMES_KEY))
    && SameValue(At(a, DEFAULT_KEY), At(b, DEFAULT_KEY))
  }

  predicate SameValue(a: Option<Raw>, b: Option<Raw>) {
    || a == b
    || (a.Some? && b.Some? && a.value.Object? && b.value.Object? && a.value.fields == b.value.fields)
    || (a.Some? && b.Some? && a.value.Text? && b.value.Text? && a.value.s == b.value.s)
  }

  /** A default-runtime that was null or "" comes back as no key at all. */
  predicate DefaultKept(original: Config) {
    DEFAULT_KEY in original ==> original[DEFAULT_KEY].Text? && original[DEFAULT_KEY].s != ""
  }

  /**
   * A runtimes object left empty, or null, is dropped with drawbridge's entry; and a
   * drawbridge runtime under another path is replaced for good, unless default-runtime
   * named it already and nothing was written. `edited` is the original with the user's edits.
   */
  predicate RuntimesKept(original: Config, path: string, edited: Config)
    requires DecodeNested(original, RUNTIMES_KEY).Some?
  {
    if RUNTIME_NAME in DecodeNested(original, RUNTIMES_KEY).value
    then IsDefault(original) || Registers(DecodeNested(original, RUNTIMES_KEY).value, path)
    else RUNTIMES_KEY in edited ==> edited[RUNTIMES_KEY].Object? && edited[RUNTIMES_KEY].fields != map[]
  }

  // ---- edits, by the parts they leave -------------------------------------------------

  lemma OnOthers(e: Edit, a: Config, b: Config)
    requires DecodeNested(a, RUNTIMES_KEY).Some? && DecodeNested(b, RUNTIMES_KEY).Some?
    requires a - OWNED == b - OWNED
    ensures e.On(a) - OWNED == e.On(b) - OWNED
  {
    forall k | k !in OWNED ensures At(e.On(a), k) == At(e.On(b), k) {
      assert At(a - OWNED, k) == At(b - OWNED, k);
    }
    assert forall k :: At(e.On(a) - OWNED, k) == At(e.On(b) - OWNED, k);
    SameAt(e.On(a) - OWNED, e.On(b) - OWNED);
  }

  lemma SameAt(a: Config, b: Config)
    requires forall k :: At(a, k) == At(b, k)
    ensures a == b
  {
    forall k ensures k in a <==> k in b {
      assert At(a, k) == At(b, k);
    }
    forall k | k in a ensures a[k] == b[k] {
      assert At(a, k) == At(b, k);
    }
  }

  lemma {:induction false} OnAllOthers(es: seq<Edit>, a: Config, b: Config)
    requires AllForeign(es) && DecodeNested(a, RUNTIMES_KEY).Some? && DecodeNested(b, RUNTIMES_KEY).Some?
    requires a - OWNED == b - OWNED
    ensures OnAll(es, a) - OWNED == OnAll(es, b) - OWNED
  {
    if es != [] {
      OnAllOthers(es[..|es| - 1], a, b);
      OnOthers(es[|es| - 1], OnAll(es[..|es| - 1], a), OnAll(es[..|es| - 1], b));
    }
  }

  /** default-runtime is left alone, and runtimes edited as an object once it is one. */
  lemma {:induction false} OnAllOwned(es: seq<Edit>, cfg: Config)
    requires AllForeign(es) && DecodeNested(cfg, RUNTIMES_KEY).Some?
    ensures At(OnAll(es, cfg), DEFAULT_KEY) == At(cfg, DEFAULT_KEY)
    ensures DecodeNested(OnAll(es, cfg), RUNTIMES_KEY) ==
            Some(OnAllRuntimes(es, DecodeNested(cfg, RUNTIMES_KEY).value))
    ensures RUNTIMES_KEY in cfg && cfg[RUNTIMES_KEY].Object? ==>
            RUNTIMES_KEY in OnAll(es, cfg) && OnAll(es, cfg)[RUNTIMES_KEY].Object?
  {
    if es != [] {
      var init, e := es[..|es| - 1], es[|es| - 1];
      OnAllOwned(init, cfg);
      OnOwned(e, OnAll(init, cfg));
    }
  }

  lemma OnOwned(e: Edit, cfg: Config)
    requires e.Foreign() && DecodeNested(cfg, RUNTIMES_KEY).Some?
    ensures At(e.On(cfg), DEFAULT_KEY) == At(cfg, DEFAULT_KEY)
    ensures DecodeNested(e.On(cfg), RUNTIMES_KEY) == Some(e.OnRuntimes(DecodeNested(cfg, RUNTIMES_KEY).value))
    ensures RUNTIMES_KEY in cfg && cfg[RUNTIMES_KEY].Object? ==> RUNTIMES_KEY in e.On(cfg) && e.On(cfg)[RUNTIMES_KEY].Object?
  {
    if RUNTIMES_KEY !in cfg || !cfg[RUNTIMES_KEY].Object? {
      assert e.setRuntimes == map[] ==> e.OnRuntimes(map[]) == map[];
    }
  }

  /** Edits that leave drawbridge's runtime alone commute with registering it. */
  lemma {:induction false} OnAllRegistered(es: seq<Edit>, runtimes: Config, v: Raw)
    requires AllForeign(es)
    ensures OnAllRuntimes(es, runtimes[RUNTIME_NAME := v]) == OnAllRuntimes(es, runtimes)[RUNTIME_NAME := v]
    ensures At(OnAllRuntimes(es, runtimes), RUNTIME_NAME) == At(runtimes, RUNTIME_NAME)
  {
    if es != [] {
      var init, e := es[..|es| - 1], es[|es| - 1];
      OnAllRegistered(init, runtimes, v);
      var was := OnAllRuntimes(init, runtimes);
      assert e.OnRuntimes(was[RUNTIME_NAME := v]) == e.OnRuntimes(was)[RUNTIME_NAME := v];
    }
  }

  // ---- what the undoing leaves ------------------------------------------------------------

  /** The runtimes a revert leaves: no object at all when drawbridge's was the only one. */
  function Remaining(runtimes: Config): Option<Raw> {
    var rest := runtimes - {RUNTIME_NAME};
    if rest == map[] then None else Some(Object(rest, 0))
  }

  lemma UnmergedParts(cfg: Config, st: Provision)
    requires DecodeNested(cfg, RUNTIMES_KEY).Some?
    ensures var out := Unmerged(cfg, st).value;
            && out - OWNED == cfg - OWNED
            && At(out, DEFAULT_KEY) == (
                 if !st.setDefault || !IsDefault(cfg) then At(cfg, DEFAULT_KEY)
                 else if st.prevDefault == "" then None else Some(Text(st.prevDefault, 0)))
            && At(out, RUNTIMES_KEY) == (
                 if !st.addedRuntime then At(cfg, RUNTIMES_KEY) else Remaining(DecodeNested(cfg, RUNTIMES_KEY).value))
  {
  }

  /** The config `up` leaves, by its parts. */
  lemma MergedParts(original: File, path: string)
    requires MergeOf(original, path).Merged?
    ensures var cfg, r := DecodeObject(original).value, MergeOf(original, path);
            var runtimes := DecodeNested(cfg, RUNTIMES_KEY).value;
            && r.content.Document?
            && r.content.config - OWNED == cfg - OWNED
            && IsDefault(r.content.config)
            && (IsDefault(cfg) ==> At(r.content.config, DEFAULT_KEY) == At(cfg, DEFAULT_KEY))
            && RUNTIMES_KEY in r.content.config && r.content.config[RUNTIMES_KEY].Object?
            && r.content.config[RUNTIMES_KEY].fields ==
               (if Registers(runtimes, path) || (RUNTIME_NAME in runtimes && IsDefault(cfg)) then runtimes
                else runtimes[RUNTIME_NAME := Runtime(path)])
  {
    var cfg := DecodeObject(original).value;
    var runtimes := DecodeNested(cfg, RUNTIMES_KEY).value;
    assert MergedConfig(cfg, runtimes, path) - OWNED == cfg - OWNED;
  }

  /** The config `up` leaves, edited. */
  function EditedAfter(original: File, path: string, es: seq<Edit>): Config
    requires MergeOf(original, path).Merged? && AllForeign(es)
  {
    OnAll(es, MergeOf(original, path).content.config)
  }

  lemma DefaultUndone(original: File, path: string, es: seq<Edit>)
    requires MergeOf(original, path).Merged? && AllForeign(es)
    ensures var cfg := DecodeObject(original).value;
            var edited := EditedAfter(original, path, es);
            SameValue(At(Unmerged(edited, MergeOf(original, path).st).value, DEFAULT_KEY), At(OnAll(es, cfg), DEFAULT_KEY))
            <==> DefaultKept(cfg)
  {
    MergedParts(original, path);
    OnAllOwned(es, DecodeObject(original).value);
    OnAllOwned(es, MergeOf(original, path).content.config);
    UnmergedParts(EditedAfter(original, path, es), MergeOf(original, path).st);
  }

  /** Without drawbridge's entry, the object an edited original must have had to agree. */
  lemma RemainingAgrees(es: seq<Edit>, cfg: Config, runtimes: Config, v: Raw)
    requires AllForeign(es) && DecodeNested(cfg, RUNTIMES_KEY) == Some(runtimes) && RUNTIME_NAME !in runtimes
    ensures var edited := OnAll(es, cfg);
            SameValue(Remaining(OnAllRuntimes(es, runtimes[RUNTIME_NAME := v])), At(edited, RUNTIMES_KEY)) <==>
            (RUNTIMES_KEY in edited ==> edited[RUNTIMES_KEY].Object? && edited[RUNTIMES_KEY].fields != map[])
  {
    OnAllRegistered(es, runtimes, v);
    OnAllOwned(es, cfg);
    assert OnAllRuntimes(es, runtimes)[RUNTIME_NAME := v] - {RUNTIME_NAME} == OnAllRuntimes(es, runtimes);
  }

  /** With drawbridge's entry, the original object comes back exactly if it was not replaced. */
  lemma ReplacedDisagrees(es: seq<Edit>, cfg: Config, after: Config, runtimes: Config, path: string)
    requires AllForeign(es) && DecodeNested(cfg, RUNTIMES_KEY) == Some(runtimes) && RUNTIME_NAME in runtimes
    requires RUNTIMES_KEY in after && after[RUNTIMES_KEY].Object?
    ensures after[RUNTIMES_KEY].fields == runtimes ==> SameValue(At(OnAll(es, after), RUNTIMES_KEY), At(OnAll(es, cfg), RUNTIMES_KEY))
    ensures after[RUNTIMES_KEY].fields == runtimes[RUNTIME_NAME := Runtime(path)] && !Registers(runtimes, path) ==>
            !SameValue(At(OnAll(es, after), RUNTIMES_KEY), At(OnAll(es, cfg), RUNTIMES_KEY))
  {
    OnAllOwned(es, cfg);
    OnAllOwned(es, after);
    OnAllRegistered(es, runtimes, Runtime(path));
    if after[RUNTIMES_KEY].fields == runtimes[RUNTIME_NAME := Runtime(path)] && !Registers(runtimes, path) {
      assert OnAllRuntimes(es, after[RUNTIMES_KEY].fields)[RUNTIME_NAME] == Runtime(path);
      assert At(OnAllRuntimes(es, runtimes), RUNTIME_NAME) == Some(runtimes[RUNTIME_NAME]);
    }
  }

  lemma RuntimesUndone(original: File, path: string, es: seq<Edit>)
    requires MergeOf(original, path).Merged? && AllForeign(es)
    ensures var cfg := DecodeObject(original).value;
            var edited := EditedAfter(original, path, es);
            SameValue(At(Unmerged(edited, MergeOf(original, path).st).value, RUNTIMES_KEY), At(OnAll(es, cfg), RUNTIMES_KEY))
            <==> RuntimesKept(cfg, path, OnAll(es, cfg))
  {
    var cfg, after := DecodeObject(original).value, MergeOf(original, path).content.config;
    var runtimes := DecodeNested(cfg, RUNTIMES_KEY).value;
    MergedParts(original, path);
    OnAllOwned(es, after);
    UnmergedParts(EditedAfter(original, path, es), MergeOf(original, path).st);
    if RUNTIME_NAME in runtimes {
      ReplacedDisagrees(es, cfg, after, runtimes, path);
    } else {
      RemainingAgrees(es, cfg, runtimes, Runtime(path));
    }
  }

  lemma UndoneAgrees(original: File, path: string, es: seq<Edit>)
    requires MergeOf(original, path).Merged? && AllForeign(es)
    ensures var cfg, out := DecodeObject(original).value, Unmerged(EditedAfter(original, path, es), MergeOf(original, path).st);
            out.Some? &&
            (Agree(out.value, OnAll(es, cfg)) <==> DefaultKept(cfg) && RuntimesKept(cfg, path, OnAll(es, cfg)))
  {
    var cfg, after := DecodeObject(original).value, MergeOf(original, path).content.config;
    MergedParts(original, path);
    DefaultUndone(original, path, es);
    RuntimesUndone(original, path, es);
    OnAllOthers(es, after, cfg);
    UnmergedParts(EditedAfter(original, path, es), MergeOf(original, path).st);
  }

  // ---- ups and edits in any order --------------------------------------------------------

  datatype Act = Rerun(path: string) | Change(e: Edit, layout: nat)

  /** An edit saves the file in whatever layout; one of a file that is no config does nothing here. */
  function ActOn(g: Guest, act: Act): Guest {
    match act
    case Rerun(path) => Up(g, path)
    case Change(e, layout) =>
      if g.file.Some? && g.file.value.Document? && DecodeNested(g.file.value.config, RUNTIMES_KEY).Some?
      then g.(file := Some(Document(e.On(g.file.value.config), layout)))
      else g
  }

  function Acts(g: Guest, acts: seq<Act>): Guest {
    if acts == [] then g else ActOn(Acts(g, acts[..|acts| - 1]), acts[|acts| - 1])
  }

  function Edits(acts: seq<Act>): seq<Edit> {
    if acts == [] then []
    else
      var before := Edits(acts[..|acts| - 1]);
      match acts[|acts| - 1]
      case Rerun(_) => before
      case Change(e, _) => before + [e]
  }

  /** A file that already has drawbridge as a runtime and as the default. */
  predicate Settled(cfg: Config) {
    IsDefault(cfg) && RUNTIMES_KEY in cfg && cfg[RUNTIMES_KEY].Object? && RUNTIME_NAME in cfg[RUNTIMES_KEY].fields
  }

  lemma SettledStays(g: Guest, cfg: Config, layout: nat, path: string)
    requires g.file == Some(Document(cfg, layout)) && Settled(cfg) && g.record.Some?
    ensures Up(g, path) == g
  {
  }

  lemma EditsStaySettled(es: seq<Edit>, original: File, path: string)
    requires MergeOf(original, path).Merged? && AllForeign(es)
    ensures Settled(EditedAfter(original, path, es))
  {
    var after := MergeOf(original, path).content.config;
    var runtimes := DecodeNested(DecodeObject(original).value, RUNTIMES_KEY).value;
    MergedParts(original, path);
    OnAllOwned(es, after);
    OnAllRegistered(es, after[RUNTIMES_KEY].fields, Runtime(path));
    assert At(EditedAfter(original, path, es), DEFAULT_KEY) == At(after, DEFAULT_KEY);
    assert RUNTIME_NAME in after[RUNTIMES_KEY].fields;
    assert At(OnAllRuntimes(es, after[RUNTIMES_KEY].fields), RUNTIME_NAME).Some?;
  }

  lemma EditsOfPrefix(acts: seq<Act>)
    requires acts != [] && AllForeign(Edits(acts))
    ensures AllForeign(Edits(acts[..|acts| - 1]))
  {
    var before, all := Edits(acts[..|acts| - 1]), Edits(acts);
    forall i | 0 <= i < |before| ensures before[i].Foreign() {
      assert all[i] == before[i];
    }
  }

  /** After the first up that works, the file is what it left with the edits so far, and the record stays. */
  lemma {:induction false} ActsEdit(original: File, path: string, acts: seq<Act>) returns (layout: nat)
    requires MergeOf(original, path).Merged? && AllForeign(Edits(acts))
    ensures Acts(Up(Guest(original, None), path), acts) ==
            Guest(Some(Document(EditedAfter(original, path, Edits(acts)), layout)), Some(MergeOf(original, path).st))
  {
    if acts == [] {
      MergedParts(original, path);
      layout := MergeOf(original, path).content.layout;
    } else {
      var init, act := acts[..|acts| - 1], acts[|acts| - 1];
      EditsOfPrefix(acts);
      layout := ActsEdit(original, path, init);
      var g := Acts(Up(Guest(original, None), path), init);
      match act
      case Rerun(p) =>
        EditsStaySettled(Edits(init), original, path);
        SettledStays(g, EditedAfter(original, path, Edits(init)), layout, p);
      case Change(e, l) =>
        assert Edits(acts)[..|Edits(acts)| - 1] == Edits(init);
        layout := l;
    }
  }

  /** A down while the file is byte for byte what the up wrote. */
  lemma DownExact(original: File, path: string)
    requires MergeOf(original, path).Merged?
    ensures var r := MergeOf(original, path); Down(Guest(r.st.after, Some(r.st))) == original
  {
  }

  /** A down once it is not: the undoing key by key. */
  lemma DownByKey(cfg: Config, layout: nat, st: Provision)
    requires st.version == STATE_VERSION && st.after != Some(Document(cfg, layout)) && Unmerged(cfg, st).Some?
    ensures Down(Guest(Some(Document(cfg, layout)), Some(st))) == Some(Document(Unmerged(cfg, st).value, 0))
  {
  }

  /**
   * An up that worked, then ups and edits of other keys in any order, then a down. While
   * the file is byte for byte what the up wrote, the original comes back. Otherwise what
   * comes back is the original with the edits, exactly when the record was complete.
   */
  lemma RevertCommutes(original: File, path: string, acts: seq<Act>)
    requires MergeOf(original, path).Merged? && AllForeign(Edits(acts))
    ensures var g, cfg := Acts(Up(Guest(original, None), path), acts), DecodeObject(original).value;
            var edited := OnAll(Edits(acts), cfg);
            if g.file == MergeOf(original, path).st.after then Down(g) == original
            else Down(g).Some? && Down(g).value.Document? &&
                 (Agree(Down(g).value.config, edited) <==> DefaultKept(cfg) && RuntimesKept(cfg, path, edited))
  {
    var st, now := MergeOf(original, path).st, EditedAfter(original, path, Edits(acts));
    var layout := ActsEdit(original, path, acts);
    DownExact(original, path);
    UndoneAgrees(original, path, Edits(acts));
    if Some(Document(now, layout)) != st.after {
      DownByKey(now, layout, st);
    }
  }

  // ---- inputs at which it does not -----------------------------------------------------------

  const DEBUG: Edit := Edit(map["debug" := Other(0)], {}, map[], {})

  /** A default-runtime of null is gone after up, an edit of another key, and down. */
  lemma NullDefaultIsLost(path: string)
    ensures var original: File := Some(Document(map[DEFAULT_KEY := Null], 0));
            var down := Down(Acts(Up(Guest(original, None), path), [Change(DEBUG, 0)]));
            down.Some? && down.value.Document? && !Agree(down.value.config, DEBUG.On(map[DEFAULT_KEY := Null]))
  {
    FailsAt(Some(Document(map[DEFAULT_KEY := Null], 0)), path);
  }

  /** So is a drawbridge runtime registered under another path. */
  lemma OtherPathIsLost(path: string, other: string)
    requires path != other
    ensures var cfg: Config := map[RUNTIMES_KEY := Object(map[RUNTIME_NAME := Runtime(other)], 0)];
            var down := Down(Acts(Up(Guest(Some(Document(cfg, 0)), None), path), [Change(DEBUG, 0)]));
            down.Some? && down.value.Document? && !Agree(down.value.config, DEBUG.On(cfg))
  {
    var cfg: Config := map[RUNTIMES_KEY := Object(map[RUNTIME_NAME := Runtime(other)], 0)];
    assert !Registers(cfg[RUNTIMES_KEY].fields, path);
    FailsAt(Some(Document(cfg, 0)), path);
  }

  lemma OneEdit()
    ensures Edits([Change(DEBUG, 0)]) == [DEBUG] && AllForeign([DEBUG])
  {
    var acts := [Change(DEBUG, 0)];
    assert acts[..0] == [];
  }

  lemma OneEditOn(cfg: Config)
    requires DecodeNested(cfg, RUNTIMES_KEY).Some?
    ensures AllForeign([DEBUG]) && OnAll([DEBUG], cfg) == DEBUG.On(cfg) && "debug" in DEBUG.On(cfg)
  {
    assert [DEBUG][..0] == [];
  }

  lemma DebugShows(original: File, path: string)
    requires MergeOf(original, path).Merged? && original.Some? && "debug" !in original.value.config && AllForeign([DEBUG])
    ensures MergeOf(original, path).content.Document?
    ensures EditedAfter(original, path, [DEBUG]) != MergeOf(original, path).content.config
  {
    var after := MergeOf(original, path).content.config;
    MergedParts(original, path);
    OneEditOn(after);
    assert "debug" !in after - OWNED;
  }

  /** One edit of a key the original does not have takes the surgical path. */
  lemma FailsAt(original: File, path: string)
    requires MergeOf(original, path).Merged? && original.Some? && "debug" !in original.value.config
    ensures var cfg := original.value.config;
            var down := Down(Acts(Up(Guest(original, None), path), [Change(DEBUG, 0)]));
            down.Some? && down.value.Document? &&
            (Agree(down.value.config, DEBUG.On(cfg)) <==> DefaultKept(cfg) && RuntimesKept(cfg, path, DEBUG.On(cfg)))
  {
    var st := MergeOf(original, path).st;
    OneEdit();
    OneEditOn(original.value.config);
    DebugShows(original, path);
    var now := EditedAfter(original, path, [DEBUG]);
    var layout := ActsEdit(original, path, [Change(DEBUG, 0)]);
    UndoneAgrees(original, path, [DEBUG]);
    DownByKey(now, layout, st);
  }
}
