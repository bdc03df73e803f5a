/**
 * One merge and one undoing of daemon.json in the file's own words
 * (internal/guestbin/provision.go): when each works, and what each leaves.
 */
module DaemonMerges {
  import opened Options
  import opened DaemonJson

  /** A file that can be merged into: none at all, or a document whose two keys are absent, null or of their kind. */
  predicate Mergeable(existing: File) {
    existing.Some? ==>
      && existing.value.Document?
      && var cfg := existing.value.config;
         && ("runtimes" in cfg ==> cfg["runtimes"].Null? || cfg["runtimes"].Object?)
         && ("default-runtime" in cfg ==> cfg["default-runtime"].Null? || cfg["default-runtime"].Text?)
  }

  function ConfigOf(existing: File): Config {
    if existing.Some? && existing.value.Document? then existing.value.config else map[]
  }

  function RuntimesIn(cfg: Config): Config {
    if "runtimes" in cfg && cfg["runtimes"].Object? then cfg["runtimes"].fields else map[]
  }

  /** drawbridge is a runtime already, and the default. */
  predicate Served(cfg: Config) {
    "drawbridge" in RuntimesIn(cfg) && "default-runtime" in cfg && cfg["default-runtime"].Text? && cfg["default-runtime"].s == "drawbridge"
  }

  predicate HasPath(runtime: Raw, path: string) {
    runtime.Object? && runtime.fields.Keys == {"path"} && runtime.fields["path"].Text? && runtime.fields["path"].s == path
  }

  /** What is written anew is spelt as the encoder spells it; a value that was right already keeps its spelling. */
  predicate AsMarshalled(cfg: Config, out: Config, path: string) {
    && (!("drawbridge" in RuntimesIn(cfg) && HasPath(RuntimesIn(cfg)["drawbridge"], path)) ==>
          "drawbridge" in RuntimesIn(out) && RuntimesIn(out)["drawbridge"] == Object(map["path" := Text(path, 0)], 0))
    && "runtimes" in out && out["runtimes"].Object? && out["runtimes"].order == 0
    && "default-runtime" in out
    && out["default-runtime"] == if Defaults(cfg) then cfg["default-runtime"] else Text("drawbridge", 0)
  }

  /**
   * A merge works exactly on a mergeable file. A file that serves drawbridge already is left as
   * it is; any other ends up with drawbridge as a runtime at the path asked for and as the
   * default, every other key and every other runtime as it was.
   */
  lemma MergesExactly(existing: File, path: string)
    ensures MergeOf(existing, path).Merged? <==> Mergeable(existing)
    ensures Mergeable(existing) ==>
              var r, cfg := MergeOf(existing, path), ConfigOf(existing);
              && (r.changed <==> Some(r.content) != existing)
              && r.st.version == 1 && r.st.path == path
              && if existing.Some? && Served(cfg) then Some(r.content) == existing
                 else
                   && r.content.Document? && Served(r.content.config)
                   && HasPath(RuntimesIn(r.content.config)["drawbridge"], path)
                   && AsMarshalled(cfg, r.content.config, path)
                   && RuntimesIn(r.content.config) - {"drawbridge"} == RuntimesIn(cfg) - {"drawbridge"}
                   && r.content.config - {"runtimes", "default-runtime"} == cfg - {"runtimes", "default-runtime"}
  {
    if Mergeable(existing) {
      MergedParts(ConfigOf(existing), path);
    }
  }

  lemma MergedParts(cfg: Config, path: string)
    ensures var runtimes := RuntimesIn(cfg);
            var merged := MergedConfig(cfg, runtimes, path);
            && Served(merged) && HasPath(RuntimesIn(merged)["drawbridge"], path) && AsMarshalled(cfg, merged, path)
            && RuntimesIn(merged) - {"drawbridge"} == runtimes - {"drawbridge"}
            && merged - {"runtimes", "default-runtime"} == cfg - {"runtimes", "default-runtime"}
  {
  }

  /** What it notes down: whether drawbridge was new as a runtime, whether the default was, and what that had been. */
  lemma MergeRecords(existing: File, path: string)
    requires Mergeable(existing)
    ensures var st, cfg := MergeOf(existing, path).st, ConfigOf(existing);
            && (st.addedRuntime <==> "drawbridge" !in RuntimesIn(cfg))
            && (st.setDefault <==> !("default-runtime" in cfg && cfg["default-runtime"].Text? && cfg["default-runtime"].s == "drawbridge"))
            && st.prevDefault == (if st.setDefault && "default-runtime" in cfg && cfg["default-runtime"].Text?
                                  then cfg["default-runtime"].s else "")
            && (st.existed <==> existing.Some?) && st.before == existing && st.after == Some(MergeOf(existing, path).content)
  {
    MergesExactly(existing, path);
  }

  /**
   * An undoing fails exactly on a record of a newer version, or on a file edited since that it
   * cannot read; a missing file, and one that is what was written, it never has to read.
   */
  lemma RevertFailsExactly(current: File, st: Provision)
    ensures RevertOf(current, st).RevertFailed? <==>
            || st.version > 1
            || (&& current.Some? && current != st.after
                && !(&& current.value.Document?
                     && (st.addedRuntime && "runtimes" in current.value.config ==>
                           current.value.config["runtimes"].Null? || current.value.config["runtimes"].Object?)))
  {
  }

  /** Key by key: drawbridge goes if it was added, the default goes back if it was set and still says drawbridge. */
  lemma RevertsByKey(current: File, st: Provision)
    requires RevertOf(current, st).Reverted? && current.Some? && current != st.after
    ensures var r, cfg := RevertOf(current, st), ConfigOf(current);
            && current.value.Document? && !r.remove && r.out.Some? && r.out.value.Document? && (r.changed <==> r.out != current)
            && var out := r.out.value.config;
               && out - {"runtimes", "default-runtime"} == cfg - {"runtimes", "default-runtime"}
               && (!st.addedRuntime ==> ("runtimes" in out <==> "runtimes" in cfg) && ("runtimes" in cfg ==> out["runtimes"] == cfg["runtimes"]))
               && (st.addedRuntime ==>
                     && RuntimesIn(out) == RuntimesIn(cfg) - {"drawbridge"}
                     && ("runtimes" in out <==> RuntimesIn(cfg) - {"drawbridge"} != map[]))
               && (if st.setDefault && Defaults(cfg)
                   then ("default-runtime" in out <==> st.prevDefault != "")
                        && (st.prevDefault != "" ==> out["default-runtime"] == Text(st.prevDefault, 0))
                   else ("default-runtime" in out <==> "default-runtime" in cfg)
                        && ("default-runtime" in cfg ==> out["default-runtime"] == cfg["default-runtime"]))
  {
    assert "runtimes" != "default-runtime" by { assert |"runtimes"| == 8; }
  }

  predicate Defaults(cfg: Config) {
    "default-runtime" in cfg && cfg["default-runtime"].Text? && cfg["default-runtime"].s == "drawbridge"
  }

  /** Restoring: a file that is what was written comes back as the bytes it was, or goes if there was none. */
  lemma RevertsExactly(current: File, st: Provision)
    requires st.version <= 1
    ensures current.None? ==> RevertOf(current, st) == Reverted(None, false, false)
    ensures current.Some? && current == st.after ==>
            RevertOf(current, st) == if st.existed then Reverted(st.before, false, st.before != current) else Reverted(None, true, true)
  {
  }

  /** `down` without a record, or one that cannot undo, leaves the file; otherwise it writes or removes what the undoing says. */
  lemma DownDoes(g: Guest)
    ensures g.record.None? || RevertOf(g.file, g.record.value).RevertFailed? ==> Down(g) == g.file
    ensures g.record.Some? && RevertOf(g.file, g.record.value).Reverted? ==>
            var r := RevertOf(g.file, g.record.value);
            Down(g) == if r.remove then None else if r.changed then r.out else g.file
  {
  }

  /** `up` writes when the merge changes something, and records only what it did first. */
  lemma UpDoes(g: Guest, path: string)
    ensures !Mergeable(g.file) ==> Up(g, path) == g
    ensures Mergeable(g.file) ==>
            && Up(g, path).file == Some(MergeOf(g.file, path).content)
            && Up(g, path).record == if g.record.Some? then g.record else Some(MergeOf(g.file, path).st)
  {
    MergesExactly(g.file, path);
  }
}
