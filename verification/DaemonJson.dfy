/**
 * The daemon.json edit of `up --oci` and its undoing (internal/guestbin/provision.go):
 * exact while the file is what was written, key by key once somebody edited it.
 */
module DaemonJson {
  import opened Options

  const RUNTIME_NAME := "drawbridge"
  const RUNTIMES_KEY := "runtimes"
  const DEFAULT_KEY := "default-runtime"
  const STATE_VERSION := 1

  /** A raw JSON value: spelling and order are what re-indenting keeps, 0 what Marshal writes. */
  datatype Raw =
    | Null
    | Text(s: string, spelling: nat)
    | Object(fields: map<string, Raw>, order: nat)
    | Other(id: nat)

  type Config = map<string, Raw>

  /** A file's bytes: layout is the whitespace and order of the top level, 0 encodeObject's own. */
  datatype Content = Blank(id: nat) | Malformed(id: nat) | NullDocument(id: nat) | Document(config: Config, layout: nat)

  /** None is a missing file. */
  type File = Option<Content>

  /** `after` stands for the recorded sha256, taken as injective. */
  datatype Provision = Provision(
    version: nat, path: string, addedRuntime: bool, setDefault: bool, prevDefault: string,
    existed: bool, before: File, after: File)

  datatype MergeResult = MergeFailed | Merged(content: Content, st: Provision, changed: bool)

  datatype RevertResult = RevertFailed | Reverted(out: File, remove: bool, changed: bool)

  // ---- decoding -----------------------------------------------------------------

  function DecodeObject(f: File): Option<Config> {
    match f
    case None => Some(map[])
    case Some(Document(config, _)) => Some(config)
    case Some(_) => None
  }

  function DecodeNested(cfg: Config, key: string): Option<Config> {
    if key !in cfg || cfg[key].Null? then Some(map[])
    else if cfg[key].Object? then Some(cfg[key].fields)
    else None
  }

  function EncodeObject(cfg: Config): Content { Document(cfg, 0) }

  /** jsonEqual against a string. */
  predicate IsText(v: Raw, s: string) { v.Text? && v.s == s }

  /** jsonEqual against {"path": path}. */
  predicate IsRuntime(v: Raw, path: string) {
    v.Object? && v.fields.Keys == {"path"} && IsText(v.fields["path"], path)
  }

  function Runtime(path: string): Raw { Object(map["path" := Text(path, 0)], 0) }

  // ---- what the two do -------------------------------------------------------------

  predicate Registers(runtimes: Config, path: string) {
    RUNTIME_NAME in runtimes && IsRuntime(runtimes[RUNTIME_NAME], path)
  }

  predicate IsDefault(cfg: Config) { DEFAULT_KEY in cfg && IsText(cfg[DEFAULT_KEY], RUNTIME_NAME) }

  /** A default-runtime that can be recorded: absent, null, or a string. */
  predicate Recordable(cfg: Config) {
    DEFAULT_KEY in cfg ==> cfg[DEFAULT_KEY].Text? || cfg[DEFAULT_KEY].Null?
  }

  function PrevDefault(cfg: Config): string {
    if !IsDefault(cfg) && DEFAULT_KEY in cfg && cfg[DEFAULT_KEY].Text? then cfg[DEFAULT_KEY].s else ""
  }

  function MergedConfig(cfg: Config, runtimes: Config, path: string): Config {
    var added := if Registers(runtimes, path) then runtimes else runtimes[RUNTIME_NAME := Runtime(path)];
    var registered := cfg[RUNTIMES_KEY := Object(added, 0)];
    if IsDefault(cfg) then registered else registered[DEFAULT_KEY := Text(RUNTIME_NAME, 0)]
  }

  function MergeOf(existing: File, path: string): MergeResult {
    match DecodeObject(existing)
    case None => MergeFailed
    case Some(cfg) =>
      match DecodeNested(cfg, RUNTIMES_KEY)
      case None => MergeFailed
      case Some(runtimes) =>
        if !Recordable(cfg) then MergeFailed
        else
          var added, set_ := RUNTIME_NAME !in runtimes, !IsDefault(cfg);
          var merged := EncodeObject(MergedConfig(cfg, runtimes, path));
          var keep := existing.Some? && (existing.value == merged || (!added && !set_));
          var content := if keep then existing.value else merged;
          Merged(content,
                 Provision(STATE_VERSION, path, added, set_, PrevDefault(cfg), existing.Some?, existing, Some(content)),
                 !keep)
  }

  function WithoutRuntime(cfg: Config, runtimes: Config): Config {
    var rest := runtimes - {RUNTIME_NAME};
    if rest == map[] then cfg - {RUNTIMES_KEY} else cfg[RUNTIMES_KEY := Object(rest, 0)]
  }

  function WithDefault(cfg: Config, prev: string): Config {
    if !IsDefault(cfg) then cfg
    else if prev == "" then cfg - {DEFAULT_KEY}
    else cfg[DEFAULT_KEY := Text(prev, 0)]
  }

  /** The surgical path, on the decoded file; None when runtimes is no object. */
  function Unmerged(cfg: Config, st: Provision): Option<Config> {
    var runtimes := DecodeNested(cfg, RUNTIMES_KEY);
    if st.addedRuntime && runtimes.None? then None
    else
      var dropped := if st.addedRuntime then WithoutRuntime(cfg, runtimes.value) else cfg;
      Some(if st.setDefault then WithDefault(dropped, st.prevDefault) else dropped)
  }

  function RevertOf(current: File, st: Provision): RevertResult {
    if st.version > STATE_VERSION then RevertFailed
    else if current.None? then Reverted(None, false, false)
    else if current == st.after then
      if !st.existed then Reverted(None, true, true)
      else Reverted(st.before, false, st.before != current)
    else
      match DecodeObject(current)
      case None => RevertFailed
      case Some(cfg) =>
        match Unmerged(cfg, st)
        case None => RevertFailed
        case Some(out) => Reverted(Some(EncodeObject(out)), false, Some(EncodeObject(out)) != current)
  }

  // ---- the code -------------------------------------------------------------------

  method Merge(existing: File, path: string) returns (r: MergeResult)
    ensures r == MergeOf(existing, path)
  {
    var st := Provision(STATE_VERSION, path, false, false, "", existing.Some?, existing, None);
    var decoded := DecodeObject(existing);
    if decoded.None? {
      return MergeFailed;
    }
    var cfg := decoded.value;
    var nested := DecodeNested(cfg, RUNTIMES_KEY);
    if nested.None? {
      return MergeFailed;
    }
    var runtimes := nested.value;
    if RUNTIME_NAME !in runtimes || !IsRuntime(runtimes[RUNTIME_NAME], path) {
      st := st.(addedRuntime := RUNTIME_NAME !in runtimes);
      runtimes := runtimes[RUNTIME_NAME := Runtime(path)];
    }
    cfg := cfg[RUNTIMES_KEY := Object(runtimes, 0)];
    if DEFAULT_KEY !in cfg || !IsText(cfg[DEFAULT_KEY], RUNTIME_NAME) {
      st := st.(setDefault := true);
      if DEFAULT_KEY in cfg {
        if !cfg[DEFAULT_KEY].Text? && !cfg[DEFAULT_KEY].Null? {
          return MergeFailed;
        }
        st := st.(prevDefault := if cfg[DEFAULT_KEY].Text? then cfg[DEFAULT_KEY].s else "");
      }
      cfg := cfg[DEFAULT_KEY := Text(RUNTIME_NAME, 0)];
    }
    var merged := EncodeObject(cfg);
    st := st.(after := Some(merged));
    if existing == Some(merged) {
      return Merged(merged, st, false);
    }
    if existing.Some? && !st.addedRuntime && !st.setDefault {
      st := st.(after := existing);
      return Merged(existing.value, st, false);
    }
    return Merged(merged, st, true);
  }

  method Revert(current: File, st: Provision) returns (r: RevertResult)
    ensures r == RevertOf(current, st)
  {
    if st.version > STATE_VERSION {
      return RevertFailed;
    }
    if current.None? {
      return Reverted(None, false, false);
    }
    if st.after.Some? && current == st.after {
      if !st.existed {
        return Reverted(None, true, true);
      }
      return Reverted(st.before, false, st.before != current);
    }
    var decoded := DecodeObject(current);
    if decoded.None? {
      return RevertFailed;
    }
    var cfg := decoded.value;
    if st.addedRuntime {
      var nested := DecodeNested(cfg, RUNTIMES_KEY);
      if nested.None? {
        return RevertFailed;
      }
      var runtimes := nested.value - {RUNTIME_NAME};
      if |runtimes| == 0 {
        cfg := cfg - {RUNTIMES_KEY};
      } else {
        cfg := cfg[RUNTIMES_KEY := Object(runtimes, 0)];
      }
    }
    if st.setDefault {
      if DEFAULT_KEY in cfg && IsText(cfg[DEFAULT_KEY], RUNTIME_NAME) {
        if st.prevDefault == "" {
          cfg := cfg - {DEFAULT_KEY};
        } else {
          cfg := cfg[DEFAULT_KEY := Text(st.prevDefault, 0)];
        }
      }
    }
    var out := EncodeObject(cfg);
    return Reverted(Some(out), false, Some(out) != current);
  }

  // ---- any number of ups, then a down --------------------------------------------------

  /** The guest: the file, and the record of the first run that got to write one. */
  datatype Guest = Guest(file: File, record: Option<Provision>)

  /** `up --oci`: a failed merge changes nothing; a record is only written when there is none. */
  function Up(g: Guest, path: string): Guest {
    match MergeOf(g.file, path)
    case MergeFailed => g
    case Merged(content, st, changed) =>
      Guest(if changed then Some(content) else g.file, if g.record.None? then Some(st) else g.record)
  }

  function Ups(g: Guest, paths: seq<string>): Guest {
    if paths == [] then g else Up(Ups(g, paths[..|paths| - 1]), paths[|paths| - 1])
  }

  /** `down`: what the file is left as. */
  function Down(g: Guest): File {
    if g.record.None? then g.file
    else
      match RevertOf(g.file, g.record.value)
      case RevertFailed => g.file
      case Reverted(out, remove, changed) => if !changed then g.file else if remove then None else out
  }

  /** A merge that succeeded leaves a file no later merge changes, whatever path that one asks for. */
  lemma MergeSettles(existing: File, path: string, again: string)
    requires MergeOf(existing, path).Merged?
    ensures MergeOf(Some(MergeOf(existing, path).content), again).Merged?
    ensures !MergeOf(Some(MergeOf(existing, path).content), again).changed
  {
  }

  /** Either nothing has worked yet, or the file is what the recorded run left and stays that. */
  ghost predicate Recorded(original: File, g: Guest) {
    if g.record.None? then g.file == original
    else
      && g.record.value.version == STATE_VERSION && g.record.value.before == original
      && g.record.value.existed == original.Some? && g.file.Some? && g.record.value.after == g.file
      && (forall again :: MergeOf(g.file, again).Merged? && !MergeOf(g.file, again).changed)
  }

  lemma {:induction false} UpsRecorded(original: File, paths: seq<string>)
    ensures Recorded(original, Ups(Guest(original, None), paths))
  {
    if paths != [] {
      UpsRecorded(original, paths[..|paths| - 1]);
      var g, path := Ups(Guest(original, None), paths[..|paths| - 1]), paths[|paths| - 1];
      if g.record.None? && MergeOf(original, path).Merged? {
        forall again {
          MergeSettles(original, path, again);
        }
      }
    }
  }

  /** Any number of ups, with any runtime paths, and then a down: the original bytes, or no file again. */
  lemma {:induction false} DownRestores(original: File, paths: seq<string>)
    ensures Down(Ups(Guest(original, None), paths)) == original
  {
    UpsRecorded(original, paths);
  }
}
