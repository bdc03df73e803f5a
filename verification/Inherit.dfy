/**
 * What a re-install keeps from the daemon already installed (cmd/drawbridge/inherit.go),
 * and when keeping everything changes nothing.
 */
module Inherit {
  import opened Options
  import opened VmRefs
  import opened PlistRoundTrip

  const DEFAULT_VM := "drawbridge"
  const DEFAULT_SKIP_TEXT := "22,323"

  datatype Name = Vm | Udp | Skip | Subnet | Mac | Secret {
    /** The flag as the plist spells it. */
    function Flag(): string {
      match this
      case Vm => "-vm"
      case Udp => "-udp"
      case Skip => "-skip"
      case Subnet => "-vm-subnet"
      case Mac => "-vm-mac"
      case Secret => "-secret-file"
    }

    /** -vm-mac pins one guest, -secret-file is one VM's secret. */
    predicate PerVM() { Mac? || Secret? }
  }

  const MAC_WIDE: seq<Name> := [Udp, Skip, Subnet]
  const PER_VM: seq<Name> := [Mac, Secret]
  const ALL: seq<Name> := [Vm, Udp, Skip, Subnet, Mac, Secret]

  datatype Values = Values(vm: string, mac: string, subnet: string, udp: string, skip: string, secretFile: string) {
    function At(name: Name): string {
      match name
      case Vm => vm
      case Udp => udp
      case Skip => skip
      case Subnet => subnet
      case Mac => mac
      case Secret => secretFile
    }

    function Set(name: Name, v: string): Values {
      match name
      case Vm => this.(vm := v)
      case Udp => this.(udp := v)
      case Skip => this.(skip := v)
      case Subnet => this.(subnet := v)
      case Mac => this.(mac := v)
      case Secret => this.(secretFile := v)
    }
  }

  datatype Note =
    | Keeping(name: Name, value: string)
    | Dropping(name: Name, value: string)
    | NotKeeping(name: Name, value: string)

  datatype Inherited = Inherited(
    flags: Values, notes: seq<Note>, from: set<Name>,
    installed: bool, prevVM: string, prevTarget: string, prevAgent: string, sameVM: bool)

  type Installed = map<string, string>

  predicate SameVM(a: string, b: string) { ParseRef(a).Some? && ParseRef(a) == ParseRef(b) }

  function Prev(prev: Installed, name: Name): Option<string> { Get(prev, name.Flag()) }

  function OrEmpty(v: Option<string>): string { if v.Some? then v.value else "" }

  /** A plist with no -vm runs the daemon's default VM. */
  function TargetOf(prev: Installed): string {
    var vm := OrEmpty(Prev(prev, Vm));
    if vm == "" then DEFAULT_VM else vm
  }

  /** An installed endpoint pin; auto is none. */
  function PinOf(prev: Installed): string {
    var agent := OrEmpty(Get(prev, "-agent"));
    if agent == "auto" then "" else agent
  }

  // ---- what the merge is -----------------------------------------------------------

  function VmAfter(f: Values, given: set<Name>, prev: Installed): string {
    var vm := OrEmpty(Prev(prev, Vm));
    if Vm !in given && vm != "" then vm else f.vm
  }

  /**
   * A value is kept when the plist has one and the flag was not given; an empty one only
   * where empty means something, and one VM's only for that VM.
   */
  predicate Kept(name: Name, f: Values, given: set<Name>, prev: Installed) {
    var v := Prev(prev, name);
    && v.Some? && name !in given
    && (name.Vm? || name.PerVM() ==> v.value != "")
    && (name.PerVM() ==> SameVM(TargetOf(prev), VmAfter(f, given, prev)))
  }

  function ValueAfter(name: Name, f: Values, given: set<Name>, prev: Installed): string {
    if Kept(name, f, given, prev) then Prev(prev, name).value else f.At(name)
  }

  function NotesOn(name: Name, f: Values, given: set<Name>, prev: Installed): seq<Note> {
    var v := OrEmpty(Prev(prev, name));
    if Kept(name, f, given, prev) then [Keeping(name, v)]
    else if name.Vm? || v == "" then []
    else if name in given then (if f.At(name) == "" then [Dropping(name, v)] else [])
    else [NotKeeping(name, v)]
  }

  function AllNotes(names: seq<Name>, f: Values, given: set<Name>, prev: Installed): seq<Note> {
    if names == [] then []
    else AllNotes(names[..|names| - 1], f, given, prev) + NotesOn(names[|names| - 1], f, given, prev)
  }

  /** The merge after the flags in `names` have been looked at. */
  ghost predicate Merged(names: seq<Name>, f: Values, given: set<Name>, prev: Installed, flags: Values, notes: seq<Note>, from: set<Name>) {
    && (forall n :: flags.At(n) == if n in names then ValueAfter(n, f, given, prev) else f.At(n))
    && notes == AllNotes(names, f, given, prev)
    && (forall n :: n in from <==> n in names && Kept(n, f, given, prev))
  }

  lemma SetAt(flags: Values, name: Name, v: string, n: Name)
    ensures flags.Set(name, v).At(n) == if n == name then v else flags.At(n)
  {
  }

  lemma NotesMore(names: seq<Name>, name: Name, f: Values, given: set<Name>, prev: Installed)
    ensures AllNotes(names + [name], f, given, prev) == AllNotes(names, f, given, prev) + NotesOn(name, f, given, prev)
  {
  }

  /** One more flag: its value, its note, and whether it came from the plist. */
  lemma MergeOne(names: seq<Name>, name: Name, f: Values, given: set<Name>, prev: Installed,
                 flags: Values, notes: seq<Note>, from: set<Name>, flags': Values, from': set<Name>)
    requires Merged(names, f, given, prev, flags, notes, from) && name !in names
    requires Kept(name, f, given, prev) ==> flags' == flags.Set(name, Prev(prev, name).value) && from' == from + {name}
    requires !Kept(name, f, given, prev) ==> flags' == flags && from' == from
    ensures Merged(names + [name], f, given, prev, flags', notes + NotesOn(name, f, given, prev), from')
  {
    NotesMore(names, name, f, given, prev);
    var more := names + [name];
    assert forall n :: n in more <==> n in names || n == name;
    forall n ensures flags'.At(n) == if n in more then ValueAfter(n, f, given, prev) else f.At(n) {
      assert flags.At(n) == if n in names then ValueAfter(n, f, given, prev) else f.At(n);
      SetAt(flags, name, OrEmpty(Prev(prev, name)), n);
    }
  }

  // ---- the code ----------------------------------------------------------------------

  method InheritInstall(f: Values, given: set<Name>, prev: Option<Installed>) returns (h: Inherited)
    ensures prev.None? ==> h == Inherited(f, [], {}, false, "", "", "", false)
    ensures prev.Some? ==>
      && Merged(ALL, f, given, prev.value, h.flags, h.notes, h.from)
      && h.installed && h.prevVM == OrEmpty(Prev(prev.value, Vm)) && h.prevTarget == TargetOf(prev.value)
      && h.prevAgent == PinOf(prev.value) && h.sameVM == SameVM(h.prevTarget, h.flags.vm)
  {
    if prev.None? {
      return Inherited(f, [], {}, false, "", "", "", false);
    }
    var p := prev.value;
    var flags, notes: seq<Note>, from: set<Name> := f, [], {};
    ghost var done: seq<Name> := [];
    var prevVM := OrEmpty(Prev(p, Vm));
    if Vm !in given && prevVM != "" {
      flags, notes, from := flags.Set(Vm, prevVM), [Keeping(Vm, prevVM)], {Vm};
    }
    VmMerged(f, given, p, flags, notes, from);
    done := [Vm];
    var prevTarget := if prevVM == "" then DEFAULT_VM else prevVM;
    var same := SameVM(prevTarget, flags.vm);
    for i := 0 to |MAC_WIDE|
      invariant done == ALL[..1 + i] && Merged(done, f, given, p, flags, notes, from)
    {
      NextName(i + 1);
      flags, notes, from := MacWide(done, MAC_WIDE[i], f, given, p, flags, notes, from);
      done := done + [MAC_WIDE[i]];
    }
    for i := 0 to |PER_VM|
      invariant done == ALL[..4 + i] && Merged(done, f, given, p, flags, notes, from)
    {
      NextName(i + 4);
      flags, notes, from := OneVMs(done, PER_VM[i], f, given, p, same, flags, notes, from);
      done := done + [PER_VM[i]];
    }
    assert done == ALL;
    NamesAreAll(Vm);
    assert flags.vm == flags.At(Vm);
    h := Inherited(flags, notes, from, true, prevVM, prevTarget, PinOf(p), same);
  }

  lemma NextName(k: nat)
    requires 1 <= k < 6
    ensures ALL[k] == (if k < 4 then MAC_WIDE[k - 1] else PER_VM[k - 4])
    ensures ALL[..k + 1] == ALL[..k] + [ALL[k]] && ALL[k] !in ALL[..k]
  {
  }

  lemma VmMerged(f: Values, given: set<Name>, prev: Installed, flags: Values, notes: seq<Note>, from: set<Name>)
    requires var vm := OrEmpty(Prev(prev, Vm));
             if Vm !in given && vm != "" then flags == f.Set(Vm, vm) && notes == [Keeping(Vm, vm)] && from == {Vm}
             else flags == f && notes == [] && from == {}
    ensures Merged([Vm], f, given, prev, flags, notes, from) && flags.vm == VmAfter(f, given, prev)
  {
  }

  /** The subnet and the port lists are the Mac's: they survive a change of VM. */
  method MacWide(ghost done: seq<Name>, name: Name, f: Values, given: set<Name>, prev: Installed,
                 flags: Values, notes: seq<Note>, from: set<Name>)
    returns (flags': Values, notes': seq<Note>, from': set<Name>)
    requires Merged(done, f, given, prev, flags, notes, from) && name !in done && name in MAC_WIDE
    ensures Merged(done + [name], f, given, prev, flags', notes', from')
  {
    flags', notes', from' := flags, notes, from;
    var v := Prev(prev, name);
    assert flags.At(name) == f.At(name);
    if v.None? {
    } else if name !in given {
      flags', notes', from' := flags.Set(name, v.value), notes + [Keeping(name, v.value)], from + {name};
    } else if flags.At(name) == "" && v.value != "" {
      notes' := notes + [Dropping(name, v.value)];
    }
    assert notes + [] == notes;
    MergeOne(done, name, f, given, prev, flags, notes, from, flags', from');
  }

  /** The pin and the secret are one VM's: kept only while the VM is the same one. */
  method OneVMs(ghost done: seq<Name>, name: Name, f: Values, given: set<Name>, prev: Installed, same: bool,
                flags: Values, notes: seq<Note>, from: set<Name>)
    returns (flags': Values, notes': seq<Note>, from': set<Name>)
    requires Merged(done, f, given, prev, flags, notes, from) && name !in done && name in PER_VM
    requires same == SameVM(TargetOf(prev), VmAfter(f, given, prev))
    ensures Merged(done + [name], f, given, prev, flags', notes', from')
  {
    flags', notes', from' := flags, notes, from;
    var v := Prev(prev, name);
    assert flags.At(name) == f.At(name);
    if v.None? || v.value == "" {
    } else if name in given {
      if flags.At(name) == "" {
        notes' := notes + [Dropping(name, v.value)];
      }
    } else if same {
      flags', notes', from' := flags.Set(name, v.value), notes + [Keeping(name, v.value)], from + {name};
    } else {
      notes' := notes + [NotKeeping(name, v.value)];
    }
    assert notes + [] == notes;
    MergeOne(done, name, f, given, prev, flags, notes, from, flags', from');
  }

  // ---- what it never does ------------------------------------------------------------------

  /** A flag that was given wins, whatever the plist holds, the empty value included. */
  lemma GivenWins(f: Values, given: set<Name>, prev: Installed, flags: Values, notes: seq<Note>, from: set<Name>, name: Name)
    requires Merged(ALL, f, given, prev, flags, notes, from) && name in given
    ensures flags.At(name) == f.At(name) && name !in from
  {
  }

  lemma NamesAreAll(name: Name)
    ensures name in ALL
  {
  }

  /** One VM's pin or secret is never carried to another VM. */
  lemma NeverAnotherVMs(f: Values, given: set<Name>, prev: Installed, flags: Values, notes: seq<Note>, from: set<Name>, name: Name)
    requires Merged(ALL, f, given, prev, flags, notes, from) && name.PerVM()
    requires !SameVM(TargetOf(prev), flags.vm)
    ensures flags.At(name) == f.At(name) && name !in from
  {
    NamesAreAll(name);
    NamesAreAll(Vm);
    assert flags.vm == flags.At(Vm) == VmAfter(f, given, prev);
  }

  // ---- what it does, flag by flag ----------------------------------------------------------

  /** The VM the installed daemon serves, one without a -vm the daemon's own default. */
  function InstalledVM(prev: Installed): string {
    if "-vm" in prev && prev["-vm"] != "" then prev["-vm"] else "drawbridge"
  }

  /** The flags whose values are the Mac's, and those whose values are one VM's. */
  predicate IsTheMacs(name: Name, flag: string) {
    (name == Udp && flag == "-udp") || (name == Skip && flag == "-skip") || (name == Subnet && flag == "-vm-subnet")
  }

  predicate IsOneVMs(name: Name, flag: string) {
    (name == Mac && flag == "-vm-mac") || (name == Secret && flag == "-secret-file")
  }

  /** Mac-wide values survive a change of VM, empty ones included; only a flag given replaces them. */
  lemma MacWideSurvive(f: Values, given: set<Name>, prev: Installed, flags: Values, notes: seq<Note>, from: set<Name>,
                       name: Name, flag: string)
    requires Merged(ALL, f, given, prev, flags, notes, from) && IsTheMacs(name, flag)
    ensures name in from <==> name !in given && flag in prev
    ensures flags.At(name) == if name !in given && flag in prev then prev[flag] else f.At(name)
  {
    NamesAreAll(name);
  }

  /** One VM's values stay exactly while the VM does, spellings aside, and the VM itself is kept unless given. */
  lemma OneVMsStay(f: Values, given: set<Name>, prev: Installed, flags: Values, notes: seq<Note>, from: set<Name>,
                   name: Name, flag: string)
    requires Merged(ALL, f, given, prev, flags, notes, from) && IsOneVMs(name, flag)
    ensures flags.vm == if Vm !in given && "-vm" in prev && prev["-vm"] != "" then prev["-vm"] else f.vm
    ensures name in from <==>
            && name !in given && flag in prev && prev[flag] != ""
            && ParseRef(InstalledVM(prev)).Some? && ParseRef(InstalledVM(prev)) == ParseRef(flags.vm)
    ensures flags.At(name) == if name in from then prev[flag] else f.At(name)
  {
    NamesAreAll(name);
    NamesAreAll(Vm);
    assert flags.vm == flags.At(Vm) == VmAfter(f, given, prev);
    assert TargetOf(prev) == InstalledVM(prev);
  }

  lemma {:induction false} NotesAre(names: seq<Name>, f: Values, given: set<Name>, prev: Installed, note: Note)
    ensures note in AllNotes(names, f, given, prev) <==> exists n :: n in names && note in NotesOn(n, f, given, prev)
  {
    if names != [] {
      var init, last := names[..|names| - 1], names[|names| - 1];
      NotesAre(init, f, given, prev, note);
      assert names == init + [last];
    }
  }

  /** Nothing is lost in silence: an installed value stays, or a note says it went, or a value given stands in its place. */
  lemma NothingLostInSilence(f: Values, given: set<Name>, prev: Installed, flags: Values, notes: seq<Note>, from: set<Name>, name: Name)
    requires Merged(ALL, f, given, prev, flags, notes, from) && name != Vm
    requires name.Flag() in prev && prev[name.Flag()] != ""
    ensures var v := prev[name.Flag()];
            if name in from then Keeping(name, v) in notes && flags.At(name) == v
            else if name !in given then NotKeeping(name, v) in notes
            else if f.At(name) == "" then Dropping(name, v) in notes
            else flags.At(name) == f.At(name) != ""
  {
    NamesAreAll(name);
    var v := prev[name.Flag()];
    NotesAre(ALL, f, given, prev, Keeping(name, v));
    NotesAre(ALL, f, given, prev, NotKeeping(name, v));
    NotesAre(ALL, f, given, prev, Dropping(name, v));
  }

  lemma NoteIsTrue(name: Name, f: Values, given: set<Name>, prev: Installed, note: Note)
    requires note in NotesOn(name, f, given, prev)
    ensures note.name == name && Prev(prev, name) == Some(note.value)
    ensures note.Keeping? <==> Kept(name, f, given, prev)
    ensures note.Dropping? ==> name in given && f.At(name) == ""
    ensures note.NotKeeping? ==> name !in given && (name == Mac || name == Secret)
  {
  }

  /** And nothing is said that is not so. */
  lemma NotesAreTrue(f: Values, given: set<Name>, prev: Installed, flags: Values, notes: seq<Note>, from: set<Name>, note: Note)
    requires Merged(ALL, f, given, prev, flags, notes, from) && note in notes
    ensures note.name.Flag() in prev && prev[note.name.Flag()] == note.value
    ensures note.Keeping? <==> note.name in from
    ensures note.Keeping? ==> flags.At(note.name) == note.value
    ensures note.Dropping? ==> note.name in given && flags.At(note.name) == ""
    ensures note.NotKeeping? ==> note.name !in given && (note.name == Mac || note.name == Secret)
  {
    NotesAre(ALL, f, given, prev, note);
    var n :| n in ALL && note in NotesOn(n, f, given, prev);
    NoteIsTrue(n, f, given, prev, note);
    assert flags.At(n) == ValueAfter(n, f, given, prev);
  }

  /** A pinned endpoint is anything the plist says but auto. */
  lemma PinIs(prev: Installed)
    ensures PinOf(prev) == if "-agent" in prev && prev["-agent"] != "auto" then prev["-agent"] else ""
  {
  }
}
