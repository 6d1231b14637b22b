/**
 * What one run of `tag dump`, `tag rename` or `tag update` does, as a
 * function of the files on disk and the inputs: each input path is handled
 * by one Step, in input order, and an exception that no `except` clause
 * catches ends the run there. The class in module TagCli carries out the
 * same runs with loops and is proved to agree with RunAll.
 */
module Batch {
  import opened Wrappers
  import opened Text
  import opened Paths
  import opened Tags
  import opened Pattern

  /** The files on disk, by path, and everything printed so far, one element per `print` call. */
  datatype State = State(files: map<string, Store>, out: seq<string>)

  /** An exception that ends the run. */
  datatype Abort =
    | CannotOpen(path: string)                       // mutagen cannot open a file it was asked to load
    | RenameFailed(path: string, reason: FormatError) // `pattern.format(**meta)` raised
    | BadTrackStart(literal: string)                 // `int(args.get('--trackstart') or 1)` raised
    | BadOption(key: string)                         // `v.decode` on a non-string option value

  /** Assignments whose keys are distinct, as in a dict. */
  type DistinctAssignments = a: Assignments | DistinctKeys(a) witness []

  /** The command a run carries out, with everything it reads from its arguments. */
  datatype Command =
    | DumpCmd(pprint: (string, Store) -> string)
    | RenameCmd(pattern: string, dryRun: bool, verbose: bool)
    | UpdateCmd(fields: DistinctAssignments, numbered: bool, start: nat, dryRun: bool, verbose: bool)

  datatype Outcome = Continue(next: State) | Halt(reason: Abort)

  /** The outcome of a run: the state it leaves, and the exception that ended it, if any. */
  datatype Run = Run(final: State, abort: Option<Abort>)

  function SkipNotice(path: string, message: string): string
  {
    "Skipping " + path + ": " + message
  }

  function RenameLine(path: string, filename: string): string
  {
    "'" + path + "'  ==>  '" + filename + "'"
  }

  function UpdateHeader(path: string): string
  {
    "Update tags for " + path + ":"
  }

  /** The `k: v` lines of an update's dry run, one per assignment, in order. */
  function AssignmentLines(fields: Assignments): (lines: seq<string>)
    ensures |lines| == |fields|
    ensures forall j :: 0 <= j < |fields| ==> lines[j] == fields[j].0 + ": " + fields[j].1
  {
    if fields == [] then [] else [fields[0].0 + ": " + fields[0].1] + AssignmentLines(fields[1..])
  }

  /** `shutil.move(src, dst)`: the tag store now lives under `dst`. */
  function Move(files: map<string, Store>, src: string, dst: string): map<string, Store>
    requires src in files
  {
    (files - {src})[dst := files[src]]
  }

  /**
   * After a move the store is found at `dst` and no longer at `src` (unless
   * they are the same path); a file already at `dst` is replaced, and every
   * other file is left as it was.
   */
  lemma MoveSpec(files: map<string, Store>, src: string, dst: string)
    requires src in files
    ensures dst in Move(files, src, dst) && Move(files, src, dst)[dst] == files[src]
    ensures src != dst ==> src !in Move(files, src, dst)
    ensures forall p :: p != src && p != dst ==>
      (p in Move(files, src, dst) <==> p in files) &&
      (p in files ==> Move(files, src, dst)[p] == files[p])
  {
  }

  /** `os.path.join(os.path.dirname(path), filename)`. */
  function RenameTarget(path: string, filename: string): string
  {
    JoinPath(Dirname(path), filename)
  }

  /** The assignments an update applies to the file at zero-based input position `index`. */
  function OptionsAt(cmd: Command, index: nat): DistinctAssignments
    requires cmd.UpdateCmd?
  {
    if cmd.numbered then SetField(cmd.fields, "tracknumber", NatToString(cmd.start + index))
    else cmd.fields
  }

  /** Whether the command prints a notice for a file it skips for its extension. */
  predicate ReportsSkips(cmd: Command)
  {
    cmd.DumpCmd? || cmd.verbose
  }

  /** The handling of the input at zero-based position `index`. */
  function Step(cmd: Command, st: State, index: nat, path: string): Outcome
  {
    match Load(path)
    case Failure(message) =>
      if ReportsSkips(cmd) then Continue(st.(out := st.out + [SkipNotice(path, message)]))
      else Continue(st)
    case Success(_) =>
      if path !in st.files then Halt(CannotOpen(path)) else LoadedStep(cmd, st, index, path)
  }

  /** The handling of an input whose tag store was loaded. */
  function LoadedStep(cmd: Command, st: State, index: nat, path: string): Outcome
    requires path in st.files
  {
    if cmd.DumpCmd? then Continue(st.(out := st.out + [path, cmd.pprint(path, st.files[path])]))
    else if cmd.RenameCmd? then RenameOutcome(cmd, st, path)
    else Continue(Updated(st, path, OptionsAt(cmd, index), cmd.dryRun))
  }

  /** A rename stops at a name it cannot format; otherwise it prints the line and moves the file. */
  function RenameOutcome(cmd: Command, st: State, path: string): Outcome
    requires cmd.RenameCmd? && path in st.files
  {
    match FormatName(cmd.pattern, st.files[path])
    case Failure(e) => Halt(RenameFailed(path, e))
    case Success(name) => Continue(Renamed(st, path, name + Ext(path), cmd.dryRun))
  }

  /** Printing the rename line, then moving the file unless this is a dry run. */
  function Renamed(st: State, path: string, filename: string, dryRun: bool): State
    requires path in st.files
  {
    var printed := st.out + [RenameLine(path, filename)];
    if dryRun then st.(out := printed)
    else State(Move(st.files, path, RenameTarget(path, filename)), printed)
  }

  /** Printing the assignments on a dry run, otherwise applying and saving them. */
  function Updated(st: State, path: string, options: DistinctAssignments, dryRun: bool): State
    requires path in st.files
  {
    if dryRun then st.(out := st.out + [UpdateHeader(path), JoinLines(AssignmentLines(options))])
    else st.(files := st.files[path := ApplyFields(st.files[path], options)])
  }

  /** What handling one input does to the state, given the input's position and path. */
  type Handler = (State, nat, string) -> Outcome

  /** The inputs `paths`, the first of them at position `index`, handled one after another by `handle`. */
  function Drive(handle: Handler, st: State, paths: seq<string>, index: nat): Run
    decreases |paths|
  {
    if paths == [] then Run(st, None)
    else
      match handle(st, index, paths[0])
      case Halt(reason) => Run(st, Some(reason))
      case Continue(next) => Drive(handle, next, paths[1..], index + 1)
  }

  function Handle(cmd: Command): Handler
  {
    (st: State, index: nat, path: string) => Step(cmd, st, index, path)
  }

  /** The command run over the inputs `paths`, the first of them at position `index`. */
  function RunAll(cmd: Command, st: State, paths: seq<string>, index: nat): Run
  {
    Drive(Handle(cmd), st, paths, index)
  }

  lemma DriveStep(handle: Handler, st: State, paths: seq<string>, i: nat)
    requires i < |paths|
    ensures handle(st, i, paths[i]).Continue? ==>
      Drive(handle, st, paths[i..], i) == Drive(handle, handle(st, i, paths[i]).next, paths[i + 1..], i + 1)
    ensures handle(st, i, paths[i]).Halt? ==>
      Drive(handle, st, paths[i..], i) == Run(st, Some(handle(st, i, paths[i]).reason))
  {
    assert paths[i..][0] == paths[i] && paths[i..][1..] == paths[i + 1..];
  }

  /** One more input handled: the run continues from the step's state or stops with its exception. */
  lemma RunStep(cmd: Command, st: State, paths: seq<string>, i: nat)
    requires i < |paths|
    ensures Step(cmd, st, i, paths[i]).Continue? ==>
      RunAll(cmd, st, paths[i..], i) == RunAll(cmd, Step(cmd, st, i, paths[i]).next, paths[i + 1..], i + 1)
    ensures Step(cmd, st, i, paths[i]).Halt? ==>
      RunAll(cmd, st, paths[i..], i) == Run(st, Some(Step(cmd, st, i, paths[i]).reason))
  {
    DriveStep(Handle(cmd), st, paths, i);
  }

  /** The three ways an update handles the input at position `i`, and how the run goes on from there. */
  lemma UpdateRunStep(cmd: Command, st: State, paths: seq<string>, i: nat)
    requires cmd.UpdateCmd? && i < |paths|
    ensures Load(paths[i]).Failure? ==>
      RunAll(cmd, st, paths[i..], i) ==
      RunAll(cmd, if cmd.verbose then st.(out := st.out + [SkipNotice(paths[i], Load(paths[i]).error)]) else st,
             paths[i + 1..], i + 1)
    ensures Load(paths[i]).Success? && paths[i] !in st.files ==>
      RunAll(cmd, st, paths[i..], i) == Run(st, Some(CannotOpen(paths[i])))
    ensures Load(paths[i]).Success? && paths[i] in st.files ==>
      RunAll(cmd, st, paths[i..], i) ==
      RunAll(cmd, Updated(st, paths[i], OptionsAt(cmd, i), cmd.dryRun), paths[i + 1..], i + 1)
  {
    RunStep(cmd, st, paths, i);
  }

  lemma {:induction false} DriveAppend(handle: Handler, st: State, a: seq<string>, b: seq<string>, index: nat)
    ensures Drive(handle, st, a, index).abort.Some? ==>
      Drive(handle, st, a + b, index) == Drive(handle, st, a, index)
    ensures Drive(handle, st, a, index).abort.None? ==>
      Drive(handle, st, a + b, index) == Drive(handle, Drive(handle, st, a, index).final, b, index + |a|)
    decreases |a|
  {
    if a == [] {
      assert a + b == b;
    } else {
      assert (a + b)[0] == a[0];
      assert (a + b)[1..] == a[1..] + b;
      var s := handle(st, index, a[0]);
      if s.Continue? {
        DriveAppend(handle, s.next, a[1..], b, index + 1);
      }
    }
  }

  /**
   * Inputs are handled in order, each once: running `a + b` is running `a`
   * and then, unless `a` ended the run, running `b` from where `a` left off.
   */
  lemma RunAppend(cmd: Command, st: State, a: seq<string>, b: seq<string>, index: nat)
    ensures RunAll(cmd, st, a, index).abort.Some? ==>
      RunAll(cmd, st, a + b, index) == RunAll(cmd, st, a, index)
    ensures RunAll(cmd, st, a, index).abort.None? ==>
      RunAll(cmd, st, a + b, index) == RunAll(cmd, RunAll(cmd, st, a, index).final, b, index + |a|)
  {
    DriveAppend(Handle(cmd), st, a, b, index);
  }

  /**
   * A file skipped for its extension only adds its notice (when the command
   * reports skips): the run goes on with the next input, whose position
   * still counts the skipped one.
   */
  lemma SkipIsolated(cmd: Command, st: State, a: seq<string>, path: string, b: seq<string>, index: nat)
    requires Load(path).Failure?
    requires RunAll(cmd, st, a, index).abort.None?
    ensures var mid := RunAll(cmd, st, a, index).final;
      var notice := if ReportsSkips(cmd) then [SkipNotice(path, Load(path).error)] else [];
      RunAll(cmd, st, a + [path] + b, index) ==
        RunAll(cmd, mid.(out := mid.out + notice), b, index + |a| + 1)
  {
    RunAppend(cmd, st, a, [path] + b, index);
    assert a + [path] + b == a + ([path] + b);
    var mid := RunAll(cmd, st, a, index).final;
    assert ([path] + b)[1..] == b;
    if !ReportsSkips(cmd) {
      assert mid.(out := mid.out + []) == mid;
    }
  }

  /** Whether the command can change files: a rename or update that is not a dry run. */
  predicate Writes(cmd: Command)
  {
    !cmd.DumpCmd? && !cmd.dryRun
  }

  /** A dump, and any dry run, changes no file; every run only appends to the output. */
  lemma {:induction false} ReadOnlyRun(cmd: Command, st: State, paths: seq<string>, index: nat)
    ensures !Writes(cmd) ==> RunAll(cmd, st, paths, index).final.files == st.files
    ensures st.out <= RunAll(cmd, st, paths, index).final.out
    decreases |paths|
  {
    if paths != [] {
      match Step(cmd, st, index, paths[0])
      case Halt(_) =>
      case Continue(next) => ReadOnlyRun(cmd, next, paths[1..], index + 1);
    }
  }

  /** What a dump prints for one input: a skip notice, or the path and the store's summary. */
  function DumpBlock(pprint: (string, Store) -> string, files: map<string, Store>, f: string): seq<string>
    requires Load(f).Success? ==> f in files
  {
    match Load(f)
    case Failure(message) => [SkipNotice(f, message)]
    case Success(_) => [f, pprint(f, files[f])]
  }

  /** What a dump prints for the inputs, given the files on disk. */
  function DumpBlocks(pprint: (string, Store) -> string, files: map<string, Store>, paths: seq<string>): seq<string>
    requires forall j :: 0 <= j < |paths| && Load(paths[j]).Success? ==> paths[j] in files
  {
    if paths == [] then []
    else DumpBlock(pprint, files, paths[0]) + DumpBlocks(pprint, files, paths[1..])
  }

  /**
   * A dump stops only at an input it should load but cannot open;
   * otherwise it prints, for every input in order, either the path and the
   * store's summary or a skip notice, and changes nothing.
   */
  lemma DumpRun(pprint: (string, Store) -> string, st: State, paths: seq<string>, index: nat)
    ensures RunAll(DumpCmd(pprint), st, paths, index).final.files == st.files
    ensures RunAll(DumpCmd(pprint), st, paths, index).abort.None? <==>
      forall j :: 0 <= j < |paths| && Load(paths[j]).Success? ==> paths[j] in st.files
    ensures RunAll(DumpCmd(pprint), st, paths, index).abort.None? ==>
      RunAll(DumpCmd(pprint), st, paths, index).final.out == st.out + DumpBlocks(pprint, st.files, paths)
  {
    ReadOnlyRun(DumpCmd(pprint), st, paths, index);
    DumpCompletes(pprint, st, paths, index);
    if RunAll(DumpCmd(pprint), st, paths, index).abort.None? {
      DumpOutput(pprint, st, paths, index);
    }
  }

  lemma {:induction false} DumpCompletes(pprint: (string, Store) -> string, st: State, paths: seq<string>, index: nat)
    ensures RunAll(DumpCmd(pprint), st, paths, index).abort.None? <==>
      forall j :: 0 <= j < |paths| && Load(paths[j]).Success? ==> paths[j] in st.files
    decreases |paths|
  {
    var cmd := DumpCmd(pprint);
    if paths != [] {
      RunStep(cmd, st, paths, 0);
      assert paths[0..] == paths;
      var s := Step(cmd, st, index, paths[0]);
      if s.Continue? {
        assert s.next.files == st.files;
        DumpCompletes(pprint, s.next, paths[1..], index + 1);
        assert forall j :: 1 <= j < |paths| ==> paths[j] == paths[1..][j - 1];
      }
    }
  }

  lemma {:induction false} DumpOutput(pprint: (string, Store) -> string, st: State, paths: seq<string>, index: nat)
    requires forall j :: 0 <= j < |paths| && Load(paths[j]).Success? ==> paths[j] in st.files
    ensures RunAll(DumpCmd(pprint), st, paths, index).final.out == st.out + DumpBlocks(pprint, st.files, paths)
    decreases |paths|
  {
    var cmd := DumpCmd(pprint);
    if paths == [] {
      assert st.out + [] == st.out;
    } else {
      RunStep(cmd, st, paths, 0);
      assert paths[0..] == paths;
      var s := Step(cmd, st, index, paths[0]);
      var block := DumpBlock(pprint, st.files, paths[0]);
      assert s == Continue(st.(out := st.out + block));
      assert forall j :: 0 <= j < |paths[1..]| ==> paths[1..][j] == paths[j + 1];
      DumpOutput(pprint, s.next, paths[1..], index + 1);
      assert st.out + block + DumpBlocks(pprint, st.files, paths[1..]) ==
        st.out + (block + DumpBlocks(pprint, st.files, paths[1..]));
    }
  }

  /**
   * A rename places the file in its own directory under the rendered name
   * followed by the original extension, provided the rendered name holds no
   * '/'.
   */
  lemma RenameTargetPlacement(path: string, name: string)
    requires '/' !in name
    ensures Dirname(RenameTarget(path, name + Ext(path))) == Dirname(path)
    ensures Basename(RenameTarget(path, name + Ext(path))) == name + Ext(path)
  {
    ExtShape(path);
    var e := Ext(path);
    if e != "" { assert e[0] == '.'; }
    assert '/' !in name + e;
    JoinInSameDirectory(path, name + e);
  }

  /**
   * Handling a file that renames: the printed line is the same with or
   * without --dry-run, and only without it does the tag store move to the
   * target path.
   */
  lemma RenameStep(pattern: string, dryRun: bool, verbose: bool, st: State, index: nat, path: string)
    requires Load(path).Success? && path in st.files
    requires FormatName(pattern, st.files[path]).Success?
    ensures var filename := FormatName(pattern, st.files[path]).value + Ext(path);
      var next := State(Move(st.files, path, RenameTarget(path, filename)), st.out + [RenameLine(path, filename)]);
      Step(RenameCmd(pattern, dryRun, verbose), st, index, path) ==
        Continue(if dryRun then next.(files := st.files) else next)
  {
  }

  /**
   * Nothing catches an error raised while formatting the name: the run ends
   * at that file, nothing is printed or moved for it, and the inputs after
   * it are never reached.
   */
  lemma RenameFails(pattern: string, dryRun: bool, verbose: bool, st: State, path: string, rest: seq<string>, i: nat)
    requires Load(path).Success? && path in st.files
    requires FormatName(pattern, st.files[path]).Failure?
    ensures RunAll(RenameCmd(pattern, dryRun, verbose), st, [path] + rest, i) ==
      Run(st, Some(RenameFailed(path, FormatName(pattern, st.files[path]).error)))
  {
    assert ([path] + rest)[0] == path;
  }

  /** A malformed track or disc number ends a rename, whatever the pattern. */
  lemma RenameStopsAtBadNumber(pattern: string, dryRun: bool, verbose: bool, st: State, path: string, rest: seq<string>, i: nat, key: string)
    requires Load(path).Success? && path in st.files
    requires IsNumberKey(key) && key in st.files[path] && st.files[path][key] != []
    requires BeforeSlash(st.files[path][key][0]) == "" || !AllDigits(BeforeSlash(st.files[path][key][0]))
    ensures RunAll(RenameCmd(pattern, dryRun, verbose), st, [path] + rest, i) ==
      Run(st, Some(RenameFailed(path, TagUnreadable)))
  {
    GetNumberMalformed(st.files[path], key);
    FormatNeedsEveryTag(pattern, st.files[path], key);
    RenameFails(pattern, dryRun, verbose, st, path, rest, i);
  }

  /** A pattern field naming a tag the file does not have ends a rename. */
  lemma RenameStopsAtMissingKey(segs: seq<Segment>, dryRun: bool, verbose: bool, st: State, path: string, rest: seq<string>, i: nat, j: nat)
    requires Load(path).Success? && path in st.files
    requires WellFormed(segs) && forall k :: k in st.files[path] ==> Get(st.files[path], k).Success?
    requires j < |segs| && !segs[j].Lit? && segs[j].name !in st.files[path]
    ensures FormatName(Print(segs), st.files[path]).Failure?
    ensures RunAll(RenameCmd(Print(segs), dryRun, verbose), st, [path] + rest, i) ==
      Run(st, Some(RenameFailed(path, FormatName(Print(segs), st.files[path]).error)))
  {
    FormatSucceeds(segs, st.files[path]);
    RenameFails(Print(segs), dryRun, verbose, st, path, rest, i);
  }

  /**
   * An update that is not a dry run touches only the files it is given:
   * every other path keeps its tag store.
   */
  lemma {:induction false} UpdateUntouched(cmd: Command, st: State, paths: seq<string>, index: nat, other: string)
    requires cmd.UpdateCmd? && other !in paths
    ensures var r := RunAll(cmd, st, paths, index);
      (other in r.final.files <==> other in st.files) &&
      (other in st.files ==> r.final.files[other] == st.files[other])
    decreases |paths|
  {
    if paths != [] {
      var s := Step(cmd, st, index, paths[0]);
      if s.Continue? {
        if !cmd.dryRun {
          UpdateStepFiles(cmd, st, index, paths[0]);
        } else {
          ReadOnlyRun(cmd, st, [paths[0]], index);
        }
        assert other != paths[0];
        assert other in s.next.files <==> other in st.files;
        assert other in st.files ==> s.next.files[other] == st.files[other];
        assert RunAll(cmd, st, paths, index) == RunAll(cmd, s.next, paths[1..], index + 1);
        assert other !in paths[1..];
        UpdateUntouched(cmd, s.next, paths[1..], index + 1, other);
      }
    }
  }

  predicate Distinct(paths: seq<string>)
  {
    forall i, j :: 0 <= i < j < |paths| ==> paths[i] != paths[j]
  }

  /**
   * An update that completes writes, to the file at position `j` of
   * distinct inputs, its original tags with that position's assignments
   * applied.
   */
  lemma {:induction false} UpdateWrites(cmd: Command, st: State, paths: seq<string>, index: nat, j: nat)
    requires cmd.UpdateCmd? && !cmd.dryRun
    requires Distinct(paths) && j < |paths| && Load(paths[j]).Success?
    requires RunAll(cmd, st, paths, index).abort.None?
    ensures paths[j] in st.files
    ensures var r := RunAll(cmd, st, paths, index);
      paths[j] in r.final.files &&
      r.final.files[paths[j]] == ApplyFields(st.files[paths[j]], OptionsAt(cmd, index + j))
    decreases |paths|
  {
    UpdateFirst(cmd, st, paths, index);
    var next := if Load(paths[0]).Success? then st.(files := st.files[paths[0] := ApplyFields(st.files[paths[0]], OptionsAt(cmd, index))])
      else if cmd.verbose then st.(out := st.out + [SkipNotice(paths[0], Load(paths[0]).error)]) else st;
    assert RunAll(cmd, st, paths, index) == RunAll(cmd, next, paths[1..], index + 1);
    if j == 0 {
      assert next.files[paths[0]] == ApplyFields(st.files[paths[0]], OptionsAt(cmd, index));
      assert paths[0] !in paths[1..];
      UpdateUntouched(cmd, next, paths[1..], index + 1, paths[0]);
    } else {
      assert paths[0] != paths[j];
      assert Distinct(paths[1..]) && paths[1..][j - 1] == paths[j];
      UpdateWrites(cmd, next, paths[1..], index + 1, j - 1);
      assert paths[j] in st.files && next.files[paths[j]] == st.files[paths[j]];
      assert index + 1 + (j - 1) == index + j;
    }
  }

  /** The first input of an update, at position `index`: skipped, missing, or updated, and the run goes on. */
  lemma UpdateFirst(cmd: Command, st: State, paths: seq<string>, index: nat)
    requires cmd.UpdateCmd? && paths != []
    ensures Load(paths[0]).Failure? ==>
      RunAll(cmd, st, paths, index) ==
      RunAll(cmd, if cmd.verbose then st.(out := st.out + [SkipNotice(paths[0], Load(paths[0]).error)]) else st,
             paths[1..], index + 1)
    ensures Load(paths[0]).Success? && paths[0] !in st.files ==>
      RunAll(cmd, st, paths, index) == Run(st, Some(CannotOpen(paths[0])))
    ensures Load(paths[0]).Success? && paths[0] in st.files ==>
      RunAll(cmd, st, paths, index) ==
      RunAll(cmd, Updated(st, paths[0], OptionsAt(cmd, index), cmd.dryRun), paths[1..], index + 1)
  {
  }

  /** One input of an update that is not a dry run changes at most that input's store. */
  lemma UpdateStepFiles(cmd: Command, st: State, index: nat, path: string)
    requires cmd.UpdateCmd? && !cmd.dryRun
    ensures Step(cmd, st, index, path).Halt? <==> Load(path).Success? && path !in st.files
    ensures Step(cmd, st, index, path).Continue? ==>
      Step(cmd, st, index, path).next.files ==
        if Load(path).Success? then st.files[path := ApplyFields(st.files[path], OptionsAt(cmd, index))]
        else st.files
  {
  }

  /**
   * With --trackstart=S, an update that completes gives the file at
   * position `j` of distinct inputs the track number S + j, counting
   * skipped inputs too, and keeps every tag it does not assign.
   */
  lemma UpdateNumbers(cmd: Command, st: State, paths: seq<string>, j: nat)
    requires cmd.UpdateCmd? && !cmd.dryRun && cmd.numbered
    requires Distinct(paths) && j < |paths| && Load(paths[j]).Success?
    requires RunAll(cmd, st, paths, 0).abort.None?
    ensures paths[j] in st.files
    ensures var r := RunAll(cmd, st, paths, 0);
      paths[j] in r.final.files &&
      "tracknumber" in r.final.files[paths[j]] &&
      r.final.files[paths[j]]["tracknumber"] == [NatToString(cmd.start + j)] &&
      forall k :: k in st.files[paths[j]] && k != "tracknumber" && FieldValue(cmd.fields, k).None? ==>
        k in r.final.files[paths[j]] && r.final.files[paths[j]][k] == st.files[paths[j]][k]
  {
    UpdateWrites(cmd, st, paths, 0, j);
    var opts := OptionsAt(cmd, j);
    var before := st.files[paths[j]];
    var after := ApplyFields(before, opts);
    ApplyFieldsSpec(before, opts);
    var r := RunAll(cmd, st, paths, 0);
    assert r.final.files[paths[j]] == after;
    assert FieldValue(opts, "tracknumber") == Some(NatToString(cmd.start + j));
    assert "tracknumber" in after && after["tracknumber"] == [NatToString(cmd.start + j)];
    forall k | k in before && k != "tracknumber" && FieldValue(cmd.fields, k).None?
      ensures k in after && after[k] == before[k]
    {
      assert FieldValue(opts, k) == FieldValue(cmd.fields, k);
    }
  }

  /**
   * A dry-run update of a file prints the header and then exactly one
   * `k: v` line per assignment; with no assignment it prints an empty line.
   */
  lemma UpdateDryRunLines(cmd: Command, st: State, index: nat, path: string)
    requires cmd.UpdateCmd? && cmd.dryRun
    requires Load(path).Success? && path in st.files
    requires NoNewlines(AssignmentLines(OptionsAt(cmd, index)))
    ensures var next := Step(cmd, st, index, path).next;
      && next.files == st.files
      && |next.out| == |st.out| + 2
      && next.out[|st.out|] == UpdateHeader(path)
      && SplitLines(next.out[|st.out| + 1]) ==
        (if OptionsAt(cmd, index) == [] then [""] else AssignmentLines(OptionsAt(cmd, index)))
  {
    var lines := AssignmentLines(OptionsAt(cmd, index));
    if lines != [] {
      SplitJoinLines(lines);
    }
  }

  /** The value docopt holds for an option: absent, a string, or a switch. */
  datatype ArgValue = Null | Given(s: string) | Switch(on: bool)

  /** `args.get(key)`; docopt's dictionary holds each key once. */
  function Lookup(items: seq<(string, ArgValue)>, key: string): ArgValue
  {
    if items == [] then Null
    else if items[0].0 == key then items[0].1
    else Lookup(items[1..], key)
  }

  /** Python truthiness of an option value. */
  predicate Truthy(v: ArgValue)
  {
    match v
    case Null => false
    case Given(s) => s != ""
    case Switch(on) => on
  }

  /** The options update's inner `iter` leaves out by name. */
  predicate IsControl(key: string)
  {
    key == "--dry-run" || key == "--trackstart" || key == "--verbose"
  }

  predicate IsLongOption(key: string)
  {
    |key| >= 2 && key[..2] == "--"
  }

  function KeysOf<V>(items: seq<(string, V)>): set<string>
  {
    set j | 0 <= j < |items| :: items[j].0
  }

  /**
   * `dict(iter(args))`: every non-null `--name` option other than the
   * control options, named without its `--`. A switch reaching
   * `v.decode('utf-8')` raises; the failure names its key.
   */
  function OptionFields(items: seq<(string, ArgValue)>): (r: Result<Assignments, string>)
    requires DistinctKeys(items)
    ensures r.Success? ==> DistinctKeys(r.value)
    ensures r.Success? ==> forall m :: 0 <= m < |r.value| ==> "--" + r.value[m].0 in KeysOf(items)
  {
    if items == [] then Success([])
    else
      var (key, v) := items[0];
      assert DistinctKeys(items[1..]);
      assert KeysOf(items[1..]) <= KeysOf(items) && key !in KeysOf(items[1..]) by {
        forall j | 0 <= j < |items[1..]| ensures items[1..][j] == items[j + 1] { }
      }
      var rest := OptionFields(items[1..]);
      if IsControl(key) || v.Null? || !IsLongOption(key) then rest
      else if v.Switch? then Failure(key)
      else if rest.Failure? then rest
      else
        assert "--" + key[2..] == key;
        Success([(key[2..], v.s)] + rest.value)
  }

  /**
   * The assignments an update makes are exactly the string-valued `--name`
   * options other than the control options: `name` is assigned `v` when
   * the arguments give `--name` the value `v`.
   */
  lemma {:induction false} OptionFieldsSpec(items: seq<(string, ArgValue)>, name: string)
    requires DistinctKeys(items) && OptionFields(items).Success?
    ensures FieldValue(OptionFields(items).value, name) ==
      if !IsControl("--" + name) && Lookup(items, "--" + name).Given?
      then Some(Lookup(items, "--" + name).s) else None
  {
    if items != [] {
      assert DistinctKeys(items[1..]);
      var (key, v) := items[0];
      var rest := OptionFields(items[1..]);
      assert rest.Success?;
      OptionFieldsSpec(items[1..], name);
      if IsLongOption(key) {
        assert "--" + key[2..] == key;
      }
      if key == "--" + name {
        assert "--" + name !in KeysOf(items[1..]) by {
          forall j | 0 <= j < |items[1..]| ensures items[1..][j] == items[j + 1] { }
        }
        LookupAbsent(items[1..], "--" + name);
        assert ("--" + name)[..2] == "--";
        assert ("--" + name)[2..] == name;
      }
    }
  }

  lemma {:induction false} LookupAbsent(items: seq<(string, ArgValue)>, key: string)
    requires key !in KeysOf(items)
    ensures Lookup(items, key) == Null
  {
    if items != [] {
      assert items[0].0 in KeysOf(items);
      assert KeysOf(items[1..]) <= KeysOf(items) by {
        forall j | 0 <= j < |items[1..]| ensures items[1..][j] == items[j + 1] { }
      }
      LookupAbsent(items[1..], key);
    }
  }

  /** `int(args.get('--trackstart') or 1)`. */
  function StartOf(v: ArgValue): Result<nat, string>
  {
    if v.Given? && v.s != "" then
      match ParseNat(v.s)
      case Some(n) => Success(n)
      case None => Failure(v.s)
    else Success(1)
  }

  /**
   * The first track number: 1 when --trackstart is absent or empty, the
   * number itself when it is written in decimal digits, and an uncaught
   * ValueError otherwise.
   */
  lemma StartOfSpec(v: ArgValue, n: nat)
    ensures !Truthy(v) && !v.Switch? ==> StartOf(v) == Success(1)
    ensures StartOf(Given(NatToString(n))) == Success(n)
    ensures v.Given? && v.s != "" && !AllDigits(v.s) ==> StartOf(v) == Failure(v.s)
  {
    ParseNatToString(n);
  }

  /** A whole `tag update` run over the parsed arguments. */
  function UpdateRun(items: seq<(string, ArgValue)>, paths: seq<string>, st: State): Run
    requires DistinctKeys(items)
  {
    match OptionFields(items)
    case Failure(key) => Run(st, Some(BadOption(key)))
    case Success(fields) =>
      var trackstart := Lookup(items, "--trackstart");
      match StartOf(trackstart)
      case Failure(literal) => Run(st, Some(BadTrackStart(literal)))
      case Success(start) =>
        var cmd := UpdateCmd(fields, Truthy(trackstart), start,
                             Truthy(Lookup(items, "--dry-run")), Truthy(Lookup(items, "--verbose")));
        RunAll(cmd, st, paths, 0)
  }
}
