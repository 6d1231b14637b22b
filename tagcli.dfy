/**
 * The three batch commands of tagcli as loops over the input paths, on an
 * object that holds the files on disk and the printed output. Each method
 * is proved to do what Batch.RunAll (or Batch.UpdateRun) says.
 */
module TagCli {
  import opened Wrappers
  import opened Paths
  import opened Tags
  import opened Pattern
  import opened Batch

  /** `Prefixed(acc, r)`: the assignments `acc` followed by those of `r`, unless `r` failed. */
  function Prefixed(acc: Assignments, r: Result<Assignments, string>): Result<Assignments, string>
  {
    match r
    case Success(rest) => Success(acc + rest)
    case Failure(e) => Failure(e)
  }

  /**
   * update's inner generator `iter`, drained by `dict(...)`: the docopt
   * items are visited in order, the control options are passed over, and
   * each other `--name` option with a value yields `(name, value)`.
   */
  method CollectFields(items: seq<(string, ArgValue)>) returns (r: Result<Assignments, string>)
    requires DistinctKeys(items)
    ensures r == OptionFields(items)
  {
    var acc: Assignments := [];
    assert items[0..] == items;
    assert OptionFields(items).Success? ==> [] + OptionFields(items).value == OptionFields(items).value;
    for i := 0 to |items|
      invariant DistinctKeys(items[i..])
      invariant OptionFields(items) == Prefixed(acc, OptionFields(items[i..]))
    {
      var (key, v) := items[i];
      assert items[i..][0] == items[i] && items[i..][1..] == items[i + 1..];
      if IsControl(key) {
        continue;
      }
      if !v.Null? && IsLongOption(key) {
        if v.Switch? {
          return Failure(key);
        }
        ghost var rest := OptionFields(items[i + 1..]);
        assert rest.Success? ==> acc + ([(key[2..], v.s)] + rest.value) == (acc + [(key[2..], v.s)]) + rest.value;
        acc := acc + [(key[2..], v.s)];
      }
    }
    assert items[|items|..] == [];
    assert acc + [] == acc;
    r := Success(acc);
  }

  /** The assignments of `update` once the track number `last`, if any, has been set. */
  ghost function Numbered(fields: DistinctAssignments, last: Option<string>): DistinctAssignments
  {
    match last
    case None => fields
    case Some(number) => SetField(fields, "tracknumber", number)
  }

  /** Setting the track number again replaces the one set before. */
  lemma NumberedAgain(fields: DistinctAssignments, last: Option<string>, number: string)
    ensures SetField(Numbered(fields, last), "tracknumber", number) == Numbered(fields, Some(number))
  {
    if last.Some? {
      SetFieldTwice(fields, "tracknumber", last.value, number);
    }
  }

  /**
   * `if args.get('--trackstart'): options.update(tracknumber=str(index))`
   * at position `i`: the new track number replaces the one set for the
   * previous file, if any, so the assignments are those for position `i`.
   */
  method Renumber(options: DistinctAssignments, numbered: bool, start: nat, i: nat,
                  ghost cmd: Command, ghost last: Option<string>) returns (r: DistinctAssignments, ghost next: Option<string>)
    requires cmd.UpdateCmd? && cmd.numbered == numbered && cmd.start == start
    requires options == Numbered(cmd.fields, last) && (last.Some? ==> numbered)
    ensures r == OptionsAt(cmd, i)
    ensures r == Numbered(cmd.fields, next) && (next.Some? ==> numbered)
  {
    if numbered {
      var number := Text.NatToString(start + i);
      NumberedAgain(cmd.fields, last, number);
      r := SetField(options, "tracknumber", number);
      next := Some(number);
    } else {
      r := options;
      next := last;
    }
  }

  /** The files on disk, as tag stores by path, and the output printed so far. */
  class Tagger {
    var files: map<string, Store>
    var out: seq<string>

    constructor (files: map<string, Store>)
      ensures this.files == files && out == []
    {
      this.files := files;
      out := [];
    }

    function Current(): State
      reads this
    {
      State(files, out)
    }

    /** `tag dump <files>...` */
    method Dump(paths: seq<string>, pprint: (string, Store) -> string) returns (abort: Option<Abort>)
      modifies this
      ensures Run(Current(), abort) == RunAll(DumpCmd(pprint), old(Current()), paths, 0)
    {
      ghost var cmd := DumpCmd(pprint);
      for i := 0 to |paths|
        invariant RunAll(cmd, old(Current()), paths, 0) == RunAll(cmd, Current(), paths[i..], i)
      {
        var f := paths[i];
        ghost var before := Current();
        RunStep(cmd, before, paths, i);
        var loaded := Load(f);
        if loaded.Failure? {
          out := out + [SkipNotice(f, loaded.error)];
          assert Step(cmd, before, i, f) == Continue(Current());
          continue;
        }
        if f !in files {
          return Some(CannotOpen(f));
        }
        var meta := files[f];
        out := out + [f];
        out := out + [pprint(f, meta)];
        assert out == before.out + [f, pprint(f, meta)];
        assert Step(cmd, before, i, f) == Continue(Current());
      }
      assert paths[|paths|..] == [];
      return None;
    }

    /** `tag rename [--dry-run] [--verbose] <pattern> <files>...` */
    method Rename(pattern: string, paths: seq<string>, dryRun: bool, verbose: bool) returns (abort: Option<Abort>)
      modifies this
      ensures Run(Current(), abort) == RunAll(RenameCmd(pattern, dryRun, verbose), old(Current()), paths, 0)
    {
      ghost var cmd := RenameCmd(pattern, dryRun, verbose);
      for i := 0 to |paths|
        invariant RunAll(cmd, old(Current()), paths, 0) == RunAll(cmd, Current(), paths[i..], i)
      {
        var f := paths[i];
        ghost var before := Current();
        RunStep(cmd, before, paths, i);
        var loaded := Load(f);
        if loaded.Failure? {
          if verbose {
            out := out + [SkipNotice(f, loaded.error)];
          }
          assert Step(cmd, before, i, f) == Continue(Current());
          continue;
        }
        if f !in files {
          return Some(CannotOpen(f));
        }
        var meta := files[f];
        var ext := Ext(f);
        var formatted := FormatName(pattern, meta);
        if formatted.Failure? {
          return Some(RenameFailed(f, formatted.error));
        }
        var filename := formatted.value + ext;
        out := out + [RenameLine(f, filename)];
        if !dryRun {
          var fullname := JoinPath(Dirname(f), filename);
          files := Move(files, f, fullname);
        }
        assert Step(cmd, before, i, f) == Continue(Current());
      }
      assert paths[|paths|..] == [];
      return None;
    }

    /** `tag update [--<tag>=<value>]... [--trackstart=<n>] [--dry-run] [--verbose] <files>...` */
    method Update(items: seq<(string, ArgValue)>, paths: seq<string>) returns (abort: Option<Abort>)
      requires DistinctKeys(items)
      modifies this
      ensures Run(Current(), abort) == UpdateRun(items, paths, old(Current()))
    {
      var collected := CollectFields(items);
      if collected.Failure? {
        assert UpdateRun(items, paths, Current()) == Run(Current(), Some(BadOption(collected.error)));
        return Some(BadOption(collected.error));
      }
      var options: DistinctAssignments := collected.value;
      var trackstart := Lookup(items, "--trackstart");
      var start := StartOf(trackstart);
      if start.Failure? {
        assert UpdateRun(items, paths, Current()) == Run(Current(), Some(BadTrackStart(start.error)));
        return Some(BadTrackStart(start.error));
      }
      var dryRun := Truthy(Lookup(items, "--dry-run"));
      var verbose := Truthy(Lookup(items, "--verbose"));
      assert UpdateRun(items, paths, Current()) ==
        RunAll(UpdateCmd(options, Truthy(trackstart), start.value, dryRun, verbose), Current(), paths, 0);
      abort := UpdateFiles(options, Truthy(trackstart), start.value, dryRun, verbose, paths);
    }

    /**
     * The loop of `tag update` over its inputs, once the assignments, the
     * first track number and the switches are known.
     */
    method UpdateFiles(fields: DistinctAssignments, numbered: bool, start: nat, dryRun: bool, verbose: bool,
                       paths: seq<string>) returns (abort: Option<Abort>)
      modifies this
      ensures Run(Current(), abort) == RunAll(UpdateCmd(fields, numbered, start, dryRun, verbose), old(Current()), paths, 0)
    {
      ghost var cmd := UpdateCmd(fields, numbered, start, dryRun, verbose);
      var options := fields;
      ghost var lastNumber: Option<string> := None;
      assert paths[0..] == paths;
      for i := 0 to |paths|
        invariant RunAll(cmd, old(Current()), paths, 0) == RunAll(cmd, Current(), paths[i..], i)
        invariant options == Numbered(cmd.fields, lastNumber)
        invariant lastNumber.Some? ==> numbered
      {
        var f := paths[i];
        UpdateRunStep(cmd, Current(), paths, i);
        var loaded := Load(f);
        if loaded.Failure? {
          if verbose {
            out := out + [SkipNotice(f, loaded.error)];
          }
          continue;
        }
        if f !in files {
          return Some(CannotOpen(f));
        }
        options, lastNumber := Renumber(options, numbered, start, i, cmd, lastNumber);
        Apply(f, options, dryRun);
      }
      assert paths[|paths|..] == [];
      return None;
    }

    /** The end of update's loop body: print the assignments on a dry run, else store them in the file. */
    method Apply(f: string, options: DistinctAssignments, dryRun: bool)
      requires f in files
      modifies this
      ensures Current() == Updated(old(Current()), f, options, dryRun)
    {
      if dryRun {
        out := out + [UpdateHeader(f)];
        out := out + [Text.JoinLines(AssignmentLines(options))];
      } else {
        var meta := files[f];
        meta := ApplyFields(meta, options);
        files := files[f := meta];
      }
    }
  }
}
