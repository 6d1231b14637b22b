/**
 * Concrete runs of the three commands, one per behaviour the tagcli test
 * suite and usage text describe.
 */
module Scenarios {
  import opened Wrappers
  import opened Text
  import opened Paths
  import opened Tags
  import opened Pattern
  import opened Batch

  /** A file name with no directory and no leading dot has the extension it ends with. */
  lemma ExtOfPlainName(name: string, e: string)
    requires name != [] && name[0] != '.' && '/' !in name
    requires |e| == 4 && e[0] == '.' && '.' !in e[1..] && '/' !in e
    ensures Ext(name + e) == e
  {
    var p := name + e;
    assert p[..|p| - 4] == name;
    assert "" + name == name;
    LastIndexAppend("", name, '/');
    assert Basename(name) == name;
    ExtOfSuffix(p, e);
  }

  /** A run over a single input is that input's step. */
  lemma RunOne(cmd: Command, st: State, f: string)
    ensures RunAll(cmd, st, [f], 0) ==
      match Step(cmd, st, 0, f)
      case Continue(next) => Run(next, None)
      case Halt(reason) => Run(st, Some(reason))
  {
    RunStep(cmd, st, [f], 0);
    assert [f][0..] == [f] && [f][1..] == [];
    if Step(cmd, st, 0, f).Continue? {
      assert RunAll(cmd, Step(cmd, st, 0, f).next, [], 1) == Run(Step(cmd, st, 0, f).next, None);
    }
  }

  /** Two inputs run as the first one, then the second from the state the first left. */
  lemma RunTwo(cmd: Command, st: State, f: string, g: string, mid: State, last: State)
    requires RunAll(cmd, st, [f], 0) == Run(mid, None)
    requires RunAll(cmd, mid, [g], 1) == Run(last, None)
    ensures RunAll(cmd, st, [f, g], 0) == Run(last, None)
  {
    RunAppend(cmd, st, [f], [g], 0);
    assert [f] + [g] == [f, g];
  }

  /** A run over one file skipped for its extension only adds its notice, when the command reports skips. */
  lemma SkipOne(cmd: Command, st: State, g: string, index: nat)
    requires Load(g).Failure?
    ensures RunAll(cmd, st, [g], index) ==
      Run(if ReportsSkips(cmd) then st.(out := st.out + [SkipNotice(g, Load(g).error)]) else st, None)
  {
    SkipIsolated(cmd, st, [], g, [], index);
    assert [] + [g] + [] == [g];
    assert RunAll(cmd, st, [], index).final == st;
    var next := if ReportsSkips(cmd) then st.(out := st.out + [SkipNotice(g, Load(g).error)]) else st;
    assert RunAll(cmd, next, [], index + 1) == Run(next, None);
  }

  /** A dry-run rename of one loadable file prints one line and changes no file. */
  lemma DryRenameOne(pattern: string, verbose: bool, st: State, f: string, name: string)
    requires Load(f).Success? && f in st.files
    requires FormatName(pattern, st.files[f]) == Success(name)
    ensures RunAll(RenameCmd(pattern, true, verbose), st, [f], 0) ==
      Run(st.(out := st.out + [RenameLine(f, name + Ext(f))]), None)
  {
    RenameOne(pattern, true, verbose, st, f, name);
  }

  /** A rename of one loadable file whose name formats prints its line and, unless a dry run, moves it. */
  lemma RenameOne(pattern: string, dryRun: bool, verbose: bool, st: State, f: string, name: string)
    requires Load(f).Success? && f in st.files
    requires FormatName(pattern, st.files[f]) == Success(name)
    ensures RunAll(RenameCmd(pattern, dryRun, verbose), st, [f], 0) ==
      Run(Renamed(st, f, name + Ext(f), dryRun), None)
  {
    RenameStep(pattern, dryRun, verbose, st, 0, f);
    RunOne(RenameCmd(pattern, dryRun, verbose), st, f);
  }

  /**
   * A path that ends in the four-character extension `e` after a base name
   * that is not made of dots alone, as the temporary files of the test
   * suite do (in any directory).
   */
  predicate HasSuffixAfterName(f: string, e: string)
  {
    |e| == 4 && EndsWith(f, e) && !AllChar(Basename(f[..|f| - 4]), '.')
  }

  /** The MP4 test file, wherever it lies, loads as an MP4 store. */
  lemma LoadMp4(f: string)
    requires HasSuffixAfterName(f, ".m4a")
    ensures Ext(f) == ".m4a" && Load(f) == Success(Mp4)
  {
    ExtOfSuffix(f, ".m4a");
  }

  lemma ParseArtist()
    ensures Parse("{artist}") == Success([Field("artist")])
  {
    var segs := [Field("artist")];
    assert ValidName("artist") by { assert !IsDigit("artist"[0]); }
    assert Print(segs) == "{artist}";
    ParsePrint(segs);
  }

  /** "{artist}" formats as the text of a store's only tag, its artist. */
  lemma FormatArtist(artist: string)
    ensures FormatName("{artist}", map["artist" := [artist]]) == Success(artist)
  {
    var store := map["artist" := [artist]];
    ParseArtist();
    assert Get(store, "artist") == Success(Str(artist));
    assert Expand(store).Some?;
    RenderOne(Field("artist"), Expand(store).value);
  }

  /**
   * The MP4 rename test: a dry run with the pattern "{artist}" prints the
   * artist followed by the original extension and moves nothing.
   */
  lemma RenameByArtist(f: string, artist: string)
    requires HasSuffixAfterName(f, ".m4a")
    ensures var st := State(map[f := map["artist" := [artist]]], []);
      RunAll(RenameCmd("{artist}", true, false), st, [f], 0) ==
      Run(st.(out := [RenameLine(f, artist + ".m4a")]), None)
  {
    LoadMp4(f);
    FormatArtist(artist);
    DryRenameOne("{artist}", false, State(map[f := map["artist" := [artist]]], []), f, artist);
    assert [] + [RenameLine(f, artist + ".m4a")] == [RenameLine(f, artist + ".m4a")];
  }

  /** The pattern "{tracknumber:02} {title}", as segments. */
  function NumberedTitle(): seq<Segment>
  {
    [Padded("tracknumber", 2), Lit(' '), Field("title")]
  }

  lemma ParseNumberedTitle()
    ensures Parse(Print(NumberedTitle())) == Success(NumberedTitle())
  {
    assert ValidName("tracknumber") by { assert !IsDigit("tracknumber"[0]); }
    assert ValidName("title") by { assert !IsDigit("title"[0]); }
    ParsePrint(NumberedTitle());
  }

  /** The ID3 store of the test suite, with its text tags left open. */
  function Id3Store(album: string, artist: string, date: string, genre: string, title: string): Store
  {
    map["album" := [album], "artist" := [artist], "date" := [date], "genre" := [genre],
        "title" := [title], "tracknumber" := ["2"]]
  }

  /** Every tag of that store can be read: track number 2 and the texts as stored. */
  lemma ExpandId3Store(album: string, artist: string, date: string, genre: string, title: string)
    ensures var store := Id3Store(album, artist, date, genre, title);
      Expand(store).Some? && "tracknumber" in Expand(store).value && "title" in Expand(store).value &&
      Expand(store).value["tracknumber"] == Num(2) && Expand(store).value["title"] == Str(title)
  {
    var store := Id3Store(album, artist, date, genre, title);
    GetNumberAlone(store, "tracknumber", 2);
    assert forall k | k in store :: Get(store, k).Success?;
  }

  lemma RenderNumberedTitle(view: map<string, Value>, title: string)
    requires "tracknumber" in view && view["tracknumber"] == Num(2)
    requires "title" in view && view["title"] == Str(title)
    ensures Render(NumberedTitle(), view) == Success("02 " + title)
  {
    var segs := NumberedTitle();
    assert ZeroPad(NatToString(2), 2) == "02" by {
      assert NatToString(2) == "2";
      assert Zeros(1) == "0";
    }
    assert RenderSegment(segs[0], view) == Success("02");
    RenderOne(segs[0], view);
    RenderOne(segs[1], view);
    RenderOne(segs[2], view);
    RenderConcat([segs[1]], [segs[2]], view);
    RenderConcat([segs[0]], [segs[1], segs[2]], view);
    assert [segs[0]] + ([segs[1]] + [segs[2]]) == segs;
    assert "02" + (" " + title) == "02 " + title;
  }

  /** "{tracknumber:02} {title}" pads track number 2 to "02". */
  lemma FormatNumberedTitle(album: string, artist: string, date: string, genre: string, title: string)
    ensures FormatName(Print(NumberedTitle()), Id3Store(album, artist, date, genre, title)) ==
      Success("02 " + title)
  {
    ParseNumberedTitle();
    ExpandId3Store(album, artist, date, genre, title);
    RenderNumberedTitle(Expand(Id3Store(album, artist, date, genre, title)).value, title);
  }

  /** The ID3 test file, wherever it lies, loads as an ID3 store. */
  lemma LoadMp3(f: string)
    requires HasSuffixAfterName(f, ".mp3")
    ensures Ext(f) == ".mp3" && Load(f) == Success(Id3)
  {
    ExtOfSuffix(f, ".mp3");
  }

  /**
   * The ID3 rename test, for the pattern "{tracknumber:02} {title}": a dry
   * run prints the zero-padded track number, the title and ".mp3".
   */
  lemma RenameNumberedTitle(f: string, album: string, artist: string, date: string, genre: string, title: string)
    requires HasSuffixAfterName(f, ".mp3")
    ensures var st := State(map[f := Id3Store(album, artist, date, genre, title)], []);
      RunAll(RenameCmd(Print(NumberedTitle()), true, false), st, [f], 0) ==
      Run(st.(out := [RenameLine(f, "02 " + title + ".mp3")]), None)
  {
    LoadMp3(f);
    FormatNumberedTitle(album, artist, date, genre, title);
    DryRenameOne(Print(NumberedTitle()), false, State(map[f := Id3Store(album, artist, date, genre, title)], []), f, "02 " + title);
    assert [] + [RenameLine(f, "02 " + title + ".mp3")] == [RenameLine(f, "02 " + title + ".mp3")];
  }

  /** A text file is not a tag store: `load` reports its extension. */
  lemma LoadText(name: string)
    requires name != [] && name[0] != '.' && '/' !in name
    ensures Load(name + ".txt") == Failure("unknown extension: .txt")
  {
    ExtOfPlainName(name, ".txt");
    assert "unknown extension: " + ".txt" == "unknown extension: .txt";
  }

  /** `tag dump` always reports a skipped file, and goes on with the next one. */
  lemma DumpSkipsText(name: string, pprint: (string, Store) -> string, files: map<string, Store>)
    requires name != [] && name[0] != '.' && '/' !in name
    ensures RunAll(DumpCmd(pprint), State(files, []), [name + ".txt"], 0) ==
      Run(State(files, [SkipNotice(name + ".txt", "unknown extension: .txt")]), None)
  {
    var f := name + ".txt";
    var cmd := DumpCmd(pprint);
    LoadText(name);
    var next := State(files, [SkipNotice(f, "unknown extension: .txt")]);
    assert Step(cmd, State(files, []), 0, f) == Continue(next);
    RunStep(cmd, State(files, []), [f], 0);
    assert [f][0..] == [f] && [f][1..] == [];
    assert RunAll(cmd, next, [], 1) == Run(next, None);
  }

  /** The arguments of the MP4 update test, `tag update --artist=Alice <file>`. */
  function AliceArgs(): (items: seq<(string, ArgValue)>)
    ensures DistinctKeys(items)
  {
    [("--artist", Given("Alice")), ("--dry-run", Switch(false)), ("--trackstart", Null), ("--verbose", Switch(false))]
  }

  lemma AliceOptions()
    ensures OptionFields(AliceArgs()) == Success([("artist", "Alice")])
    ensures Lookup(AliceArgs(), "--trackstart") == Null
    ensures !Truthy(Lookup(AliceArgs(), "--dry-run")) && !Truthy(Lookup(AliceArgs(), "--verbose"))
  {
    var items := AliceArgs();
    assert IsLongOption("--artist") && "--artist"[2..] == "artist";
    var rest := items[1..];
    assert rest[0].0 == "--dry-run" && rest[1..][0].0 == "--trackstart" && rest[1..][1..][0].0 == "--verbose";
    assert rest[1..][1..][1..] == [];
    assert OptionFields(rest[1..][1..]) == Success([]);
    assert OptionFields(rest[1..]) == Success([]);
    assert OptionFields(rest) == Success([]);
    assert [("artist", "Alice")] + [] == [("artist", "Alice")];
  }

  /** `tag update --artist=Alice` runs as an update assigning only the artist, numbering nothing. */
  lemma AliceRun(paths: seq<string>, st: State)
    ensures UpdateRun(AliceArgs(), paths, st) ==
      RunAll(UpdateCmd([("artist", "Alice")], false, 1, false, false), st, paths, 0)
  {
    AliceOptions();
  }

  /** An update of one loadable file applies, or prints, the assignments for position 0. */
  lemma UpdateOne(cmd: Command, st: State, f: string)
    requires cmd.UpdateCmd? && Load(f).Success? && f in st.files
    ensures RunAll(cmd, st, [f], 0) == Run(Updated(st, f, OptionsAt(cmd, 0), cmd.dryRun), None)
  {
    UpdateFirst(cmd, st, [f], 0);
    assert [f][1..] == [];
  }

  /** A plain update with one assignment, on a single loadable file, sets that one tag. */
  lemma UpdateOneField(cmd: Command, f: string, store: Store, key: string, value: string)
    requires cmd == UpdateCmd([(key, value)], false, 1, false, false) && Load(f).Success?
    ensures RunAll(cmd, State(map[f := store], []), [f], 0) == Run(State(map[f := store[key := [value]]], []), None)
  {
    var st := State(map[f := store], []);
    UpdateOne(cmd, st, f);
    assert ApplyFields(store, [(key, value)]) == store[key := [value]] by {
      assert [(key, value)][1..] == [];
    }
    assert st.files[f := store[key := [value]]] == map[f := store[key := [value]]];
  }

  /** The MP4 update test: the artist becomes "Alice" and every other tag stays. */
  lemma UpdateAlice(items: seq<(string, ArgValue)>, f: string, store: Store)
    requires items == AliceArgs() && HasSuffixAfterName(f, ".m4a")
    ensures UpdateRun(items, [f], State(map[f := store], [])) ==
      Run(State(map[f := store["artist" := ["Alice"]]], []), None)
  {
    AliceRun([f], State(map[f := store], []));
    LoadMp4(f);
    UpdateOneField(UpdateCmd([("artist", "Alice")], false, 1, false, false), f, store, "artist", "Alice");
  }

  /** The usage example `tag update --albumartist='Various Artists' --trackstart=50 <files>`. */
  function VariousArgs(): (items: seq<(string, ArgValue)>)
    ensures DistinctKeys(items)
  {
    [("--albumartist", Given("Various Artists")), ("--dry-run", Switch(false)),
     ("--trackstart", Given("50")), ("--verbose", Switch(false))]
  }

  lemma VariousFields()
    ensures OptionFields(VariousArgs()) == Success([("albumartist", "Various Artists")])
  {
    var items := VariousArgs();
    assert IsLongOption("--albumartist") && "--albumartist"[2..] == "albumartist";
    var rest := items[1..];
    assert rest[0].0 == "--dry-run" && rest[1..][0].0 == "--trackstart" && rest[1..][1..][0].0 == "--verbose";
    assert rest[1..][1..][1..] == [];
    assert OptionFields(rest[1..][1..]) == Success([]);
    assert OptionFields(rest[1..]) == Success([]);
    assert OptionFields(rest) == Success([]);
    assert [("albumartist", "Various Artists")] + [] == [("albumartist", "Various Artists")];
  }

  lemma VariousStart()
    ensures Lookup(VariousArgs(), "--trackstart") == Given("50")
    ensures StartOf(Given("50")) == Success(50)
  {
    assert NatToString(50) == "50";
    ParseNatToString(50);
  }

  /** The usage example runs as an update assigning the album artist, numbering from 50. */
  lemma VariousRun(items: seq<(string, ArgValue)>, paths: seq<string>, st: State)
    requires items == VariousArgs()
    ensures UpdateRun(items, paths, st) ==
      RunAll(UpdateCmd([("albumartist", "Various Artists")], true, 50, false, false), st, paths, 0)
  {
    VariousFields();
    VariousStart();
  }

  /** Different names stay different with the same extension appended. */
  lemma SameSuffixDistinct(a: string, c: string, e: string)
    requires a != c
    ensures a + e != c + e
  {
    assert (a + e)[..|a|] == a && (c + e)[..|c|] == c;
  }

  /** The assignments of that update at positions 0 and 2. */
  lemma OptionsFromFifty()
    ensures var cmd := UpdateCmd([("albumartist", "Various Artists")], true, 50, false, false);
      OptionsAt(cmd, 0) == [("albumartist", "Various Artists"), ("tracknumber", "50")] &&
      OptionsAt(cmd, 2) == [("albumartist", "Various Artists"), ("tracknumber", "52")]
  {
    assert NatToString(50) == "50" && NatToString(52) == "52";
  }

  /** An update, not a dry run and not verbose, of a loadable file, a skipped one and another loadable one. */
  lemma UpdateAroundSkip(cmd: Command, st: State, a: string, b: string, c: string)
    requires cmd.UpdateCmd? && !cmd.dryRun && !cmd.verbose
    requires Load(a).Success? && Load(b).Failure? && Load(c).Success?
    requires a in st.files && c in st.files && a != c
    ensures RunAll(cmd, st, [a, b, c], 0) ==
      Run(st.(files := st.files[a := ApplyFields(st.files[a], OptionsAt(cmd, 0))]
                               [c := ApplyFields(st.files[c], OptionsAt(cmd, 2))]), None)
  {
    var paths := [a, b, c];
    UpdateFirst(cmd, st, paths, 0);
    var st1 := Updated(st, a, OptionsAt(cmd, 0), false);
    UpdateFirst(cmd, st1, paths[1..], 1);
    assert paths[1..][1..] == paths[2..] == [c];
    UpdateFirst(cmd, st1, paths[2..], 2);
    var st3 := Updated(st1, c, OptionsAt(cmd, 2), false);
    assert paths[2..][1..] == [];
    assert RunAll(cmd, st3, [], 3) == Run(st3, None);
  }

  /**
   * With --trackstart=50 and an album artist, the files at positions 0 and
   * 2 are numbered 50 and 52: the unsupported file between them is skipped
   * but still counted.
   */
  lemma UpdateFromFifty(cmd: Command, a: string, b: string, c: string, files: map<string, Store>)
    requires cmd == UpdateCmd([("albumartist", "Various Artists")], true, 50, false, false)
    requires a != [] && a[0] != '.' && '/' !in a && a != c
    requires b != [] && b[0] != '.' && '/' !in b
    requires c != [] && c[0] != '.' && '/' !in c
    requires a + ".mp3" in files && c + ".mp3" in files
    ensures RunAll(cmd, State(files, []), [a + ".mp3", b + ".jpg", c + ".mp3"], 0) ==
      Run(State(files
        [a + ".mp3" := ApplyFields(files[a + ".mp3"], [("albumartist", "Various Artists"), ("tracknumber", "50")])]
        [c + ".mp3" := ApplyFields(files[c + ".mp3"], [("albumartist", "Various Artists"), ("tracknumber", "52")])],
        []), None)
  {
    ExtOfPlainName(a, ".mp3");
    ExtOfPlainName(c, ".mp3");
    ExtOfPlainName(b, ".jpg");
    SameSuffixDistinct(a, c, ".mp3");
    OptionsFromFifty();
    UpdateAroundSkip(cmd, State(files, []), a + ".mp3", b + ".jpg", c + ".mp3");
  }

  /**
   * A verbose rename of a loadable file followed by an unsupported one
   * prints the rename line and then the skip notice, in that order, and
   * moves only the first file.
   */
  lemma RenameThenSkip(pattern: string, st: State, f: string, g: string)
    requires Load(f).Success? && f in st.files && FormatName(pattern, st.files[f]).Success?
    requires Load(g).Failure?
    ensures var filename := FormatName(pattern, st.files[f]).value + Ext(f);
      RunAll(RenameCmd(pattern, false, true), st, [f, g], 0) ==
      Run(State(Move(st.files, f, RenameTarget(f, filename)),
                st.out + [RenameLine(f, filename), SkipNotice(g, Load(g).error)]), None)
  {
    var cmd := RenameCmd(pattern, false, true);
    var name := FormatName(pattern, st.files[f]).value;
    var filename := name + Ext(f);
    RenameOne(pattern, false, true, st, f, name);
    var next := State(Move(st.files, f, RenameTarget(f, filename)), st.out + [RenameLine(f, filename)]);
    assert Renamed(st, f, filename, false) == next;
    SkipOne(cmd, next, g, 1);
    RunTwo(cmd, st, f, g, next, next.(out := next.out + [SkipNotice(g, Load(g).error)]));
  }
}
