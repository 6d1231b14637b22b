# tagcli, modelled in Dafny

tagcli (`tag`) is a small Python 2 command-line tag editor for audio files,
built on the mutagen library. It has three batch commands over a list of
files:

- `tag dump <files>...` prints each file's path and mutagen's tag summary.
- `tag rename [--dry-run] [--verbose] <pattern> <files>...` formats a new
  base name from the tags with `str.format`, keeps the original extension,
  prints `'old'  ==>  'new'` and, unless it is a dry run, moves the file
  within its directory.
- `tag update [--<tag>=<value>]... [--trackstart=<n>] [--dry-run] [--verbose] <files>...`
  assigns tag values, optionally numbering the files from `n` in input
  order, and either prints the assignments (dry run) or saves them.

Files whose extension is not `.mp3` (ID3) or `.m4a` (MP4) are skipped with
a `Skipping <f>: unknown extension: <ext>` notice. `dump` always prints it;
`rename` and `update` print it only under `--verbose`. Any other exception
is uncaught and ends the run.

The model has eight modules:

- `Wrappers`: `Option` and `Result`.
- `Text`: the Python string behaviour the tool relies on. It covers
  `int()` on digit strings, `str(n)`, `s.split('/')[0]`, zero padding
  (`'{:02}'.format(n)`) and `'\n'.join`.
- `Paths`: `os.path.splitext`, `dirname` and a two-part `join`, with
  POSIX rules. Its `basename` is not called by tagcli: it only states facts
  about `splitext` and `join`.
- `Tags`: a mutagen tag store, abstracted to a map from tag key to raw
  values. The module models:
  - `load`, which picks the store by extension;
  - the normalising view `SimpleDict.__getitem__`;
  - the eager `**meta` expansion;
  - dict-style assignment lists and `meta.update(options)`.
- `Pattern`: the part of `str.format` a rename pattern can use. That is
  literal text (`{{` and `}}` for braces), `{key}`, and `{key:0N}` for an
  integer zero-padded to width N. Any other replacement field is reported
  as unsupported: the model covers a subset of Python's format syntax.
- `Batch`: one run of a command as a function. A `State` holds the files
  on disk (path to store) and the printed output, one element per
  `print`. `Step` handles one input path. `RunAll` folds `Step` over the
  inputs in order and stops at the first uncaught exception. The
  properties of all three commands are proved here.
- `TagCli`: class `Tagger`, with fields `files` and `out`. Its methods
  `Dump`, `Rename` and `Update` are the commands' `for` loops. Each is
  proved to leave the state and the exception that `RunAll` (or
  `UpdateRun`) prescribes. `CollectFields` is `update`'s inner `iter`
  generator as a loop, and `Renumber` is the in-place
  `options.update(tracknumber=...)`.
- `Scenarios`: the repository's tests and usage examples, as lemmas over
  concrete commands.

Three behaviours of the code are worth stating outright, because the model
follows them:

- Nothing catches a missing pattern key or a malformed track number during
  `rename`: only `load` is inside the `try` (tagcli.py:101-106), and the
  `format` call (tagcli.py:109) is outside it. The run ends at that file
  (`Batch.Abort.RenameFailed`, `Batch.RenameFails`).
- Move and save failures are not caught either (tagcli.py:111-113,
  176-177). The model has no such failures; see "Left out".
- `dump` always prints the skip notice (tagcli.py:76-77). `rename` and
  `update` print it only under `--verbose` (tagcli.py:104-105, 165-166).

## Model

| member | source | states |
|---|---|---|
| Text.DigitsValue | tagcli.py:38 | the value `int()` gives a decimal digit string; stated by `Text.DigitsOfNatToString` and `Text.DigitsValueLeadingZeros` |
| Text.NatToString | tagcli.py:170 | `str(n)` is a non-empty digit string that starts with '0' only when it is "0" |
| Text.DigitsOfNatToString | tagcli.py:170 | reading the digits of `str(n)` back gives `n` |
| Text.ParseNatToString | tagcli.py:38 | `int(str(n)) == n`: a track number an update writes reads back as the same integer |
| Text.NatToStringInjective | tagcli.py:170 | different positions get different track-number texts, and equal ones the same |
| Text.ParseNat | tagcli.py:38 | `int(s)` on a string of decimal digits, ValueError otherwise; its round trips are stated by `Text.ParseNatToString` and `Text.ParseZeroPadded` |
| Text.ZeroPad | tagcli.py:109 | the `0N` format spec on the digits of an integer; stated by `Text.ZeroPadSpec` |
| Text.ZeroPadSpec | tagcli.py:109 | `{:0N}` gives the digits preceded by zeros up to width N, and the digits unchanged when they are already that wide |
| Text.DigitsValueLeadingZeros | tagcli.py:109 | leading zeros do not change the value of a digit string |
| Text.ParseZeroPadded | tagcli.py:109 | a zero-padded number still reads back as the same integer |
| Text.BeforeSlash | tagcli.py:38 | `s.split('/')[0]` is the longest prefix of `s` without '/': it is all of `s` or is followed by '/' |
| Text.BeforeSlashOfPair | tagcli.py:38 | "N/total" gives "N" |
| Text.BeforeSlashNoSlash | tagcli.py:38 | a value without '/' is its own first part |
| Text.FirstIndexSpec | tagcli.py:109 | the first occurrence search stops at the first `c`: none comes before it |
| Text.JoinLines | tagcli.py:174 | `'\n'.join(lines)`; stated by `Text.SplitJoinLines`, which splits it back into the lines |
| Text.SplitJoinLines | tagcli.py:174 | splitting the text `'\n'.join(lines)` at newlines gives back the lines when none contains a newline |
| Paths.LastIndex | tagcli.py:47 | `str.rfind(c)`, which `splitext` and `dirname` use; stated by `Paths.LastIndexSpec` and `Paths.LastIndexUnique` |
| Paths.LastIndexSpec | tagcli.py:47 | `rfind` returns an index that holds `c` with no `c` after it, or -1 when there is no `c` |
| Paths.LastIndexUnique | tagcli.py:47 | that index is the only one with this property |
| Paths.BasenameNoSlash | tagcli.py:112 | a base name contains no '/' |
| Paths.SplitExt | tagcli.py:47 | `splitext` splits the path: root + extension is the path |
| Paths.Ext | tagcli.py:47 | the extension half of `splitext`; stated by `Paths.ExtShape`, `Paths.ExtAfterName` and `Paths.ExtLeadingDots` |
| Paths.ExtShape | tagcli.py:47 | an extension is empty or a '.' followed by characters other than '.' and '/' |
| Paths.ExtAfterName | tagcli.py:47 | a non-empty extension follows a base name that is not made of dots alone |
| Paths.ExtLeadingDots | tagcli.py:47 | an empty extension means every dot in the base name has only dots before it, so ".mp3" has no extension |
| Paths.RStripSlashes | tagcli.py:112 | `rstrip('/')` removes exactly the trailing slashes |
| Paths.Dirname | tagcli.py:112 | `dirname` ends without '/' unless it is empty or all slashes |
| Paths.LastIndexAppend | tagcli.py:112 | appending text without `c` does not move the last `c` |
| Paths.JoinPath | tagcli.py:112 | `os.path.join(a, b)` for a relative `b`; stated by `Paths.JoinInSameDirectory` |
| Paths.JoinInSameDirectory | tagcli.py:112 | `join(dirname(f), name)` lies in the directory of `f` and has base name `name` when `name` has no '/' |
| Tags.ExtOfSuffix | tagcli.py:47 | a path ending in a 4-character extension after a real base name has exactly that extension |
| Tags.Load | tagcli.py:45-53 | `load`: EasyMP4 for ".m4a", EasyID3 for ".mp3", NotImplementedError otherwise; stated by `Tags.LoadAccepts` |
| Tags.LoadAccepts | tagcli.py:45-53 | `load` gives an ID3 store exactly for a case-sensitive ".mp3" suffix after a real base name, an MP4 store exactly for ".m4a", and otherwise fails with "unknown extension: " and the extension |
| Tags.Get | tagcli.py:33-42 | the view succeeds only for a present key with a value. A missing key raises KeyError rather than giving a default, and a present key with no values raises IndexError |
| Tags.GetNumberPair | tagcli.py:37-38 | for tracknumber/discnumber, "N/total" reads as the integer N |
| Tags.GetNumberAlone | tagcli.py:37-38 | for tracknumber/discnumber, a bare "N" reads as N |
| Tags.GetNumberDigits | tagcli.py:37-38 | for tracknumber/discnumber, any digit string before the first '/' reads as its decimal value, leading zeros included |
| Tags.GetNumberZeroPadded | tagcli.py:37-38 | "0N/total" (a zero-padded number) reads as N |
| Tags.GetNumberMalformed | tagcli.py:37-38 | a number key whose text before '/' is not a digit string raises ValueError with that text |
| Tags.GetOther | tagcli.py:39 | any other present key reads as its first raw value, unchanged |
| Tags.Expand | tagcli.py:109 | `**meta`: the view of every stored key, or a failure when any key's view raises; stated by `Pattern.FormatNeedsEveryTag` and `Pattern.ViewIsNumber` |
| Tags.SetField | tagcli.py:170 | `options.update(tracknumber=v)` keeps the keys distinct, sets the key to `v` and leaves every other key's value. It adds an entry only when the key was new |
| Tags.FieldValueAt | tagcli.py:159 | in a dict of distinct keys each entry's key looks up its own value |
| Tags.FieldValueIn | tagcli.py:159 | a key that looks up a value has an entry holding exactly that pair |
| Tags.FieldValueNotAfter | tagcli.py:159 | with distinct keys the first key does not occur again |
| Tags.SetFieldTwice | tagcli.py:169-170 | setting the track number again replaces the earlier one in place |
| Tags.ApplyFields | tagcli.py:176 | `meta.update(options)`; stated by `Tags.ApplyFieldsSpec` |
| Tags.ApplyFieldsSpec | tagcli.py:176 | after `meta.update(options)` the store holds the old keys plus the assigned ones. Each assigned key holds exactly its assigned value, and every other tag keeps its values |
| Pattern.FirstIndexAppend | tagcli.py:109 | a search across text without `c` continues into what follows |
| Pattern.ParseField | tagcli.py:109 | how `str.format` reads one replacement field: `key`, or `key:0N` with N in digits; stated by `Pattern.ParseFieldOfName` and `Pattern.ParseFieldOfPadded` |
| Pattern.ParseFieldOfName | tagcli.py:109 | a valid `{key}` body parses as that key |
| Pattern.ParseFieldOfPadded | tagcli.py:109 | `key:0N` parses as key padded to width N |
| Pattern.ParseFieldOfPrint | tagcli.py:109 | the body of every replacement field parses back to the field |
| Pattern.ParseSegment | tagcli.py:109 | a segment's pattern text followed by any text parses as that segment followed by the parse of the rest |
| Pattern.ParseLiteral | tagcli.py:109 | a literal character (a doubled brace for a brace) parses as itself |
| Pattern.ParseReplacement | tagcli.py:109 | a replacement field's text parses as that field |
| Pattern.FieldTextShape | tagcli.py:109 | a field body is non-empty, does not start with '{' and contains no '}' |
| Pattern.ParseOpen | tagcli.py:109 | a '{' opens a field that ends at the first '}' |
| Pattern.Parse | tagcli.py:109 | how `str.format` reads the pattern into literal text and fields; stated by `Pattern.ParsePrint`, `Pattern.ParseSegment` and `Pattern.ParseOpen` |
| Pattern.ParsePrint | tagcli.py:109 | every pattern of the subset parses back to its segments |
| Pattern.Render | tagcli.py:109 | substituting the view into the parsed pattern; stated by `Pattern.RenderSucceeds` and `Pattern.RenderConcat` |
| Pattern.RenderSegment | tagcli.py:109 | one segment of the pattern: literal text, a key's value, or an integer padded with zeros; when it renders is stated by `Pattern.RenderSucceeds` and `Pattern.RenderOne`, what it renders by `Pattern.FieldRendersValue` and `Pattern.PaddedRendersValue` |
| Pattern.ValueText | tagcli.py:109 | `format(v, '')`: a text value as itself, an integer as `str(n)`; stated by `Pattern.FieldRendersValue` |
| Pattern.FieldRendersValue | tagcli.py:109 | a plain field always renders: a text value as itself, an integer as decimal digits that read back as that integer |
| Pattern.PaddedRendersValue | tagcli.py:109 | a `{key:0N}` field of an integer always renders, as `str(n)` behind zeros up to N characters, and reads back as that integer |
| Pattern.RenderOne | tagcli.py:109 | a one-segment pattern formats as that segment |
| Pattern.RenderSucceeds | tagcli.py:109 | formatting succeeds exactly when every field names a key of the view and every padded field names an integer |
| Pattern.JoinConcat | tagcli.py:109 | joining the texts of two segment lists gives the two texts concatenated |
| Pattern.RenderConcat | tagcli.py:109 | formatting is compositional: the text of a + b is the text of a followed by that of b |
| Pattern.FormatName | tagcli.py:109 | `unicode(pattern).format(**meta)`; stated by `Pattern.FormatSucceeds` and `Pattern.FormatNeedsEveryTag` |
| Pattern.FormatNeedsEveryTag | tagcli.py:109 | because `**meta` reads every tag first, one unreadable tag makes any rename of that file fail, even with a pattern that does not use it |
| Pattern.FormatSucceeds | tagcli.py:109 | on a readable store, a pattern formats exactly when each field's key is present and each padded key is tracknumber or discnumber |
| Pattern.ViewIsNumber | tagcli.py:37-39 | in the view a value is an integer exactly for tracknumber and discnumber |
| Batch.ReportsSkips | tagcli.py:104-105 | a dump always prints the `Skipping` notice (lines 76-77), a rename or an update only under --verbose (lines 104-105 and 165-166); stated by `Batch.SkipIsolated`, `Batch.UpdateRunStep` and `Scenarios.DumpSkipsText` |
| Batch.SkipNotice | tagcli.py:76-77 | the `Skipping %s: %s` line; it appears in `Batch.UpdateRunStep`, `Batch.SkipIsolated` and `Batch.DumpOutput` |
| Batch.RenameLine | tagcli.py:110 | the `'%s'  ==>  '%s'` line; it appears in `Batch.RenameStep` |
| Batch.UpdateHeader | tagcli.py:173 | the `Update tags for %s:` line; it appears in `Batch.UpdateDryRunLines` |
| Batch.RenameTarget | tagcli.py:112 | `os.path.join(os.path.dirname(f), filename)`; stated by `Batch.RenameTargetPlacement` |
| Batch.Renamed | tagcli.py:110-113 | printing the rename line, then moving the file unless this is a dry run; stated by `Batch.RenameStep` and `Scenarios.RenameOne` |
| Batch.Move | tagcli.py:113 | `shutil.move(f, fullname)` on the files on disk; stated by `Batch.MoveSpec` |
| Batch.MoveSpec | tagcli.py:113 | after the move the store is at the target and not at the source, a file already at the target is replaced, and every other file is unchanged |
| Batch.AssignmentLines | tagcli.py:174 | one "k: v" line per assignment, in dict order |
| Batch.Step | tagcli.py:100-106 | one input of any command: skip with a notice when the command reports skips, stop when a loadable file cannot be opened, otherwise the command's own handling; stated by `Batch.RunStep`, `Batch.UpdateRunStep`, `Batch.RenameStep`, `Batch.RenameFails` and `Batch.UpdateStepFiles` |
| Batch.RunAll | tagcli.py:100-113 | the command's `for` loop over the inputs; stated by `Batch.RunAppend`, `Batch.SkipIsolated`, `Batch.DumpRun` and `Batch.UpdateWrites`, and carried out by `TagCli.Tagger.Dump`, `Rename` and `UpdateFiles` |
| Batch.DriveStep | tagcli.py:100-113 | for each of the three loops (lines 71-77, 100-113 and 160-177), a run over the inputs from position i is the step at i followed by the run from i+1, or stops there with the step's exception |
| Batch.RunStep | tagcli.py:71-77 | the same for every command: each input is handled once, then the next one |
| Batch.UpdateRunStep | tagcli.py:160-177 | an update skips an unsupported input (with a notice under --verbose), stops on a file it cannot open, or applies the assignments for that position and goes on |
| Batch.DriveAppend | tagcli.py:100-113 | a run over a + b is the run over a, then the run over b from where it left off at position \|a\|, unless a stopped it |
| Batch.RunAppend | tagcli.py:100-113 | the same for every command |
| Batch.SkipIsolated | tagcli.py:162-167 | an unsupported file in the middle only adds its notice (when the command reports skips): the rest of the run is the same as without it, positions counted |
| Batch.ReadOnlyRun | tagcli.py:111-113 | a dump or a dry run changes no file, and every run only appends to the output |
| Batch.DumpRun | tagcli.py:71-77 | a dump changes no file. It completes exactly when every loadable input exists, and then prints, for each input in order, its path and summary or its skip notice |
| Batch.DumpBlocks | tagcli.py:71-77 | what a completed dump prints, input by input; stated by `Batch.DumpOutput` |
| Batch.DumpCompletes | tagcli.py:71-77 | a dump completes exactly when every loadable input exists |
| Batch.DumpOutput | tagcli.py:71-77 | a completed dump prints, for each input in order, its path and summary or its skip notice |
| Batch.RenameTargetPlacement | tagcli.py:108-113 | the rename target keeps the source's directory and is named by the formatted name plus the original extension |
| Batch.RenameStep | tagcli.py:101-113 | renaming one file prints `'old'  ==>  'new'` with the new name formatted plus the old extension. It moves the store to the new path unless it is a dry run |
| Batch.LoadedStep | tagcli.py:108-113 | each command's body after a successful load: print the dump (lines 74-75), rename (lines 108-113), or apply the assignments for the position (lines 169-177); stated by `Batch.DumpOutput`, `Batch.RenameStep` and `Batch.UpdateStepFiles` |
| Batch.RenameOutcome | tagcli.py:108-113 | a rename of a loaded file: stop when the name cannot be formatted, otherwise print and move; stated by `Batch.RenameStep` and `Batch.RenameFails` |
| Batch.RenameFails | tagcli.py:101-109 | an error while formatting the name is not caught: the run ends at that file with `RenameFailed`, nothing is printed or moved for it, and later inputs are never reached |
| Batch.RenameStopsAtBadNumber | tagcli.py:37-38 | a malformed track or disc number ends a rename whatever the pattern, because `**meta` reads it |
| Batch.RenameStopsAtMissingKey | tagcli.py:109 | a pattern field naming a tag the file lacks makes formatting fail and ends the rename there |
| Batch.UpdateUntouched | tagcli.py:160-177 | an update leaves every file that is not among its inputs as it was |
| Batch.UpdateWrites | tagcli.py:160-177 | a completed update that is not a dry run stores, in the file at position j of distinct inputs, its original tags with that position's assignments applied |
| Batch.UpdateFirst | tagcli.py:160-177 | the first input of an update at position `index` is skipped, stops the run, or is updated with that position's assignments |
| Batch.UpdateStepFiles | tagcli.py:162-177 | an update step that is not a dry run changes at most the handled file's store, and stops only on a loadable file that cannot be opened |
| Batch.OptionsAt | tagcli.py:169-170 | the assignments for the file at position `index`: the given fields, with tracknumber set to `str(start + index)` under --trackstart; stated by `Batch.UpdateNumbers` and `TagCli.Renumber` |
| Batch.UpdateNumbers | tagcli.py:160-170 | with --trackstart=S the file at position j gets track number str(S+j), skipped inputs counted, and keeps every tag it is not assigned |
| Batch.Updated | tagcli.py:172-177 | printing the assignments on a dry run, otherwise applying them to the file's tags; stated by `Batch.UpdateDryRunLines` and `TagCli.Tagger.Apply` |
| Batch.UpdateDryRunLines | tagcli.py:172-174 | a dry-run update of a file changes no file and prints the header and one print whose lines are exactly the "k: v" lines (one empty line when there is none) |
| Batch.IsControl | tagcli.py:154 | the options --dry-run, --trackstart and --verbose are never assigned as tags; stated by `Batch.OptionFieldsSpec` |
| Batch.IsLongOption | tagcli.py:156 | only keys starting with `--` become assignments, named without the `--`; stated by `Batch.OptionFields` and `Batch.OptionFieldsSpec` |
| Batch.OptionFields | tagcli.py:152-159 | the assignments have distinct keys, each from a `--name` argument |
| Batch.OptionFieldsSpec | tagcli.py:152-159 | `name` is assigned `v` exactly when `--name` is given the string `v` and is not --dry-run, --trackstart or --verbose |
| Batch.Lookup | tagcli.py:161 | `args.get(key)`; stated by `Batch.LookupAbsent` |
| Batch.LookupAbsent | tagcli.py:161 | `args.get` of a key the arguments do not hold is None |
| Batch.Truthy | tagcli.py:169-172 | Python truthiness of an option (also at line 161): an absent or empty --trackstart means start at 1 and no numbering, and the switches are read as given; stated by `Batch.StartOfSpec` and `Batch.UpdateRun` |
| Batch.StartOf | tagcli.py:161 | `int(args.get('--trackstart') or 1)`; stated by `Batch.StartOfSpec` |
| Batch.StartOfSpec | tagcli.py:161 | the first track number is 1 when --trackstart is absent or empty and `n` for the digits of `n`; anything else not made of digits raises ValueError with that text |
| Batch.UpdateRun | tagcli.py:152-177 | a whole update from the parsed arguments; carried out by `TagCli.Tagger.Update`, with `Scenarios.AliceRun` and `Scenarios.VariousRun` as instances |
| TagCli.CollectFields | tagcli.py:152-159 | the `iter` loop yields exactly the assignments `Batch.OptionFields` describes, or the key whose value cannot be decoded |
| TagCli.NumberedAgain | tagcli.py:169-170 | renumbering an already numbered dict gives the dict numbered with the new value only |
| TagCli.Renumber | tagcli.py:169-170 | after the in-place update, `options` are the assignments for position i; without --trackstart they stay the fields given |
| TagCli.Tagger.Dump | tagcli.py:71-77 | the loop leaves the files, output and exception that `RunAll` prescribes for a dump |
| TagCli.Tagger.Rename | tagcli.py:99-113 | the loop leaves the files, output and exception `RunAll` prescribes for a rename |
| TagCli.Tagger.Update | tagcli.py:152-177 | the whole update leaves the state and exception `UpdateRun` prescribes for its arguments |
| TagCli.Tagger.UpdateFiles | tagcli.py:160-177 | the update loop leaves the state `RunAll` prescribes, while `options` is renumbered in place |
| TagCli.Tagger.Apply | tagcli.py:172-177 | the end of the loop body prints the assignments on a dry run and otherwise stores them in the file |
| Scenarios.ExtOfPlainName | tagcli.py:47 | a file name with no directory and no leading dot has the 4-character extension it ends with |
| Scenarios.HasSuffixAfterName | tests/__init__.py:25 | the shape of the test's `mkstemp(suffix=...)` file: any directory, a real base name, then the four-character suffix |
| Scenarios.LoadMp4 | tests/test_tagcli.py:54-55 | the test's temporary ".m4a" file, in any directory, has extension ".m4a" and loads as an MP4 store |
| Scenarios.LoadMp3 | tests/test_tagcli.py:20-21 | the test's temporary ".mp3" file, in any directory, has extension ".mp3" and loads as an ID3 store |
| Scenarios.LoadText | tagcli.py:52-53 | a ".txt" file fails to load with "unknown extension: .txt" |
| Scenarios.ParseArtist | tests/test_tagcli.py:67 | "{artist}" is one field |
| Scenarios.FormatArtist | tests/test_tagcli.py:67-68 | "{artist}" formats as the artist text |
| Scenarios.DryRenameOne | tagcli.py:108-111 | a dry-run rename of one file prints one line and moves nothing |
| Scenarios.SkipOne | tagcli.py:101-106 | a run over one unsupported file only adds its notice, when the command reports skips |
| Scenarios.RenameOne | tagcli.py:108-113 | a rename of one loadable file whose name formats prints its line and, unless it is a dry run, moves the file, and the run completes |
| Scenarios.RunTwo | tagcli.py:100-113 | a run over two inputs is the first input's run followed by the second's from the state it left |
| Scenarios.RunOne | tagcli.py:71-77 | a run over one input is that input's step |
| Scenarios.RenameByArtist | tests/test_tagcli.py:65-69 | the MP4 rename test, for any path ending in ".m4a" after a real base name, as the test's mkstemp file does: `'f'  ==>  '<artist>.m4a'` is printed and nothing is moved |
| Scenarios.ParseNumberedTitle | tests/test_tagcli.py:37 | "{tracknumber:02} {title}" parses as a padded field, a space and a field |
| Scenarios.ExpandId3Store | tests/test_tagcli.py:26-33 | the ID3 test file's tags are all readable, track number 2 as an integer |
| Scenarios.RenderNumberedTitle | tests/test_tagcli.py:37-38 | "{tracknumber:02} {title}" renders as "02 " and the title |
| Scenarios.FormatNumberedTitle | tests/test_tagcli.py:37-38 | the same pattern formats the ID3 test file's tags as "02 " and the title |
| Scenarios.RenameNumberedTitle | tests/test_tagcli.py:35-39 | the ID3 rename test with "{tracknumber:02} {title}", for any path ending in ".mp3" after a real base name, as the test's mkstemp file does: the dry run prints the padded number, the title and ".mp3" |
| Scenarios.DumpSkipsText | tagcli.py:76-77 | `dump` reports an unsupported file even without --verbose, and moves on |
| Scenarios.AliceArgs | tests/test_tagcli.py:72 | the test's option entries (the ones docopt sets to a value other than None, plus the switches and --trackstart) have distinct keys |
| Scenarios.AliceOptions | tests/test_tagcli.py:72 | `--artist=Alice` yields the single assignment artist: Alice, no numbering and no dry run |
| Scenarios.AliceRun | tests/test_tagcli.py:72 | those arguments run as an update assigning only the artist |
| Scenarios.UpdateOne | tagcli.py:172-177 | an update of one file applies, or prints, the assignments for position 0 |
| Scenarios.UpdateOneField | tagcli.py:159-177 | an update with one assignment and no --trackstart, on a single loadable file, sets that tag and keeps every other |
| Scenarios.UpdateAlice | tests/test_tagcli.py:71-73 | the MP4 update test, for any path ending in ".m4a" after a real base name, as the test's mkstemp file does: the artist becomes "Alice" and every other tag stays |
| Scenarios.VariousArgs | tagcli.py:148-149 | the usage example's option entries (the ones docopt sets to a value other than None, plus the switches) have distinct keys |
| Scenarios.VariousFields | tagcli.py:148-149 | the usage example's only assignment is albumartist |
| Scenarios.VariousStart | tagcli.py:148-149 | its `--trackstart=50` starts numbering at 50 |
| Scenarios.VariousRun | tagcli.py:148-149 | the usage example runs as an update assigning the album artist and numbering from 50 |
| Scenarios.OptionsFromFifty | tagcli.py:169-170 | the assignments at positions 0 and 2 carry track numbers "50" and "52" |
| Scenarios.UpdateAroundSkip | tagcli.py:160-177 | an update over a loadable, an unsupported and a loadable file writes the first and third only, with the assignments of positions 0 and 2 |
| Scenarios.UpdateFromFifty | tagcli.py:148-149 | with --trackstart=50 an unsupported file between two MP3 files is skipped but counted: they get 50 and 52 |
| Scenarios.RenameThenSkip | tagcli.py:100-113 | a verbose rename of a loadable file and then an unsupported one prints the rename line and then the skip notice, and moves only the first file |

## Left out

- mutagen itself is not part of this model. ID3/MP4 parsing, `save`, and the text `pprint()` produces are left out. A store is a map from tag key to raw values, and the dump summary is a function parameter of the dump command.
- `EasyID3.RegisterTextKey` (tagcli.py:18-21) is a global registration in a foreign library. `albumartist` is one more ordinary key.
- docopt, `argparsed`, `main`, `help` and `tags` (tagcli.py:56-61, 180-247) are argument parsing and dispatch. The parsed arguments are a sequence of (key, value) pairs. `<files>` is passed separately as the list of paths. Options that docopt sets to None may be left out of that sequence: `iter` skips None values (tagcli.py:156) and `args.get` of an absent key is None as well (`Batch.LookupAbsent`).
- Only the subset of `str.format` described above is modelled. Conversions (`!r`), attribute and index access, positional fields, nested fields and other format specs are reported as unsupported rather than modelled. Path separators a pattern puts into a name are left unspecified beyond "the name is joined to the directory".
- `Pattern.FormatName`: the model parses the whole pattern before it looks up any field. If a missing key comes before a malformed field, it reports the malformed pattern where Python reports the missing key. The run ends either way.
- `Text.ParseNat`, `Batch.StartOf`, `Batch.StartOfSpec`, `Tags.GetNumberMalformed`: Python 2.7's `int()` also accepts surrounding whitespace and a leading sign. The model accepts plain decimal digits only, so `--trackstart=+5`, `--trackstart=-1` or a stored track number " 2" ends the model's run with a ValueError where Python would go on.
- `shutil.move` is modelled by `Batch.Move` as the store moving to the new path, replacing any file already stored there, as `os.rename` does. Not modelled: a target that is an existing directory (`shutil.move` then moves the file into it, or raises `shutil.Error` when a file of that name is already inside), moves across devices, and failures of the move or of `save`; the model has no directories and no such failures.
- A loadable path that is missing from the files on disk is the one failure of mutagen that is modelled (`CannotOpen`). Other I/O errors are not.
- Unicode handling (`unicode(pattern)`, `.encode('utf-8')`, `.decode('utf-8')`) is left out: strings are sequences of characters and print unchanged. `exc.message` is the error text of `load`.
- A Python 2 dict iterates in hash order. The model keeps the options in argument order, with `tracknumber` replaced in place or added last, so the dry-run lines of `update` come in that order.
- `Scenarios.RenameNumberedTitle`: the ID3 rename test uses the pattern "{tracknumber:02} {artist} - {album} - {title}". The lemma proves the shorter "{tracknumber:02} {title}" over the same tags. The general `Pattern.FormatSucceeds` and `Pattern.RenderConcat` cover longer patterns.
- `Tags.Get`: its own contract gives presence, KeyError and IndexError. The values are stated by `Tags.GetNumberDigits`, `Tags.GetNumberZeroPadded`, `Tags.GetNumberPair`, `Tags.GetNumberAlone`, `Tags.GetNumberMalformed` and `Tags.GetOther`.
