# QMK keymap.c to keymap.json conversion and keyboard listing

A Dafny model of two QMK command-line helpers.

**`lib/python/qmk/cli/c2json.py`**
- `create_keymaps` converts every keymap of one keyboard:
  - It records a status on each keymap record ("No C file", "Unicode Decode Error", "Unknown Error", and the "no-cpp" flag).
  - It retries once without the C preprocessor after a `KeyError`.
  - It writes one `keymaps/<keyboard>/<name>.keymap.json` per converted keymap, and `keymaps/<keyboard>/keymaps.json` with all records.
- `c2json` is the single-file command:
  - It checks the input file and decides where the output goes.
  - It converts once.
  - It prints the document or writes it, moving an existing output file to `<output>.bak` first.

**`lib/python/qmk/cli/list/keyboards.py`**
- `find_name` turns a `rules.mk` path into a keyboard name.
- `locate_info_json` walks the prefixes of a keyboard id and keeps the last (deepest) one whose `info.json` exists.
- `list_keyboards` filters out keymap paths, names and sorts the keyboards, and builds one record per keyboard.

**Modules**
- `Wrappers` holds `Option`.
- `Text` models Python's `str` operations: `in`, `replace`, `split`, `join`, and the code-point order behind `sorted`.
- `Files` is a small filesystem: a class over a map from path to content, with `exists`, `write_text` and `replace`.
- `Keyboards` models keyboards.py.
- `C2Json` models c2json.py.

**The parsing library is abstract.** `qmk.keymap.c2json` followed by `generate_json` is a function parameter `convert`. It maps each call to one of three outcomes: a document, a `UnicodeDecodeError`, or a `KeyError`. Several other calls are parameters too:
- `qmk.keymap.list_keymaps` is the list given to the batch.
- `qmk.path.is_keyboard` is the `isKeyboard` predicate.
- `Path.exists` is `fileExists`.
- the recursive glob is the list of paths it yields.
- `qmk.path.normpath` is the `normpath` function in the single-file command.

**Two behaviours of the code.**
- When `list_keymaps` returns no keymaps, `create_keymaps` writes no summary at all. The test `if(keymaps)` guards the whole body, so the model does the same.
- The `if output_path:` and `if summary_path:` tests are on pathlib objects, which are always true. The model writes unconditionally.

## Model

| member | source | states |
|---|---|---|
| Text.ReplaceAllAbsent | lib/python/qmk/cli/list/keyboards.py:19 | `str.replace` leaves a string without the pattern unchanged |
| Text.ReplaceAllLeading | lib/python/qmk/cli/list/keyboards.py:19 | a leading occurrence is replaced and the scan resumes right after it |
| Text.ReplaceAllTrailing | lib/python/qmk/cli/list/keyboards.py:19 | when no occurrence starts inside `n`, replacing in `n + pat` turns the trailing pattern into the replacement and keeps `n` |
| Keyboards.PathJoin | lib/python/qmk/cli/list/keyboards.py:12 | `os.path.join` for a relative second part: one separator between the parts; its use is proved through `FindNameStripsBaseAndRules` |
| Keyboards.BasePath | lib/python/qmk/cli/list/keyboards.py:12 | BASE_PATH, `<cwd>/keyboards/`; its properties are proved in `BasePathInRulesMkPath` and `FindNameStripsBaseAndRules` |
| Keyboards.FindName | lib/python/qmk/cli/list/keyboards.py:16-19 | `find_name`: both replacements, all occurrences; its round trip is `FindNameStripsBaseAndRules` |
| Text.ReplaceAll | lib/python/qmk/cli/list/keyboards.py:19 | `str.replace` of every non-overlapping occurrence, scanning left to right; its properties are `ReplaceAllAbsent`, `ReplaceAllLeading` and `ReplaceAllTrailing` |
| Keyboards.FindNameStripsBaseAndRules | lib/python/qmk/cli/list/keyboards.py:12-19 | `find_name(BASE_PATH + n + "/rules.mk") == n` when `n` contains neither BASE_PATH nor "/rules.mk" and does not end with `<cwd>/keyboards` |
| Keyboards.FindNameNeedsNameNotEndingInRoot | lib/python/qmk/cli/list/keyboards.py:12-19 | a name ending in `<cwd>/keyboards` meets the other conditions yet is not recovered: for cwd "/h", `find_name` of the path of "/h/keyboards" yields "rules.mk" |
| Text.Split | lib/python/qmk/cli/list/keyboards.py:33 | `str.split('/')`: at least one part, no part holds the separator |
| Text.Join | lib/python/qmk/cli/list/keyboards.py:36 | `'/'.join`; `JoinSplit` and `JoinPrefix` state its properties |
| Keyboards.CheckedDirs | lib/python/qmk/cli/list/keyboards.py:33-38 | `checked_dirs` after k iterations; `CheckedDirsArePrefixes` states what it is |
| Keyboards.InfoJsonPath | lib/python/qmk/cli/list/keyboards.py:41-45 | the info.json path checked in one iteration; `InfoJsonIsDeepest` states where it lies |
| Keyboards.LastInfoJson | lib/python/qmk/cli/list/keyboards.py:41-46 | `info_json_path` after k iterations; `LastInfoJsonIsLastMatch` characterises it |
| Keyboards.LastInfoJsonIsLastMatch | lib/python/qmk/cli/list/keyboards.py:41-46 | the path kept after k iterations is that of the last iteration whose info.json exists, and no later one exists; nothing is kept iff no checked info.json exists |
| Keyboards.InfoJsonOf | lib/python/qmk/cli/list/keyboards.py:22-49 | nothing is returned for a non-keyboard; a returned path always exists |
| Keyboards.LocateInfoJson | lib/python/qmk/cli/list/keyboards.py:22-49 | the loop over the components computes exactly `InfoJsonOf` |
| Text.JoinSplit | lib/python/qmk/cli/list/keyboards.py:33-36 | `'/'.join(s.split('/')) == s` |
| Text.JoinPrefix | lib/python/qmk/cli/list/keyboards.py:33-36 | the join of the first k parts is a prefix of the join of all parts, strictly shorter when parts remain |
| Keyboards.CheckedDirsArePrefixes | lib/python/qmk/cli/list/keyboards.py:30-38 | after iteration k, `checked_dirs` is the first k components joined by '/': a prefix of the keyboard that grows strictly and is the whole keyboard at the end |
| Keyboards.InfoJsonIsDeepest | lib/python/qmk/cli/list/keyboards.py:29-49 | the info.json returned lies in a prefix directory of the keyboard, and no checked directory with an info.json is longer |
| Keyboards.KeptPaths | lib/python/qmk/cli/list/keyboards.py:61 | a path is kept iff it was globbed and does not contain "keymaps"; each kept path occurs as often as in the glob, each dropped one not at all |
| Keyboards.NamesOfKeptPaths | lib/python/qmk/cli/list/keyboards.py:61-64 | the names are exactly the `find_name` of the glob hits outside keymaps |
| Text.LessEqTotal | lib/python/qmk/cli/list/keyboards.py:64 | the order `sorted` uses on str is total |
| Text.LessEqTransitive | lib/python/qmk/cli/list/keyboards.py:64 | the order is transitive |
| Text.LessEqAntisymmetric | lib/python/qmk/cli/list/keyboards.py:64 | the order is antisymmetric |
| Text.Sort | lib/python/qmk/cli/list/keyboards.py:64 | the result is sorted and a permutation of the input |
| Text.SortKeepsElements | lib/python/qmk/cli/list/keyboards.py:64 | sorting keeps the length and the elements |
| Text.SortedUnique | lib/python/qmk/cli/list/keyboards.py:64 | two sorted permutations of one list are equal, so `Sort` is the list `sorted` returns |
| Keyboards.ListKeyboards | lib/python/qmk/cli/list/keyboards.py:56-75 | the returned names are sorted and are a permutation of the names of the glob hits outside keymaps (so exactly those names, one per kept path); the printed records follow them one to one, each with its name and its `locate_info_json` result |
| C2Json.KeymapCPath | lib/python/qmk/cli/c2json.py:98 | the keymap.c of a keymap directory; `WrittenPathsAreDistinct` shows no write lands on it |
| C2Json.OutputPath | lib/python/qmk/cli/c2json.py:129 | a keymap's output file; `OutputPathsDistinct` shows it is injective in the name |
| C2Json.SummaryPath | lib/python/qmk/cli/c2json.py:134 | the summary file; `WrittenPathsAreDistinct` shows no keymap output is it |
| C2Json.ConvertKeymap | lib/python/qmk/cli/c2json.py:98-132 | one keymap's record, calls and output; its decision table is `ConvertKeymapDecisions` |
| C2Json.ConvertKeymapDecisions | lib/python/qmk/cli/c2json.py:96-128 | no keymap.c: "No C file", no call, nothing written, "no-cpp" untouched; at most two calls, the first with cpp and the second without; a retry exactly after a `KeyError` of the cpp pass, which sets "no-cpp"; output iff the last pass generated a document; otherwise the error names the last failure |
| C2Json.WrittenIffNoError | lib/python/qmk/cli/c2json.py:98-132 | for a keymap listed without an error, its file is written iff no error is recorded |
| C2Json.ConversionsAt | lib/python/qmk/cli/c2json.py:96-128 | each keymap's result depends only on that keymap: a failure never affects the others |
| C2Json.OutputPathsDistinct | lib/python/qmk/cli/c2json.py:129 | keymaps with different names get different output files |
| C2Json.WrittenPathsAreDistinct | lib/python/qmk/cli/c2json.py:98-137 | no output file is the summary, and neither is ever a keymap.c |
| C2Json.BatchWrites | lib/python/qmk/cli/c2json.py:94-137 | nothing is written iff no keymap is listed; otherwise the last write is the summary of the final records |
| C2Json.KeymapWritesAreSuccesses | lib/python/qmk/cli/c2json.py:111-132 | a keymap file is written iff some conversion succeeded with that path and document |
| C2Json.KeymapWritesCount | lib/python/qmk/cli/c2json.py:129-132 | as many keymap files are written as conversions succeeded |
| C2Json.KeymapWritesKeepCFiles | lib/python/qmk/cli/c2json.py:98-132 | writing keymap.json files never creates or removes a keymap.c, so later existence checks see the original files |
| C2Json.BatchRequestsBound | lib/python/qmk/cli/c2json.py:104-128 | the batch makes at most two conversion calls per keymap |
| C2Json.KeymapWritesLand | lib/python/qmk/cli/c2json.py:129-132 | a converted keymap's document is in its output file afterwards, unless a later keymap has the same name |
| C2Json.BatchResult | lib/python/qmk/cli/c2json.py:94-137 | for keymaps with distinct names: the summary holds the final records, and each successful keymap's document is in its own output file |
| C2Json.KeymapBatch.constructor | lib/python/qmk/cli/c2json.py:92 | the batch holds the listed keymap records in order, with no calls made yet |
| C2Json.KeymapBatch.CreateKeymaps | lib/python/qmk/cli/c2json.py:90-137 | the records end as `ConvertKeymap` of each listed keymap against the starting files; the calls are those of the keymaps in list order; the files end as the keymap writes followed by the summary |
| C2Json.KeymapBatch.CreateEachKeymap | lib/python/qmk/cli/c2json.py:96-132 | the loop visits every keymap once, in order, with the same final records, calls and keymap writes as processing each keymap on its own |
| C2Json.KeymapBatch.CreateKeymap | lib/python/qmk/cli/c2json.py:98-132 | one iteration updates only its own record, appends its calls and writes at most its own output file, as `ConvertKeymap` decides |
| Files.FileSystem.WriteText | lib/python/qmk/cli/c2json.py:57 | `write_text` creates or overwrites exactly one file |
| Files.FileSystem.Replace | lib/python/qmk/cli/c2json.py:56 | `replace` moves a file's content to the target, overwriting it, and removes the source |
| C2Json.NoCppValue | lib/python/qmk/cli/c2json.py:18 | `--no-cpp` is a store_false flag: cpp is used unless it is given |
| C2Json.ParsedOutput | lib/python/qmk/cli/c2json.py:19 | `-o` parsed by `normpath`: None iff absent, and never a str |
| C2Json.OutputAsWritten | lib/python/qmk/cli/c2json.py:19-41 | as written, the output option keeps the Path it was parsed to: a given `-o` is never turned into None |
| C2Json.DashOutputIsAFileAsWritten | lib/python/qmk/cli/c2json.py:40-41 | as written, `-o -` names a file called "-" instead of standard output |
| C2Json.OutputTarget | lib/python/qmk/cli/c2json.py:40-41 | no output file iff `-o` is absent or "-"; any other value is resolved by `normpath` |
| C2Json.OutputTargetDiffersOnlyOnDash | lib/python/qmk/cli/c2json.py:40-41 | the corrected decision agrees with the code for every output except "-" |
| C2Json.BakPath | lib/python/qmk/cli/c2json.py:56 | the backup name extends the output path, so it is never the output itself |
| C2Json.WriteWithBackup | lib/python/qmk/cli/c2json.py:53-57 | the output holds the new content; an old output moves to `<output>.bak`; no other file changes |
| C2Json.RepeatedWritesKeepOneBackup | lib/python/qmk/cli/c2json.py:55-57 | two runs with the same output leave the new output and exactly one `.bak` holding the previous one |
| C2Json.InputFile | lib/python/qmk/cli/c2json.py:30-31 | the input is "-" or its `normpath`; `RunC2Json` states when it must exist |
| C2Json.RunC2Json | lib/python/qmk/cli/c2json.py:25-63 | a missing input file (not "-") returns False with no call; otherwise one call with cpp unless `--no-cpp`; success iff a document was generated; a decode error is not caught; no output on failure; the document goes to stdout or to the output file with a backup |
| C2Json.C2JsonCommand | lib/python/qmk/cli/c2json.py:30-63 | the step-by-step command ends in exactly the status, calls, stdout and files `RunC2Json` describes |

## Findings

| source | as written | input that shows it | evidently intended | confidence | as-written member | corrected member |
|---|---|---|---|---|---|---|
| lib/python/qmk/cli/c2json.py:40 | `-o` is declared with `type=qmk.path.normpath` (line 19), so `cli.args.output` is a Path. It is then compared with the str `'-'`, which is never equal to a Path. | `qmk c2json -kb <kb> -km <km> -o - keymap.c` writes a file named `-` in the working directory | `-o -` sends the document to standard output, like an absent `-o` | high (a Path never equals a str in Python); not executed | C2Json.OutputAsWritten | C2Json.OutputTarget |

The rest of the model (`RunC2Json`, `C2JsonCommand`) uses the corrected `OutputTarget`.

## Left out

- Keyboards.CheckedDirsArePrefixes: stated only for a keyboard that is non-empty and does not start with '/'. For a leading '/', the code skips the empty first component: `checked_dirs` is still empty after the first iteration and then becomes the bare second component. So the join identity does not hold there.
- Keyboards.InfoJsonIsDeepest: stated under the same condition, for the same reason.
- `create_all_keymaps` (c2json.py:66-87) is not modelled. It runs `create_keymaps` for every keyboard in a `multiprocessing.Pool` and prints timings, which are concurrency and clock reads.
- The `test` subcommand (keyboards.py:52-54) is a fixed debugging print.
- Logging, `print(keymap)`, `cli.print_usage` and the `--quiet` flag are not modelled. They only produce messages.
- JSON serialisation (`json.dumps`, `InfoJSONEncoder`) is not modelled. Files hold the written values as datatypes instead of their JSON text.
- Creating parent directories (`mkdir(parents=True, exist_ok=True)`) is not modelled. The filesystem holds files only.
- `qmk.keymap.c2json`, `generate_json` and `list_keymaps` are outside these files. Three assumptions follow from that:
  - Conversion is the `convert` parameter, and the cpp subprocess is not modelled.
  - `c2json` is assumed to raise only `UnicodeDecodeError` itself. A `KeyError` is taken to arise while reading the parsed keymap's keys or in `generate_json`, where both commands catch it.
  - Listed keymaps are assumed to have distinct names only where `BatchResult` says so.
- `qmk.path.normpath`, `qmk.path.is_keyboard` and the `keyboard_folder` argument type are abstract. lib/python/qmk/path.py and lib/python/qmk/keyboard.py are not part of this model.
  - In `create_keymaps`, paths are the relative strings the code builds. Resolving them against the working directory is not modelled.
  - `-kb` is taken as given. Keyboard aliases are not modelled.
- pathlib normalisation in `locate_info_json` is not modelled. Paths are built by string concatenation with '/'. pathlib's `/` would also collapse repeated or trailing separators, and would let an absolute `checked_dirs` replace `keyboards`.
- `os.path.sep` is '/' (POSIX). The order of glob hits and glob's treatment of hidden directories come with the `globbed` parameter.
- The firmware keymap file keyboards/xd75/keymaps/boy_314/keymap.c is data for the converter, not logic. It is not modelled.
