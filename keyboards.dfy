/**
  The keyboard listing of `qmk list-keyboards` (lib/python/qmk/cli/list/keyboards.py):
  turning the `rules.mk` paths found under `keyboards/` into keyboard names,
  locating the `info.json` that applies to a keyboard, and producing the
  sorted list of keyboards with their records.

  The filesystem enters as two predicates: `isKeyboard` (qmk.path.is_keyboard)
  and `fileExists` (Path.exists), and the result of the recursive glob as a
  list of paths. Paths use the POSIX separator '/'.
 */
module Keyboards {
  import opened Wrappers
  import opened Text

  const Sep: char := '/'

  /** os.path.sep + "rules.mk": the suffix `find_name` strips. */
  const RulesMk: string := "/rules.mk"

  /** A glob hit whose path contains this substring belongs to a keymap, not a keyboard. */
  const KeymapsMarker: string := "keymaps"

  /** os.path.join(a, b) for a relative `b`: one separator between the two. */
  function PathJoin(a: string, b: string): string
  {
    if a == [] || a[|a| - 1] == Sep then a + b else a + [Sep] + b
  }

  /** os.path.join(cwd, "keyboards"): the directory holding all keyboards. */
  function KeyboardsRoot(cwd: string): string
  {
    PathJoin(cwd, "keyboards")
  }

  /** BASE_PATH: the keyboards directory followed by a separator. */
  function BasePath(cwd: string): string
  {
    KeyboardsRoot(cwd) + [Sep]
  }

  /**
    find_name: remove every occurrence of BASE_PATH, then every occurrence of
    "/rules.mk" (Python's str.replace replaces all occurrences, not only a
    leading or trailing one).
   */
  function FindName(cwd: string, path: string): string
  {
    ReplaceAll(ReplaceAll(path, BasePath(cwd), ""), RulesMk, "")
  }

  /** The only separator in "/rules.mk" is its first character. */
  lemma RulesMkSeparatorOnlyFirst(k: int)
    requires 1 <= k < |RulesMk|
    ensures RulesMk[k] != Sep
  {
    assert RulesMk == ['/', 'r', 'u', 'l', 'e', 's', '.', 'm', 'k'];
  }

  /**
    A BASE_PATH in `n + "/rules.mk"` lies within `n`, or it ends at the
    separator of "/rules.mk" and `n` ends with the keyboards directory.
   */
  lemma BasePathInRulesMkPath(cwd: string, n: string, i: int)
    requires OccursAt(n + RulesMk, BasePath(cwd), i)
    ensures OccursAt(n, BasePath(cwd), i) || EndsWith(n, KeyboardsRoot(cwd))
  {
    var base, root, tail := BasePath(cwd), KeyboardsRoot(cwd), n + RulesMk;
    if i + |base| <= |n| {
      assert tail[i..i + |base|] == n[i..i + |base|];
    } else {
      var k := i + |base| - 1 - |n|;
      assert RulesMk[k] == tail[i + |base| - 1] == base[|base| - 1];
      if k > 0 {
        RulesMkSeparatorOnlyFirst(k);
      }
      assert base[..|root|] == root;
      assert tail[i..i + |base|][..|root|] == tail[i..|n|] == n[i..];
    }
  }

  /** In `n + "/rules.mk"` the only "/rules.mk" starting inside `n` would lie within `n`. */
  lemma NoRulesMkInsideName(n: string)
    requires !Contains(n, RulesMk)
    ensures forall i :: 0 <= i < |n| ==> !OccursAt(n + RulesMk, RulesMk, i)
  {
    var tail := n + RulesMk;
    forall i | 0 <= i < |n| ensures !OccursAt(tail, RulesMk, i) {
      if OccursAt(tail, RulesMk, i) {
        if i + |RulesMk| <= |n| {
          assert tail[i..i + |RulesMk|] == n[i..i + |RulesMk|];
          assert OccursAt(n, RulesMk, i);
        } else {
          assert RulesMk[|n| - i] == tail[|n|];
          RulesMkSeparatorOnlyFirst(|n| - i);
        }
      }
    }
  }

  /**
    find_name recovers the keyboard name `n` from the path of its rules.mk,
    provided the replacements find nothing inside `n`: `n` neither contains
    BASE_PATH nor "/rules.mk", and does not end with the keyboards directory
    (which, followed by the separator of "/rules.mk", would form a second
    BASE_PATH).
   */
  lemma FindNameStripsBaseAndRules(cwd: string, n: string)
    requires !Contains(n, BasePath(cwd))
    requires !EndsWith(n, KeyboardsRoot(cwd))
    requires !Contains(n, RulesMk)
    ensures FindName(cwd, BasePath(cwd) + n + RulesMk) == n
  {
    var base := BasePath(cwd);
    var tail := n + RulesMk;
    assert base + n + RulesMk == base + tail;
    ReplaceAllLeading(base, tail, "");
    forall i | 0 <= i <= |tail| - |base| ensures !OccursAt(tail, base, i) {
      if OccursAt(tail, base, i) {
        BasePathInRulesMkPath(cwd, n, i);
      }
    }
    assert !Contains(tail, base);
    ReplaceAllAbsent(tail, base, "");
    assert ReplaceAll(base + tail, base, "") == tail;
    NoRulesMkInsideName(n);
    ReplaceAllTrailing(n, RulesMk, "");
    assert ReplaceAll(tail, RulesMk, "") == n;
  }

  /**
    The condition on the end of `n` cannot be dropped: for cwd "/h" the name
    "/h/keyboards" meets the other two conditions, yet its separator and the
    one of "/rules.mk" form a second BASE_PATH, and find_name yields "rules.mk".
   */
  lemma FindNameNeedsNameNotEndingInRoot()
    ensures var n := "/h/keyboards";
      && !Contains(n, BasePath("/h"))
      && !Contains(n, RulesMk)
      && EndsWith(n, KeyboardsRoot("/h"))
      && FindName("/h", BasePath("/h") + n + RulesMk) == "rules.mk" != n
  {
    var n := "/h/keyboards";
    var base := BasePath("/h");
    assert base == "/h/keyboards/";
    assert base + n + RulesMk == base + (base + "rules.mk");
    ReplaceAllLeading(base, base + "rules.mk", "");
    ReplaceAllLeading(base, "rules.mk", "");
    assert ReplaceAll(base + n + RulesMk, base, "") == "rules.mk";
    forall i | 0 <= i <= |n| - |RulesMk| ensures !OccursAt(n, RulesMk, i) {
      assert n[i + 1] != RulesMk[1];
    }
  }

  // ---------------------------------------------------------------------
  // locate_info_json

  /** One iteration's update of `checked_dirs`: join with '/' unless still empty. */
  function NextCheckedDirs(checked: string, dir: string): string
  {
    if checked != [] then checked + [Sep] + dir else dir
  }

  /** The value of `checked_dirs` after the first `k` iterations over `parts`. */
  function CheckedDirs(parts: seq<string>, k: nat): string
    requires k <= |parts|
  {
    if k == 0 then [] else NextCheckedDirs(CheckedDirs(parts, k - 1), parts[k - 1])
  }

  /** str(Path('keyboards') / dirs / 'info.json'); an empty `dirs` adds no component. */
  function InfoJsonPath(dirs: string): string
  {
    if dirs == [] then "keyboards/info.json" else "keyboards/" + dirs + "/info.json"
  }

  /** The info.json path checked in iteration `j` (counting from 1). */
  function InfoJsonAt(parts: seq<string>, j: nat): string
    requires j <= |parts|
  {
    InfoJsonPath(CheckedDirs(parts, j))
  }

  /**
    The value of `info_json_path` after the first `k` iterations: the path of
    the last iteration whose info.json exists, None (the initial '') if none.
   */
  function LastInfoJson(parts: seq<string>, k: nat, fileExists: string -> bool): Option<string>
    requires k <= |parts|
  {
    if k == 0 then None
    else if fileExists(InfoJsonAt(parts, k)) then Some(InfoJsonAt(parts, k))
    else LastInfoJson(parts, k - 1, fileExists)
  }

  /**
    The path kept after k iterations is the one of the last iteration whose
    info.json exists: it exists and no later one does; and nothing is kept
    exactly when no checked info.json exists.
   */
  lemma {:induction false} LastInfoJsonIsLastMatch(parts: seq<string>, k: nat, fileExists: string -> bool)
    requires k <= |parts|
    ensures var r := LastInfoJson(parts, k, fileExists);
      r.Some? ==>
        exists j :: 1 <= j <= k && r.value == InfoJsonAt(parts, j) && fileExists(r.value) &&
          forall l :: j < l <= k ==> !fileExists(InfoJsonAt(parts, l))
    ensures LastInfoJson(parts, k, fileExists).None? <==>
      forall j :: 1 <= j <= k ==> !fileExists(InfoJsonAt(parts, j))
  {
    if k == 0 {
    } else if !fileExists(InfoJsonAt(parts, k)) {
      LastInfoJsonIsLastMatch(parts, k - 1, fileExists);
      var r := LastInfoJson(parts, k - 1, fileExists);
      if r.Some? {
        var j :| 1 <= j <= k - 1 && r.value == InfoJsonAt(parts, j) && fileExists(r.value) &&
          forall l :: j < l <= k - 1 ==> !fileExists(InfoJsonAt(parts, l));
        assert forall l :: j < l <= k ==> !fileExists(InfoJsonAt(parts, l));
      }
    }
  }

  /** What locate_info_json returns, as a function of the keyboard and the filesystem. */
  function InfoJsonOf(keyboard: string, isKeyboard: string -> bool, fileExists: string -> bool): (r: Option<string>)
    ensures !isKeyboard(keyboard) ==> r == None
    ensures r.Some? ==> fileExists(r.value)
  {
    if !isKeyboard(keyboard) then None
    else
      var parts := Split(keyboard, Sep);
      LastInfoJsonIsLastMatch(parts, |parts|, fileExists);
      LastInfoJson(parts, |parts|, fileExists)
  }

  /**
    locate_info_json: walk the '/'-separated components of the keyboard,
    accumulating the directory checked so far, and keep the last directory
    whose info.json exists.
   */
  method LocateInfoJson(keyboard: string, isKeyboard: string -> bool, fileExists: string -> bool)
    returns (infoJson: Option<string>)
    ensures infoJson == InfoJsonOf(keyboard, isKeyboard, fileExists)
  {
    if !isKeyboard(keyboard) {
      return None;
    }
    var parts := Split(keyboard, Sep);
    var checkedDirs: string := [];
    var infoJsonPath: Option<string> := None;
    for i := 0 to |parts|
      invariant checkedDirs == CheckedDirs(parts, i)
      invariant infoJsonPath == LastInfoJson(parts, i, fileExists)
    {
      var dir := parts[i];
      if checkedDirs != [] {
        checkedDirs := checkedDirs + [Sep] + dir;
      } else {
        checkedDirs := dir;
      }
      var candidate := InfoJsonPath(checkedDirs);
      if fileExists(candidate) {
        infoJsonPath := Some(candidate);
      }
    }
    infoJson := infoJsonPath;
  }

  /**
    For a keyboard that does not start with a separator, `checked_dirs` after
    iteration k is the first k components joined by '/': a prefix of the
    keyboard that grows with every iteration and is the whole keyboard at the end.
   */
  lemma {:induction false} CheckedDirsArePrefixes(keyboard: string, k: nat)
    requires keyboard != [] && keyboard[0] != Sep
    requires 1 <= k <= |Split(keyboard, Sep)|
    ensures var parts := Split(keyboard, Sep);
      && CheckedDirs(parts, k) == Join(parts[..k], Sep)
      && |CheckedDirs(parts, k)| <= |keyboard|
      && keyboard[..|CheckedDirs(parts, k)|] == CheckedDirs(parts, k)
      && (k == |parts| ==> CheckedDirs(parts, k) == keyboard)
      && (k < |parts| ==> |CheckedDirs(parts, k)| < |CheckedDirs(parts, k + 1)|)
  {
    var parts := Split(keyboard, Sep);
    assert parts[0] != [];
    if k == 1 {
      assert parts[..1] == [parts[0]];
    } else {
      CheckedDirsArePrefixes(keyboard, k - 1);
      assert parts[..k] == parts[..k - 1] + [parts[k - 1]];
      JoinSnoc(parts[..k - 1], parts[k - 1], Sep);
      assert |Join(parts[..k - 1], Sep)| >= |parts[0]| by {
        JoinPrefix(parts[..k - 1], 1, Sep);
        assert parts[..k - 1][..1] == [parts[0]];
      }
    }
    JoinSplit(keyboard, Sep);
    JoinPrefix(parts, k, Sep);
    if k == |parts| {
      assert parts[..k] == parts;
    }
  }

  /**
    "Last match wins" picks the deepest directory: for a keyboard that does
    not start with a separator, the info.json returned lies in a prefix
    directory of the keyboard, and no other checked directory with an
    info.json is longer.
   */
  lemma InfoJsonIsDeepest(keyboard: string, isKeyboard: string -> bool, fileExists: string -> bool)
    requires keyboard != [] && keyboard[0] != Sep
    requires InfoJsonOf(keyboard, isKeyboard, fileExists).Some?
    ensures var parts := Split(keyboard, Sep);
      exists j :: 1 <= j <= |parts| &&
        InfoJsonOf(keyboard, isKeyboard, fileExists).value == InfoJsonAt(parts, j) &&
        |CheckedDirs(parts, j)| <= |keyboard| &&
        keyboard[..|CheckedDirs(parts, j)|] == CheckedDirs(parts, j) &&
        forall l :: 1 <= l <= |parts| && fileExists(InfoJsonAt(parts, l)) ==>
          |CheckedDirs(parts, l)| <= |CheckedDirs(parts, j)|
  {
    var parts := Split(keyboard, Sep);
    var r := LastInfoJson(parts, |parts|, fileExists);
    LastInfoJsonIsLastMatch(parts, |parts|, fileExists);
    var j :| 1 <= j <= |parts| && r.value == InfoJsonAt(parts, j) && fileExists(r.value) &&
      forall l :: j < l <= |parts| ==> !fileExists(InfoJsonAt(parts, l));
    CheckedDirsArePrefixes(keyboard, j);
    forall l | 1 <= l <= |parts| && fileExists(InfoJsonAt(parts, l))
      ensures |CheckedDirs(parts, l)| <= |CheckedDirs(parts, j)|
    {
      if l <= j {
        CheckedDirsGrow(keyboard, l, j);
      }
    }
  }

  /** A later iteration never checks a shorter directory. */
  lemma CheckedDirsGrow(keyboard: string, l: nat, j: nat)
    requires keyboard != [] && keyboard[0] != Sep
    requires 1 <= l <= j <= |Split(keyboard, Sep)|
    ensures |CheckedDirs(Split(keyboard, Sep), l)| <= |CheckedDirs(Split(keyboard, Sep), j)|
  {
    var parts := Split(keyboard, Sep);
    CheckedDirsArePrefixes(keyboard, l);
    CheckedDirsArePrefixes(keyboard, j);
    JoinPrefix(parts[..j], l, Sep);
    assert parts[..j][..l] == parts[..l];
  }

  // ---------------------------------------------------------------------
  // list_keyboards

  /** The glob hits that survive `'keymaps' not in path`, in their order. */
  function KeptPaths(paths: seq<string>): (kept: seq<string>)
    ensures forall p :: p in kept <==> p in paths && !Contains(p, KeymapsMarker)
    ensures forall p :: multiset(kept)[p] == if Contains(p, KeymapsMarker) then 0 else multiset(paths)[p]
    decreases |paths|
  {
    if paths == [] then []
    else
      assert forall p :: p in paths <==> p == paths[0] || p in paths[1..];
      assert paths == [paths[0]] + paths[1..];
      (if Contains(paths[0], KeymapsMarker) then [] else [paths[0]]) + KeptPaths(paths[1..])
  }

  /** find_name applied to each path, in order. */
  function Names(cwd: string, paths: seq<string>): (names: seq<string>)
  {
    seq(|paths|, i requires 0 <= i < |paths| => FindName(cwd, paths[i]))
  }

  /** The names of the kept paths are exactly the names of glob hits outside keymaps. */
  lemma NamesOfKeptPaths(cwd: string, globbed: seq<string>)
    ensures forall k :: k in Names(cwd, KeptPaths(globbed)) <==>
      exists p :: p in globbed && !Contains(p, KeymapsMarker) && k == FindName(cwd, p)
  {
    var kept := KeptPaths(globbed);
    var names := Names(cwd, kept);
    forall k | k in names
      ensures exists p :: p in globbed && !Contains(p, KeymapsMarker) && k == FindName(cwd, p)
    {
      var i :| 0 <= i < |names| && names[i] == k;
      assert kept[i] in kept;
    }
    forall p | p in globbed && !Contains(p, KeymapsMarker) ensures FindName(cwd, p) in names {
      var i :| 0 <= i < |kept| && kept[i] == p;
      assert names[i] == FindName(cwd, p);
    }
  }

  /** One printed record: the keyboard's name and its info.json path (or null). */
  datatype KeyboardEntry = KeyboardEntry(name: string, path: Option<string>)

  /** What list_keyboards returns and the records it prints. */
  datatype Listing = Listing(keyboards: seq<string>, printed: seq<KeyboardEntry>)

  /**
    list_keyboards over the paths the recursive glob for `rules.mk` found:
    drop keymap paths, name the rest with find_name, sort the names and build
    one record per keyboard.
   */
  function ListKeyboards(cwd: string, globbed: seq<string>, isKeyboard: string -> bool,
                         fileExists: string -> bool): (out: Listing)
    ensures Sorted(out.keyboards)
    ensures forall k :: k in out.keyboards <==>
      exists p :: p in globbed && !Contains(p, KeymapsMarker) && k == FindName(cwd, p)
    ensures |out.keyboards| == |KeptPaths(globbed)|
    ensures multiset(out.keyboards) == multiset(Names(cwd, KeptPaths(globbed)))
    ensures |out.printed| == |out.keyboards|
    ensures forall i :: 0 <= i < |out.printed| ==>
      out.printed[i].name == out.keyboards[i] &&
      out.printed[i].path == InfoJsonOf(out.keyboards[i], isKeyboard, fileExists)
  {
    var names := Names(cwd, KeptPaths(globbed));
    var keyboards := Sort(names);
    SortKeepsElements(names);
    NamesOfKeptPaths(cwd, globbed);
    var printed := seq(|keyboards|, i requires 0 <= i < |keyboards| =>
      KeyboardEntry(keyboards[i], InfoJsonOf(keyboards[i], isKeyboard, fileExists)));
    Listing(keyboards, printed)
  }
}
