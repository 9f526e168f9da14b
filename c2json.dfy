/**
  The keymap.c to keymap.json commands of lib/python/qmk/cli/c2json.py:

  - `create_keymaps`, which converts every keymap of one keyboard, recording a
    status on each keymap record, retrying once without the C preprocessor,
    and writing the converted keymaps and a per-keyboard summary;
  - `c2json`, the single-file command, with its argument handling and the
    `.bak` backup of an existing output file.

  The conversion itself (qmk.keymap.c2json followed by qmk.keymap.generate_json)
  is not modelled: a `Converter` function gives the outcome of each pass.
 */
module C2Json {
  import opened Wrappers
  import opened Files

  /** The three error strings create_keymaps stores under a keymap's "error" key. */
  datatype KeymapError = NoCFile | UnicodeDecodeError | UnknownError {
    function Message(): string
    {
      match this
      case NoCFile => "No C file"
      case UnicodeDecodeError => "Unicode Decode Error"
      case UnknownError => "Unknown Error"
    }
  }

  /**
    A keymap record as qmk.keymap.list_keymaps lists it ("name", "path"), with
    the keys create_keymaps adds: "error" (None while absent) and "no-cpp"
    (false while absent; the batch only ever sets it to True).
   */
  datatype KeymapRecord = KeymapRecord(name: string, path: string, error: Option<KeymapError>, noCpp: bool)

  /** The keymap.json document generate_json returns. */
  datatype KeymapDocument = KeymapDocument(keyboard: string, keymap: string, layout: string, layers: seq<seq<string>>)

  /** One call of qmk.keymap.c2json: keyboard, keymap name, keymap.c file and use_cpp. */
  datatype ConversionRequest = ConversionRequest(keyboard: string, keymap: string, file: string, useCpp: bool)

  /**
    The outcome of one pass: c2json raised UnicodeDecodeError; or a KeyError
    arose while reading the parsed keymap's keys or inside generate_json; or
    generate_json returned a document.
   */
  datatype PassOutcome = Generated(document: KeymapDocument) | DecodeError | KeyError

  /** Stands for qmk.keymap.c2json followed by generate_json. */
  type Converter = ConversionRequest -> PassOutcome

  /** What the commands write: a keymap.json, a keyboard's summary, or any other file. */
  datatype FileContent = KeymapJson(document: KeymapDocument) | Summary(records: seq<KeymapRecord>) | Other(text: string)

  // ---------------------------------------------------------------------
  // create_keymaps: paths

  /** keymap["path"] + "/keymap.c" */
  function KeymapCPath(keymapPath: string): string
  {
    keymapPath + "/keymap.c"
  }

  /** "keymaps/" + keyboard + "/" + keymap["name"] + ".keymap.json" */
  function OutputPath(keyboard: string, name: string): string
  {
    "keymaps/" + keyboard + "/" + name + ".keymap.json"
  }

  /** "keymaps/" + keyboard + "/" + "keymaps.json" */
  function SummaryPath(keyboard: string): string
  {
    "keymaps/" + keyboard + "/keymaps.json"
  }

  /** Keymaps with different names get different output files. */
  lemma OutputPathsDistinct(keyboard: string, name1: string, name2: string)
    requires name1 != name2
    ensures OutputPath(keyboard, name1) != OutputPath(keyboard, name2)
  {
    var prefix := "keymaps/" + keyboard + "/";
    var p1, p2 := OutputPath(keyboard, name1), OutputPath(keyboard, name2);
    assert p1 == prefix + name1 + ".keymap.json";
    assert p2 == prefix + name2 + ".keymap.json";
    assert p1[|prefix|..|p1| - 12] == name1;
    assert p2[|prefix|..|p2| - 12] == name2;
  }

  /**
    No keymap's output file is the summary, and neither is ever a keymap.c:
    the batch never overwrites what it reads or what it wrote for a keymap.
   */
  lemma WrittenPathsAreDistinct(keyboard: string, name: string, keymapPath: string)
    ensures OutputPath(keyboard, name) != SummaryPath(keyboard)
    ensures OutputPath(keyboard, name) != KeymapCPath(keymapPath)
    ensures SummaryPath(keyboard) != KeymapCPath(keymapPath)
  {
    var o, m := OutputPath(keyboard, name), SummaryPath(keyboard);
    assert o == ("keymaps/" + keyboard + "/" + name) + ".keymap.json";
    assert m == ("keymaps/" + keyboard + "/") + "keymaps.json";
    assert o[|o| - 12] == '.';
    assert m[|m| - 12] == 'k';
    var c := KeymapCPath(keymapPath);
    assert c[|c| - 1] == 'c';
    assert OutputPath(keyboard, name)[|OutputPath(keyboard, name)| - 1] == 'n';
    assert SummaryPath(keyboard)[|SummaryPath(keyboard)| - 1] == 'n';
  }

  // ---------------------------------------------------------------------
  // create_keymaps: one keymap

  /** The c2json call create_keymaps makes for a keymap. */
  function RequestFor(keyboard: string, keymap: KeymapRecord, useCpp: bool): ConversionRequest
  {
    ConversionRequest(keyboard, keymap.name, KeymapCPath(keymap.path), useCpp)
  }

  /**
    What processing one keymap does: the record afterwards, the c2json calls
    made, in order, and the document written to its output file, if any.
   */
  datatype Conversion = Conversion(record: KeymapRecord, requests: seq<ConversionRequest>, output: Option<KeymapDocument>)

  /**
    The decision sequence of one iteration of create_keymaps, as a table over
    the outcomes: no keymap.c; the cpp pass; on a KeyError the pass without cpp.
   */
  function ConvertKeymap(keyboard: string, keymap: KeymapRecord, cFileExists: bool, convert: Converter): Conversion
  {
    var request, retry := RequestFor(keyboard, keymap, true), RequestFor(keyboard, keymap, false);
    if !cFileExists then Conversion(keymap.(error := Some(NoCFile)), [], None)
    else
      match convert(request)
      case DecodeError => Conversion(keymap.(error := Some(UnicodeDecodeError)), [request], None)
      case Generated(document) => Conversion(keymap, [request], Some(document))
      case KeyError =>
        var flagged := keymap.(noCpp := true);
        match convert(retry)
        case DecodeError => Conversion(flagged.(error := Some(UnicodeDecodeError)), [request, retry], None)
        case KeyError => Conversion(flagged.(error := Some(UnknownError)), [request, retry], None)
        case Generated(document) => Conversion(flagged, [request, retry], Some(document))
  }

  /** What processing one keymap promises, stated over the outcomes of its passes. */
  lemma ConvertKeymapDecisions(keyboard: string, keymap: KeymapRecord, cFileExists: bool, convert: Converter)
    ensures var c := ConvertKeymap(keyboard, keymap, cFileExists, convert);
      // name and path are kept
      && c.record.name == keymap.name && c.record.path == keymap.path
      // no keymap.c: no attempt, nothing written, "no-cpp" untouched
      && (!cFileExists ==> c == Conversion(keymap.(error := Some(NoCFile)), [], None))
      // at most one retry; the first attempt uses cpp and the retry does not
      && (cFileExists ==> 1 <= |c.requests| <= 2)
      && c.requests == [RequestFor(keyboard, keymap, true), RequestFor(keyboard, keymap, false)][..|c.requests|]
      // the retry happens exactly on a KeyError of the cpp pass, and sets "no-cpp"
      && (|c.requests| == 2 <==> cFileExists && convert(RequestFor(keyboard, keymap, true)).KeyError?)
      && c.record.noCpp == (keymap.noCpp || |c.requests| == 2)
      // the output is written exactly when the last pass generated a document, and no error is recorded then
      && (c.output.Some? <==> c.requests != [] && convert(c.requests[|c.requests| - 1]).Generated?)
      && (c.output.Some? ==>
            c.output.value == convert(c.requests[|c.requests| - 1]).document && c.record.error == keymap.error)
      // a failed attempt names its failure
      && (c.output.None? && c.requests != [] ==>
            c.record.error == Some(if convert(c.requests[|c.requests| - 1]).DecodeError? then UnicodeDecodeError
                                   else UnknownError))
  {
  }

  /** For a keymap listed without an "error" key, its file is written iff no error is recorded. */
  lemma WrittenIffNoError(keyboard: string, keymap: KeymapRecord, cFileExists: bool, convert: Converter)
    requires keymap.error == None
    ensures var c := ConvertKeymap(keyboard, keymap, cFileExists, convert);
      c.output.Some? <==> c.record.error == None
  {
  }

  // ---------------------------------------------------------------------
  // create_keymaps: the whole keyboard

  /** Whether the keymap.c of a listed keymap is among the files. */
  predicate HasCFile(keymap: KeymapRecord, files: map<string, FileContent>)
  {
    KeymapCPath(keymap.path) in files
  }

  /** Each listed keymap processed in turn, each against the files as they were at the start. */
  function Conversions(keyboard: string, keymaps: seq<KeymapRecord>, files: map<string, FileContent>,
                       convert: Converter): (cs: seq<Conversion>)
    ensures |cs| == |keymaps|
    decreases |keymaps|
  {
    if keymaps == [] then []
    else
      var last := keymaps[|keymaps| - 1];
      Conversions(keyboard, keymaps[..|keymaps| - 1], files, convert) +
        [ConvertKeymap(keyboard, last, HasCFile(last, files), convert)]
  }

  /** The i-th conversion is the i-th keymap's, whatever the others did. */
  lemma {:induction false} ConversionsAt(keyboard: string, keymaps: seq<KeymapRecord>, files: map<string, FileContent>,
                                         convert: Converter, i: nat)
    requires i < |keymaps|
    ensures Conversions(keyboard, keymaps, files, convert)[i] ==
      ConvertKeymap(keyboard, keymaps[i], HasCFile(keymaps[i], files), convert)
    decreases |keymaps|
  {
    if i < |keymaps| - 1 {
      ConversionsAt(keyboard, keymaps[..|keymaps| - 1], files, convert, i);
    }
  }

  /** The keymap records after the batch, in their listed order. */
  function Records(cs: seq<Conversion>): (records: seq<KeymapRecord>)
    ensures |records| == |cs|
    decreases |cs|
  {
    if cs == [] then [] else Records(cs[..|cs| - 1]) + [cs[|cs| - 1].record]
  }

  /** All c2json calls of the batch, keymap after keymap. */
  function Requests(cs: seq<Conversion>): seq<ConversionRequest>
  {
    if cs == [] then [] else Requests(cs[..|cs| - 1]) + cs[|cs| - 1].requests
  }

  /** A file write, in the order the batch performs them. */
  datatype Write = Write(path: string, content: FileContent)

  /** The keymap.json write for a converted keymap. */
  function OutputWrite(keyboard: string, c: Conversion): Write
    requires c.output.Some?
  {
    Write(OutputPath(keyboard, c.record.name), KeymapJson(c.output.value))
  }

  /** The keymap.json files the batch writes, keymap after keymap. */
  function KeymapWrites(keyboard: string, cs: seq<Conversion>): seq<Write>
  {
    if cs == [] then []
    else
      var c := cs[|cs| - 1];
      KeymapWrites(keyboard, cs[..|cs| - 1]) +
        if c.output.Some? then [OutputWrite(keyboard, c)] else []
  }

  /** Everything create_keymaps writes: the keymap files, then the summary, unless no keymap is listed. */
  function BatchWrites(keyboard: string, keymaps: seq<KeymapRecord>, files: map<string, FileContent>,
                       convert: Converter): (ws: seq<Write>)
    ensures ws == [] <==> keymaps == []
    ensures keymaps != [] ==>
      ws[|ws| - 1] == Write(SummaryPath(keyboard), Summary(Records(Conversions(keyboard, keymaps, files, convert))))
  {
    if keymaps == [] then []
    else
      var cs := Conversions(keyboard, keymaps, files, convert);
      KeymapWrites(keyboard, cs) + [Write(SummaryPath(keyboard), Summary(Records(cs)))]
  }

  /** The files after performing the writes in order. */
  function ApplyWrites(files: map<string, FileContent>, ws: seq<Write>): map<string, FileContent>
  {
    if ws == [] then files
    else ApplyWrites(files, ws[..|ws| - 1])[ws[|ws| - 1].path := ws[|ws| - 1].content]
  }

  /**
    The keymap writes are exactly one per converted keymap, at its output path
    and with its document: none for a keymap that failed, and one for every
    keymap that succeeded, whatever happened to the others.
   */
  lemma {:induction false} KeymapWritesAreSuccesses(keyboard: string, cs: seq<Conversion>)
    ensures forall w :: w in KeymapWrites(keyboard, cs) ==>
      exists i :: 0 <= i < |cs| && cs[i].output.Some? && w == OutputWrite(keyboard, cs[i])
    ensures forall i :: 0 <= i < |cs| && cs[i].output.Some? ==> OutputWrite(keyboard, cs[i]) in KeymapWrites(keyboard, cs)
    decreases |cs|
  {
    if cs != [] {
      var init := cs[..|cs| - 1];
      KeymapWritesAreSuccesses(keyboard, init);
      forall w | w in KeymapWrites(keyboard, cs)
        ensures exists i :: 0 <= i < |cs| && cs[i].output.Some? && w == OutputWrite(keyboard, cs[i])
      {
        if w in KeymapWrites(keyboard, init) {
          var i :| 0 <= i < |init| && init[i].output.Some? && w == OutputWrite(keyboard, init[i]);
          assert cs[i] == init[i];
        }
      }
    }
  }

  /** The keymap writes number exactly the successful conversions: one write per success. */
  lemma {:induction false} KeymapWritesCount(keyboard: string, cs: seq<Conversion>)
    ensures |KeymapWrites(keyboard, cs)| == |set i | 0 <= i < |cs| && cs[i].output.Some?|
    decreases |cs|
  {
    var succeeded := set i | 0 <= i < |cs| && cs[i].output.Some?;
    if cs == [] {
      assert succeeded == {};
    } else {
      var init := cs[..|cs| - 1];
      var before := set i | 0 <= i < |init| && init[i].output.Some?;
      KeymapWritesCount(keyboard, init);
      if cs[|cs| - 1].output.Some? {
        assert succeeded == before + {|cs| - 1};
        assert |cs| - 1 !in before;
      } else {
        assert succeeded == before;
      }
    }
  }

  /** Every keymap costs at most two c2json calls, so the batch at most twice as many as there are keymaps. */
  lemma {:induction false} BatchRequestsBound(keyboard: string, keymaps: seq<KeymapRecord>,
                                              files: map<string, FileContent>, convert: Converter)
    ensures |Requests(Conversions(keyboard, keymaps, files, convert))| <= 2 * |keymaps|
    decreases |keymaps|
  {
    if keymaps != [] {
      var init := keymaps[..|keymaps| - 1];
      var last := keymaps[|keymaps| - 1];
      var cs := Conversions(keyboard, init, files, convert);
      var c := ConvertKeymap(keyboard, last, HasCFile(last, files), convert);
      BatchRequestsBound(keyboard, init, files, convert);
      ConvertKeymapDecisions(keyboard, last, HasCFile(last, files), convert);
      assert (cs + [c])[..|cs|] == cs;
      assert Requests(cs + [c]) == Requests(cs) + c.requests;
    }
  }

  /**
    A converted keymap's document is in its output file after the batch,
    provided no later keymap has the same name.
   */
  lemma {:induction false} KeymapWritesLand(keyboard: string, cs: seq<Conversion>, files: map<string, FileContent>, i: nat)
    requires i < |cs| && cs[i].output.Some?
    requires forall j :: i < j < |cs| ==> cs[j].record.name != cs[i].record.name
    ensures var after := ApplyWrites(files, KeymapWrites(keyboard, cs));
      OutputPath(keyboard, cs[i].record.name) in after &&
      after[OutputPath(keyboard, cs[i].record.name)] == KeymapJson(cs[i].output.value)
    decreases |cs|
  {
    var init := cs[..|cs| - 1];
    var last := cs[|cs| - 1];
    var ws := KeymapWrites(keyboard, init);
    if last.output.Some? {
      ApplyWritesSnoc(files, ws, OutputWrite(keyboard, last));
    } else {
      assert KeymapWrites(keyboard, cs) == ws;
    }
    if i < |cs| - 1 {
      assert init[i] == cs[i];
      KeymapWritesLand(keyboard, init, files, i);
      if last.output.Some? {
        OutputPathsDistinct(keyboard, last.record.name, cs[i].record.name);
      }
    }
  }

  /**
    After create_keymaps on keymaps with distinct names: the summary holds the
    final records, and every keymap whose conversion succeeded has its
    document in its own output file.
   */
  lemma BatchResult(keyboard: string, keymaps: seq<KeymapRecord>, files: map<string, FileContent>,
                    convert: Converter, i: nat)
    requires i < |keymaps|
    requires forall j, k :: 0 <= j < k < |keymaps| ==> keymaps[j].name != keymaps[k].name
    ensures var cs := Conversions(keyboard, keymaps, files, convert);
      var after := ApplyWrites(files, BatchWrites(keyboard, keymaps, files, convert));
      && SummaryPath(keyboard) in after && after[SummaryPath(keyboard)] == Summary(Records(cs))
      && (cs[i].output.Some? ==>
            OutputPath(keyboard, keymaps[i].name) in after &&
            after[OutputPath(keyboard, keymaps[i].name)] == KeymapJson(cs[i].output.value))
  {
    var cs := Conversions(keyboard, keymaps, files, convert);
    var summary := Write(SummaryPath(keyboard), Summary(Records(cs)));
    ApplyWritesSnoc(files, KeymapWrites(keyboard, cs), summary);
    ConversionsAt(keyboard, keymaps, files, convert, i);
    ConvertKeymapDecisions(keyboard, keymaps[i], HasCFile(keymaps[i], files), convert);
    if cs[i].output.Some? {
      forall j | i < j < |cs| ensures cs[j].record.name != cs[i].record.name {
        ConversionsAt(keyboard, keymaps, files, convert, j);
        ConvertKeymapDecisions(keyboard, keymaps[j], HasCFile(keymaps[j], files), convert);
      }
      KeymapWritesLand(keyboard, cs, files, i);
      WrittenPathsAreDistinct(keyboard, keymaps[i].name, "");
    }
  }

  /** Writing keymap.json files never creates or removes a keymap.c. */
  lemma {:induction false} KeymapWritesKeepCFiles(keyboard: string, cs: seq<Conversion>,
                                                  files: map<string, FileContent>, keymapPath: string)
    ensures KeymapCPath(keymapPath) in ApplyWrites(files, KeymapWrites(keyboard, cs)) <==>
      KeymapCPath(keymapPath) in files
    decreases |cs|
  {
    if cs != [] {
      var ws := KeymapWrites(keyboard, cs);
      var init := KeymapWrites(keyboard, cs[..|cs| - 1]);
      KeymapWritesKeepCFiles(keyboard, cs[..|cs| - 1], files, keymapPath);
      if ws != init {
        var c := cs[|cs| - 1];
        assert ws == init + [ws[|ws| - 1]];
        assert ws[..|ws| - 1] == init;
        WrittenPathsAreDistinct(keyboard, c.record.name, keymapPath);
      }
    }
  }

  lemma AppendAssociative<T>(a: seq<T>, b: seq<T>, c: seq<T>)
    ensures a + b + c == a + (b + c)
  {
  }

  /** Replacing the first not yet processed element moves the boundary by one. */
  lemma UpdateNext<T>(done: seq<T>, all: seq<T>, i: nat, x: T)
    requires |done| == i < |all|
    ensures (done + all[i..])[i := x] == done + [x] + all[i + 1..]
  {
    assert (done + all[i..])[i := x] == done + ([x] + all[i + 1..]);
  }

  /** Performing one more write. */
  lemma ApplyWritesSnoc(files: map<string, FileContent>, ws: seq<Write>, w: Write)
    ensures ApplyWrites(files, ws + [w]) == ApplyWrites(files, ws)[w.path := w.content]
  {
    assert (ws + [w])[..|ws|] == ws;
  }

  /**
    One more keymap processed: its record, its c2json calls and its write, if
    any, come after those of the earlier keymaps.
   */
  lemma BatchStep(keyboard: string, keymaps: seq<KeymapRecord>, i: nat, files: map<string, FileContent>,
                  convert: Converter)
    requires i < |keymaps|
    ensures var cs := Conversions(keyboard, keymaps[..i], files, convert);
      var c := ConvertKeymap(keyboard, keymaps[i], HasCFile(keymaps[i], files), convert);
      && Conversions(keyboard, keymaps[..i + 1], files, convert) == cs + [c]
      && Records(cs + [c]) == Records(cs) + [c.record]
      && Requests(cs + [c]) == Requests(cs) + c.requests
      && ApplyWrites(files, KeymapWrites(keyboard, cs + [c])) ==
           var before := ApplyWrites(files, KeymapWrites(keyboard, cs));
           if c.output.Some? then before[OutputPath(keyboard, c.record.name) := KeymapJson(c.output.value)]
           else before
  {
    var cs := Conversions(keyboard, keymaps[..i], files, convert);
    var c := ConvertKeymap(keyboard, keymaps[i], HasCFile(keymaps[i], files), convert);
    assert keymaps[..i + 1][..i] == keymaps[..i];
    assert (cs + [c])[..|cs|] == cs;
    var ws := KeymapWrites(keyboard, cs);
    if c.output.Some? {
      ApplyWritesSnoc(files, ws, OutputWrite(keyboard, c));
    } else {
      assert ws + [] == ws;
    }
  }

  /**
    The keymaps of one keyboard (as listed by qmk.keymap.list_keymaps) and the
    c2json calls made for them so far.
   */
  class KeymapBatch {
    const keyboard: string
    const keymaps: array<KeymapRecord>
    var requests: seq<ConversionRequest>

    constructor (keyboard: string, listed: seq<KeymapRecord>)
      ensures this.keyboard == keyboard && fresh(keymaps) && keymaps[..] == listed && requests == []
    {
      this.keyboard := keyboard;
      keymaps := new KeymapRecord[|listed|](i requires 0 <= i < |listed| => listed[i]);
      requests := [];
    }

    /**
      create_keymaps: visit every keymap once, in order, update its record in
      place, write its keymap.json when a pass succeeds, and finally write the
      summary of all records when there is at least one keymap.
     */
    method CreateKeymaps(fs: FileSystem<FileContent>, convert: Converter)
      modifies this, keymaps, fs
      ensures keymaps[..] == Records(Conversions(keyboard, old(keymaps[..]), old(fs.files), convert))
      ensures requests == old(requests) + Requests(Conversions(keyboard, old(keymaps[..]), old(fs.files), convert))
      ensures fs.files == ApplyWrites(old(fs.files), BatchWrites(keyboard, old(keymaps[..]), old(fs.files), convert))
    {
      ghost var cs := Conversions(keyboard, keymaps[..], fs.files, convert);
      ghost var initial := fs.files;
      CreateEachKeymap(fs, convert);
      if keymaps.Length > 0 {
        ghost var summary := Write(SummaryPath(keyboard), Summary(Records(cs)));
        ApplyWritesSnoc(initial, KeymapWrites(keyboard, cs), summary);
        fs.WriteText(SummaryPath(keyboard), Summary(keymaps[..]));
      }
    }

    /** The loop of create_keymaps: every keymap in turn, against the files as the earlier ones left them. */
    method CreateEachKeymap(fs: FileSystem<FileContent>, convert: Converter)
      modifies this, keymaps, fs
      ensures keymaps[..] == Records(Conversions(keyboard, old(keymaps[..]), old(fs.files), convert))
      ensures requests == old(requests) + Requests(Conversions(keyboard, old(keymaps[..]), old(fs.files), convert))
      ensures fs.files == ApplyWrites(old(fs.files), KeymapWrites(keyboard, Conversions(keyboard, old(keymaps[..]), old(fs.files), convert)))
    {
      ghost var listed := keymaps[..];
      ghost var initial := fs.files;
      for i := 0 to keymaps.Length
        invariant keymaps[..] == Records(Conversions(keyboard, listed[..i], initial, convert)) + listed[i..]
        invariant requests == old(requests) + Requests(Conversions(keyboard, listed[..i], initial, convert))
        invariant fs.files == ApplyWrites(initial, KeymapWrites(keyboard, Conversions(keyboard, listed[..i], initial, convert)))
      {
        ghost var cs := Conversions(keyboard, listed[..i], initial, convert);
        assert keymaps[i] == listed[i];
        KeymapWritesKeepCFiles(keyboard, cs, initial, listed[i].path);
        assert HasCFile(listed[i], fs.files) == HasCFile(listed[i], initial);
        ghost var c := CreateKeymap(i, fs, convert);
        assert c == ConvertKeymap(keyboard, listed[i], HasCFile(listed[i], initial), convert);
        BatchStep(keyboard, listed, i, initial, convert);
        UpdateNext(Records(cs), listed, i, c.record);
        AppendAssociative(old(requests), Requests(cs), c.requests);
      }
      assert listed[..keymaps.Length] == listed;
      assert listed[keymaps.Length..] == [];
    }

    /**
      The body of create_keymaps' loop for the keymap at index `i`: a missing
      keymap.c, the cpp pass and, after a KeyError, the pass without cpp.
     */
    method CreateKeymap(i: nat, fs: FileSystem<FileContent>, convert: Converter) returns (ghost c: Conversion)
      requires i < keymaps.Length
      modifies this, keymaps, fs
      ensures c == ConvertKeymap(keyboard, old(keymaps[i]), HasCFile(old(keymaps[i]), old(fs.files)), convert)
      ensures keymaps[..] == old(keymaps[..])[i := c.record]
      ensures requests == old(requests) + c.requests
      ensures fs.files == if c.output.Some? then old(fs.files)[OutputPath(keyboard, c.record.name) := KeymapJson(c.output.value)]
                          else old(fs.files)
    {
      var keymap := keymaps[i];
      var keymapPath := KeymapCPath(keymap.path);
      c := ConvertKeymap(keyboard, keymap, HasCFile(keymap, fs.files), convert);
      if !fs.Exists(keymapPath) {
        keymaps[i] := keymap.(error := Some(NoCFile));
        return;
      }
      var request := ConversionRequest(keyboard, keymap.name, keymapPath, true);
      requests := requests + [request];
      var outcome := convert(request);
      if outcome.DecodeError? {
        keymaps[i] := keymap.(error := Some(UnicodeDecodeError));
        return;
      }
      if outcome.KeyError? {
        keymap := keymap.(noCpp := true);
        keymaps[i] := keymap;
        var retry := ConversionRequest(keyboard, keymap.name, keymapPath, false);
        requests := requests + [retry];
        outcome := convert(retry);
        if outcome.DecodeError? {
          keymaps[i] := keymap.(error := Some(UnicodeDecodeError));
          return;
        }
        if outcome.KeyError? {
          keymaps[i] := keymap.(error := Some(UnknownError));
          return;
        }
      }
      fs.WriteText(OutputPath(keyboard, keymap.name), KeymapJson(outcome.document));
    }
  }

  // ---------------------------------------------------------------------
  // c2json: the single-file command

  /** The command line of `qmk c2json` (the raw strings, before any conversion). */
  datatype Arguments = Arguments(filename: string, output: Option<string>, keyboard: string, keymap: string,
                                 noCppGiven: bool, quiet: bool)

  /** `--no-cpp` is declared with action='store_false': its value is True unless the flag is given. */
  function NoCppValue(noCppGiven: bool): bool
  {
    !noCppGiven
  }

  /** The Python values `cli.args.output` can hold. */
  datatype PyValue = PyNone | PyStr(s: string) | PyPath(p: string)

  /** `-o` is declared with type=qmk.path.normpath: argparse turns the given string into a Path. */
  function ParsedOutput(output: Option<string>, normpath: string -> string): (v: PyValue)
    ensures v == PyNone <==> output.None?
    ensures !v.PyStr?
  {
    if output.None? then PyNone else PyPath(normpath(output.value))
  }

  /**
    `c2json`'s `if cli.args.output == ('-')`, as written: the parsed option is compared with the str '-'.
    A Path never equals a str in Python, so the comparison never succeeds and
    the option is kept as it was parsed.
   */
  function OutputAsWritten(output: Option<string>, normpath: string -> string): (target: PyValue)
    ensures target == ParsedOutput(output, normpath)
    ensures output.Some? ==> target.PyPath?
  {
    var parsed := ParsedOutput(output, normpath);
    if parsed == PyStr("-") then PyNone else parsed
  }

  /** As written, `-o -` names a file called "-" (resolved by normpath), not standard output. */
  lemma DashOutputIsAFileAsWritten(normpath: string -> string)
    ensures OutputAsWritten(Some("-"), normpath) == PyPath(normpath("-"))
    ensures OutputAsWritten(Some("-"), normpath) != PyNone
  {
  }

  /** `c2json`'s `if cli.args.output == ('-')`, as intended: "-" means standard output (None); any other file is resolved. */
  function OutputTarget(output: Option<string>, normpath: string -> string): (target: Option<string>)
    ensures target.None? <==> output.None? || output == Some("-")
    ensures target.Some? ==> target.value == normpath(output.value)
  {
    if output.None? || output.value == "-" then None else Some(normpath(output.value))
  }

  /** The corrected decision differs from the code only for "-". */
  lemma OutputTargetDiffersOnlyOnDash(output: Option<string>, normpath: string -> string)
    ensures output != Some("-") ==>
      match OutputTarget(output, normpath)
      case None => OutputAsWritten(output, normpath) == PyNone
      case Some(path) => OutputAsWritten(output, normpath) == PyPath(path)
    ensures output == Some("-") ==>
      OutputTarget(output, normpath) == None && OutputAsWritten(output, normpath) != PyNone
  {
  }

  /** The backup name: output.parent / (output.name + '.bak'), i.e. the same path with ".bak" appended. */
  function BakPath(path: string): (bak: string)
    ensures |bak| > |path| && bak[..|path|] == path
  {
    path + ".bak"
  }

  /**
    `c2json`'s write to `cli.args.output`: an existing output file is first renamed to its `.bak`
    (replacing any older `.bak`), then the output is written.
   */
  function WriteWithBackup<C>(files: map<string, C>, path: string, content: C): (r: map<string, C>)
    ensures path in r && r[path] == content
    ensures path in files ==> BakPath(path) in r && r[BakPath(path)] == files[path]
    ensures r.Keys == files.Keys + {path} + (if path in files then {BakPath(path)} else {})
    ensures forall q :: q in files && q != path && (path in files ==> q != BakPath(path)) ==> r[q] == files[q]
  {
    assert BakPath(path) != path by { assert |BakPath(path)| == |path| + 4; }
    var moved := if path in files then (files - {path})[BakPath(path) := files[path]] else files;
    moved[path := content]
  }

  /**
    Running the command twice with the same output leaves exactly one backup:
    the previous output in `path.bak`, and no `path.bak.bak`.
   */
  lemma RepeatedWritesKeepOneBackup<C>(files: map<string, C>, path: string, first: C, second: C)
    ensures var r := WriteWithBackup(WriteWithBackup(files, path, first), path, second);
      && r.Keys == files.Keys + {path, BakPath(path)}
      && r[path] == second
      && r[BakPath(path)] == first
      && (BakPath(BakPath(path)) in r <==> BakPath(BakPath(path)) in files)
  {
    assert BakPath(BakPath(path)) != path by { assert |BakPath(BakPath(path))| == |path| + 8; }
    assert BakPath(BakPath(path)) != BakPath(path) by { assert |BakPath(BakPath(path))| == |path| + 8; }
  }

  /** How the command ends: returning normally, returning False, or by an uncaught UnicodeDecodeError. */
  datatype ExitStatus = Completed | ReturnedFalse | UncaughtDecodeError

  /** The observable result of one run: its status, the c2json calls, what went to stdout, the files after. */
  datatype CommandRun = CommandRun(status: ExitStatus, requests: seq<ConversionRequest>,
                                   stdout: seq<KeymapDocument>, files: map<string, FileContent>)

  /** The file given to c2json: "-" as is, anything else resolved by normpath. */
  function InputFile(args: Arguments, normpath: string -> string): string
  {
    if args.filename != "-" then normpath(args.filename) else "-"
  }

  /** What `qmk c2json` does, with "-o -" handled as intended. */
  function RunC2Json(args: Arguments, files: map<string, FileContent>, normpath: string -> string,
                     convert: Converter): (run: CommandRun)
    // a missing keymap.c (other than "-") stops the command before any conversion
    ensures args.filename != "-" && normpath(args.filename) !in files ==> run == CommandRun(ReturnedFalse, [], [], files)
    // otherwise exactly one conversion, with cpp unless --no-cpp was given; "-" skips the existence check
    ensures |run.requests| <= 1
    ensures args.filename == "-" || normpath(args.filename) in files <==> |run.requests| == 1
    ensures run.requests != [] ==>
      run.requests[0] == ConversionRequest(args.keyboard, args.keymap, InputFile(args, normpath), !args.noCppGiven)
    // success exactly when the conversion generated a document; a decode error is not caught
    ensures run.status == Completed <==> run.requests != [] && convert(run.requests[0]).Generated?
    ensures run.status == UncaughtDecodeError <==> run.requests != [] && convert(run.requests[0]).DecodeError?
    // no partial output on failure
    ensures run.status != Completed ==> run.files == files && run.stdout == []
    // on success the document goes to stdout, or to the output file with a backup of the old one
    ensures run.status == Completed ==>
      var document := convert(run.requests[0]).document;
      match OutputTarget(args.output, normpath)
      case None => run.stdout == [document] && run.files == files
      case Some(path) => run.stdout == [] && run.files == WriteWithBackup(files, path, KeymapJson(document))
  {
    if args.filename != "-" && normpath(args.filename) !in files then CommandRun(ReturnedFalse, [], [], files)
    else
      var request := ConversionRequest(args.keyboard, args.keymap, InputFile(args, normpath), NoCppValue(args.noCppGiven));
      match convert(request)
      case DecodeError => CommandRun(UncaughtDecodeError, [request], [], files)
      case KeyError => CommandRun(ReturnedFalse, [request], [], files)
      case Generated(document) =>
        match OutputTarget(args.output, normpath)
        case None => CommandRun(Completed, [request], [document], files)
        case Some(path) => CommandRun(Completed, [request], [], WriteWithBackup(files, path, KeymapJson(document)))
  }

  /**
    c2json, step by step: check the input file, decide where the output goes,
    convert, and either print the document or back up and write the output file.
   */
  method C2JsonCommand(args: Arguments, fs: FileSystem<FileContent>, normpath: string -> string, convert: Converter)
    returns (status: ExitStatus, requests: seq<ConversionRequest>, stdout: seq<KeymapDocument>)
    modifies fs
    ensures CommandRun(status, requests, stdout, fs.files) == RunC2Json(args, old(fs.files), normpath, convert)
  {
    requests, stdout := [], [];
    var filename := args.filename;
    if filename != "-" {
      filename := normpath(filename);
      if !fs.Exists(filename) {
        return ReturnedFalse, requests, stdout;
      }
    }
    var output := OutputTarget(args.output, normpath);
    var request := ConversionRequest(args.keyboard, args.keymap, filename, NoCppValue(args.noCppGiven));
    requests := [request];
    var outcome := convert(request);
    if outcome.DecodeError? {
      return UncaughtDecodeError, requests, stdout;
    }
    if outcome.KeyError? {
      return ReturnedFalse, requests, stdout;
    }
    if output.Some? {
      var path := output.value;
      if fs.Exists(path) {
        fs.Replace(path, BakPath(path));
      }
      fs.WriteText(path, KeymapJson(outcome.document));
    } else {
      stdout := [outcome.document];
    }
    status := Completed;
  }
}
