/** The debug side channel of examples/capture_nonblocking_pyaudio2pyav.py:
    `_DebugDataStore`, which keeps every raw buffer in a ".dat" file and a
    list of (timestamp, byte length) rows saved as ".npy", and
    `_PyAudio2PyAVCustomTranscoder`, which writes each buffer to such a store
    before handing it to the package transcoder. Clock readings are
    parameters; file contents are modelled as the sequences written. */
module DebugStore {
  import opened Wrappers
  import opened NdArray
  import opened PortAudio
  import P = Paths
  import Transcoder

  // ---------------------------------------------------------------------
  // derived paths

  /** The path of a side file as written:
      `out_path.with_name(out_path.stem + tag).with_suffix(ext)`. */
  function DerivedAsWritten(outPath: string, tag: string, ext: string): (r: Result<string>)
    ensures P.Name(P.Parse(outPath)) == "" ==> r.Err?
    ensures r.Err? ==> r.error.ValueError?
  {
    var p := P.Parse(outPath);
    var named :- P.WithName(p, P.Stem(P.Name(p)) + tag);
    var out :- P.WithSuffix(named, ext);
    Ok(P.ToString(out))
  }

  /** The evidently intended side file: the output's stem, the tag and the
      extension, next to the output. */
  function Derived(outPath: string, tag: string, ext: string): (r: Result<string>)
    ensures P.Name(P.Parse(outPath)) == "" ==> r.Err?
    ensures r.Err? ==> r.error.ValueError?
  {
    var p := P.Parse(outPath);
    var out :- P.WithName(p, P.Stem(P.Name(p)) + tag + ext);
    Ok(P.ToString(out))
  }

  /** A tag or extension piece: non-empty, with no dot and no slash. */
  predicate Plain(s: string)
  {
    |s| > 0 && '.' !in s && '/' !in s
  }

  /** Whenever the output has a name, the side file exists and, read back as
      a path, it sits in the output's directory under the output's stem
      followed by the tag and the extension. */
  lemma DerivedShape(outPath: string, tag: string, ext: string)
    requires P.Name(P.Parse(outPath)) != "" && |tag| > 0 && '/' !in tag && '/' !in ext
    ensures Derived(outPath, tag, ext).Ok?
    ensures var p := P.Parse(outPath);
            P.Parse(Derived(outPath, tag, ext).value)
              == P.Path(p.absolute, P.Parent(p).parts + [P.Stem(P.Name(p)) + tag + ext])
  {
    var p := P.Parse(outPath);
    var stem := P.Stem(P.Name(p));
    var name := stem + tag + ext;
    assert P.ValidPart(P.Name(p));
    assert '/' !in stem by {
      assert P.Name(p) == stem + P.Suffix(P.Name(p));
    }
    assert P.ValidPart(name) by {
      assert |name| >= 2;
    }
    P.WithNameValid(p, name);
    var q := P.Path(p.absolute, P.Parent(p).parts + [name]);
    assert P.Valid(q);
    P.ParseToString(q);
  }

  /** Whenever the output has a name, the side file can be derived. */
  lemma DerivedOk(outPath: string, tag: string, ext: string)
    requires P.Name(P.Parse(outPath)) != "" && |tag| > 0 && '/' !in tag && '/' !in ext
    ensures Derived(outPath, tag, ext).Ok?
  {
    DerivedShape(outPath, tag, ext);
  }

  /** As written, an output name with two dots loses the tag: for
      "x.out.mp4" (any plain words for "x", "out" and "mp4") the raw-buffer
      file is "x.dat", where "x.out_raw_buffer.dat" was meant. */
  lemma DerivedAsWrittenLosesTag(dir: P.Path, head: string, mid: string, last: string, tag: string, ext: string)
    requires P.Valid(dir) && Plain(head) && Plain(mid) && Plain(last) && Plain(tag) && Plain(ext)
    ensures var outPath := P.ToString(P.Path(dir.absolute, dir.parts + [head + "." + mid + "." + last]));
            && DerivedAsWritten(outPath, tag, "." + ext) == Ok(P.ToString(P.Path(dir.absolute, dir.parts + [head + "." + ext])))
            && Derived(outPath, tag, "." + ext) == Ok(P.ToString(P.Path(dir.absolute, dir.parts + [head + "." + mid + tag + "." + ext])))
  {
    AsWrittenDrops(dir, head, mid, last, tag, ext);
    IntendedKeeps(dir, head, mid, last, tag, ext);
  }

  lemma AsWrittenDrops(dir: P.Path, head: string, mid: string, last: string, tag: string, ext: string)
    requires P.Valid(dir) && Plain(head) && Plain(mid) && Plain(last) && Plain(tag) && Plain(ext)
    ensures var outPath := P.ToString(P.Path(dir.absolute, dir.parts + [head + "." + mid + "." + last]));
            DerivedAsWritten(outPath, tag, "." + ext) == Ok(P.ToString(P.Path(dir.absolute, dir.parts + [head + "." + ext])))
  {
    var stem := head + "." + mid;
    var p := P.Path(dir.absolute, dir.parts + [stem + "." + last]);
    OutputStem(dir, stem, last);
    TaggedChain(dir, p, head, mid, tag, ext);
    DerivedAsWrittenVia(P.ToString(p), p, P.Path(dir.absolute, dir.parts + [stem + tag]),
                        P.Path(dir.absolute, dir.parts + [head + "." + ext]), tag, "." + ext);
  }

  lemma IntendedKeeps(dir: P.Path, head: string, mid: string, last: string, tag: string, ext: string)
    requires P.Valid(dir) && Plain(head) && Plain(mid) && Plain(last) && Plain(tag) && Plain(ext)
    ensures var outPath := P.ToString(P.Path(dir.absolute, dir.parts + [head + "." + mid + "." + last]));
            Derived(outPath, tag, "." + ext) == Ok(P.ToString(P.Path(dir.absolute, dir.parts + [head + "." + mid + tag + "." + ext])))
  {
    var stem := head + "." + mid;
    var p := P.Path(dir.absolute, dir.parts + [stem + "." + last]);
    OutputStem(dir, stem, last);
    var full := head + "." + mid + tag + "." + ext;
    assert stem + tag + ("." + ext) == full;
    assert P.ValidPart(full);
    NameStep(dir, p, full);
    DerivedVia(P.ToString(p), p, P.Path(dir.absolute, dir.parts + [full]), tag, "." + ext);
  }

  lemma DerivedAsWrittenVia(outPath: string, p: P.Path, named: P.Path, out: P.Path, tag: string, ext: string)
    requires P.Parse(outPath) == p
    requires P.WithName(p, P.Stem(P.Name(p)) + tag) == Ok(named)
    requires P.WithSuffix(named, ext) == Ok(out)
    ensures DerivedAsWritten(outPath, tag, ext) == Ok(P.ToString(out))
  {
  }

  lemma DerivedVia(outPath: string, p: P.Path, out: P.Path, tag: string, ext: string)
    requires P.Parse(outPath) == p
    requires P.WithName(p, P.Stem(P.Name(p)) + tag + ext) == Ok(out)
    ensures Derived(outPath, tag, ext) == Ok(P.ToString(out))
  {
  }

  /** The output path "<stem>.<last>" in `dir` parses back with that stem
      and that directory. */
  lemma OutputStem(dir: P.Path, stem: string, last: string)
    requires P.Valid(dir) && |stem| > 0 && '/' !in stem && Plain(last)
    ensures var p := P.Path(dir.absolute, dir.parts + [stem + "." + last]);
            && P.Parse(P.ToString(p)) == p && P.Parent(p) == dir && P.Stem(P.Name(p)) == stem
  {
    var name := stem + "." + last;
    assert P.ValidPart(name);
    P.ParseChild(dir, name);
    P.ChildParent(dir, name);
    P.SuffixOfDotted(stem, last);
  }

  /** The as-written steps for a stem "<head>.<mid>": `with_name` gives
      "<head>.<mid><tag>", whose suffix is ".<mid><tag>", which `with_suffix`
      replaces. */
  lemma TaggedChain(dir: P.Path, p: P.Path, head: string, mid: string, tag: string, ext: string)
    requires Plain(head) && Plain(mid) && Plain(tag) && Plain(ext)
    requires P.Parent(p) == dir && P.Stem(P.Name(p)) == head + "." + mid && P.Name(p) != ""
    ensures P.WithName(p, P.Stem(P.Name(p)) + tag) == Ok(P.Path(dir.absolute, dir.parts + [head + "." + mid + tag]))
    ensures P.WithSuffix(P.Path(dir.absolute, dir.parts + [head + "." + mid + tag]), "." + ext)
              == Ok(P.Path(dir.absolute, dir.parts + [head + "." + ext]))
  {
    var rest := mid + tag;
    assert head + "." + mid + tag == head + "." + rest;
    assert Plain(rest);
    NameStep(dir, p, head + "." + rest);
    SuffixStep(dir, head, rest, ext);
  }

  /** `with_name` of a valid component on a path in `dir`. */
  lemma NameStep(dir: P.Path, p: P.Path, name: string)
    requires P.Parent(p) == dir && P.Name(p) != "" && P.ValidPart(name)
    ensures P.WithName(p, name) == Ok(P.Path(dir.absolute, dir.parts + [name]))
  {
    P.WithNameValid(p, name);
    assert P.Parent(p).absolute == p.absolute;
  }

  /** `with_suffix` on "<head>.<rest>" in `dir` keeps only "<head>". */
  lemma SuffixStep(dir: P.Path, head: string, rest: string, ext: string)
    requires Plain(head) && Plain(rest) && Plain(ext)
    ensures P.WithSuffix(P.Path(dir.absolute, dir.parts + [head + "." + rest]), "." + ext)
              == Ok(P.Path(dir.absolute, dir.parts + [head + "." + ext]))
  {
    P.ChildParent(dir, head + "." + rest);
    P.SuffixOfDotted(head, rest);
    assert ("." + ext)[0] == '.' && "." + ext != "." && '/' !in "." + ext;
    assert head + ("." + ext) == head + "." + ext;
  }

  /** Where the output's stem has no dot after its first character, the
      code as written and the intended derivation give the same file. */
  lemma DerivedAgree(outPath: string, tag: string, ext: string)
    requires Plain(tag) && Plain(ext)
    requires var stem := P.Stem(P.Name(P.Parse(outPath))); forall k :: 0 < k < |stem| ==> stem[k] != '.'
    ensures DerivedAsWritten(outPath, tag, "." + ext) == Derived(outPath, tag, "." + ext)
  {
    var p := P.Parse(outPath);
    if P.Name(p) != "" {
      var dir := P.Parent(p);
      var stem := P.Stem(P.Name(p));
      var tagged := stem + tag;
      assert '/' !in stem by {
        assert P.Name(p) == stem + P.Suffix(P.Name(p));
      }
      assert P.ValidPart(tagged);
      assert forall k :: 0 < k < |tagged| ==> tagged[k] != '.' by {
        assert forall k :: |stem| <= k < |tagged| ==> tagged[k] == tag[k - |stem|];
      }
      NameStep(dir, p, tagged);
      var named := P.Path(dir.absolute, dir.parts + [tagged]);
      var out := P.Path(dir.absolute, dir.parts + [tagged + ("." + ext)]);
      UnsuffixedStep(dir, tagged, "." + ext);
      DerivedAsWrittenVia(outPath, p, named, out, tag, "." + ext);
      assert P.ValidPart(tagged + ("." + ext));
      NameStep(dir, p, tagged + ("." + ext));
      DerivedVia(outPath, p, out, tag, "." + ext);
    }
  }

  /** `with_suffix` on a name without a suffix of its own appends. */
  lemma UnsuffixedStep(dir: P.Path, name: string, ext: string)
    requires P.ValidPart(name) && forall k :: 0 < k < |name| ==> name[k] != '.'
    requires |ext| > 1 && ext[0] == '.' && '/' !in ext
    ensures P.WithSuffix(P.Path(dir.absolute, dir.parts + [name]), ext) == Ok(P.Path(dir.absolute, dir.parts + [name + ext]))
  {
    P.ChildParent(dir, name);
    P.NoDotNoSuffix(name);
  }

  // ---------------------------------------------------------------------
  // the store

  /** One timestamp row: the buffer's capture time and its length in bytes. */
  datatype Row = Row(timestamp: int, length: nat)

  /** The store: its two file paths, the raw-buffer file handle (what has
      been written through it) and the timestamp list, each `None` when
      closed, and what the last `close` left on disk. */
  datatype Store = Store(
    rawPath: string,
    timestampsPath: string,
    raw: Option<seq<int>>,
    rows: Option<seq<Row>>,
    savedRaw: Option<seq<int>>,
    savedRows: Option<seq<Row>>)

  /** The constructor: both side-file paths, nothing open and nothing saved. */
  function New(outPath: string): (r: Result<Store>)
    ensures r.Ok? <==> P.Name(P.Parse(outPath)) != ""
    ensures r.Err? ==> r.error.ValueError?
    ensures r.Ok? ==> && r.value.raw.None? && r.value.rows.None?
                      && r.value.savedRaw.None? && r.value.savedRows.None?
                      && Derived(outPath, "_raw_buffer", ".dat") == Ok(r.value.rawPath)
                      && Derived(outPath, "_timestamps", ".npy") == Ok(r.value.timestampsPath)
  {
    if P.Name(P.Parse(outPath)) == "" then Err(ValueError("path has an empty name"))
    else
      DerivedOk(outPath, "_raw_buffer", ".dat");
      DerivedOk(outPath, "_timestamps", ".npy");
      Ok(Store(Derived(outPath, "_raw_buffer", ".dat").value, Derived(outPath, "_timestamps", ".npy").value,
               None, None, None, None))
  }

  /** The constructor as written, with the side-file paths of
      `DerivedAsWritten`: it fails exactly where the corrected one does. */
  function NewAsWritten(outPath: string): (r: Result<Store>)
    ensures r.Ok? <==> New(outPath).Ok?
    ensures r.Err? ==> r.error.ValueError?
    ensures r.Ok? ==> && r.value.raw.None? && r.value.rows.None?
                      && r.value.savedRaw.None? && r.value.savedRows.None?
                      && DerivedAsWritten(outPath, "_raw_buffer", ".dat") == Ok(r.value.rawPath)
                      && DerivedAsWritten(outPath, "_timestamps", ".npy") == Ok(r.value.timestampsPath)
  {
    if P.Name(P.Parse(outPath)) == "" then Err(ValueError("path has an empty name"))
    else
      RawFileAsWrittenOk(outPath);
      TimestampsFileAsWrittenOk(outPath);
      Ok(Store(DerivedAsWritten(outPath, "_raw_buffer", ".dat").value, DerivedAsWritten(outPath, "_timestamps", ".npy").value,
               None, None, None, None))
  }

  lemma RawFileAsWrittenOk(outPath: string)
    requires P.Name(P.Parse(outPath)) != ""
    ensures DerivedAsWritten(outPath, "_raw_buffer", ".dat").Ok?
  {
    DerivedAsWrittenOk(outPath, "_raw_buffer", ".dat");
  }

  lemma TimestampsFileAsWrittenOk(outPath: string)
    requires P.Name(P.Parse(outPath)) != ""
    ensures DerivedAsWritten(outPath, "_timestamps", ".npy").Ok?
  {
    DerivedAsWrittenOk(outPath, "_timestamps", ".npy");
  }

  /** As written, a named output always has side files: renaming to the stem
      and tag gives a named path, and a dot-led extension can replace its
      suffix. */
  lemma DerivedAsWrittenOk(outPath: string, tag: string, ext: string)
    requires P.Name(P.Parse(outPath)) != "" && |tag| > 0 && '/' !in tag
    requires |ext| > 1 && ext[0] == '.' && '/' !in ext
    ensures DerivedAsWritten(outPath, tag, ext).Ok?
  {
    var p := P.Parse(outPath);
    var stem := P.Stem(P.Name(p));
    assert P.ValidPart(P.Name(p));
    assert '/' !in stem by {
      assert P.Name(p) == stem + P.Suffix(P.Name(p));
    }
    assert P.ValidPart(stem + tag) by {
      assert |stem + tag| >= 2;
    }
    P.WithNameValid(p, stem + tag);
  }

  /** For the output "<head>.<mid>.<last>", the form of every name
      `get_output_file_path` produces, the store as written keeps its raw
      buffers in "<head>.dat" and its timestamps in "<head>.npy" in the
      output's directory, so the tag and "<mid>" are lost. */
  lemma NewAsWrittenPaths(dir: P.Path, head: string, mid: string, last: string)
    requires P.Valid(dir) && Plain(head) && Plain(mid) && Plain(last)
    ensures var outPath := P.ToString(P.Path(dir.absolute, dir.parts + [head + "." + mid + "." + last]));
            && NewAsWritten(outPath).Ok?
            && NewAsWritten(outPath).value.rawPath == P.ToString(P.Path(dir.absolute, dir.parts + [head + "." + "dat"]))
            && NewAsWritten(outPath).value.timestampsPath == P.ToString(P.Path(dir.absolute, dir.parts + [head + "." + "npy"]))
  {
    RawAsWritten(dir, head, mid, last);
    TimestampsAsWritten(dir, head, mid, last);
  }

  lemma RawAsWritten(dir: P.Path, head: string, mid: string, last: string)
    requires P.Valid(dir) && Plain(head) && Plain(mid) && Plain(last)
    ensures var outPath := P.ToString(P.Path(dir.absolute, dir.parts + [head + "." + mid + "." + last]));
            && NewAsWritten(outPath).Ok?
            && NewAsWritten(outPath).value.rawPath == P.ToString(P.Path(dir.absolute, dir.parts + [head + "." + "dat"]))
  {
    var outPath := P.ToString(P.Path(dir.absolute, dir.parts + [head + "." + mid + "." + last]));
    var dat := "dat";
    assert "." + dat == ".dat";
    AsWrittenDrops(dir, head, mid, last, "_raw_buffer", dat);
    assert DerivedAsWritten(outPath, "_raw_buffer", ".dat").Ok?;
    assert NewAsWritten(outPath).Ok?;
  }

  lemma TimestampsAsWritten(dir: P.Path, head: string, mid: string, last: string)
    requires P.Valid(dir) && Plain(head) && Plain(mid) && Plain(last)
    ensures var outPath := P.ToString(P.Path(dir.absolute, dir.parts + [head + "." + mid + "." + last]));
            && NewAsWritten(outPath).Ok?
            && NewAsWritten(outPath).value.timestampsPath == P.ToString(P.Path(dir.absolute, dir.parts + [head + "." + "npy"]))
  {
    var outPath := P.ToString(P.Path(dir.absolute, dir.parts + [head + "." + mid + "." + last]));
    var npy := "npy";
    assert "." + npy == ".npy";
    AsWrittenDrops(dir, head, mid, last, "_timestamps", npy);
    assert DerivedAsWritten(outPath, "_timestamps", ".npy").Ok?;
    assert NewAsWritten(outPath).Ok?;
  }

  /** The two side files of a store are different files. */
  lemma NewDistinctFiles(outPath: string)
    requires New(outPath).Ok?
    ensures New(outPath).value.rawPath != New(outPath).value.timestampsPath
  {
    DistinctSideFiles(outPath);
  }

  lemma DistinctSideFiles(outPath: string)
    requires P.Name(P.Parse(outPath)) != ""
    ensures Derived(outPath, "_raw_buffer", ".dat").Ok? && Derived(outPath, "_timestamps", ".npy").Ok?
    ensures Derived(outPath, "_raw_buffer", ".dat").value != Derived(outPath, "_timestamps", ".npy").value
  {
    DistinctExtensions(outPath, "_raw_buffer", ".dat", "_timestamps", ".npy");
  }

  /** Side files whose extensions end in different characters differ. */
  lemma DistinctExtensions(outPath: string, tagA: string, extA: string, tagB: string, extB: string)
    requires P.Name(P.Parse(outPath)) != ""
    requires |tagA| > 0 && '/' !in tagA && '/' !in extA && |tagB| > 0 && '/' !in tagB && '/' !in extB
    requires |extA| > 0 && |extB| > 0 && extA[|extA| - 1] != extB[|extB| - 1]
    ensures Derived(outPath, tagA, extA).Ok? && Derived(outPath, tagB, extB).Ok?
    ensures Derived(outPath, tagA, extA).value != Derived(outPath, tagB, extB).value
  {
    DerivedShape(outPath, tagA, extA);
    DerivedShape(outPath, tagB, extB);
    var stem := P.Stem(P.Name(P.Parse(outPath)));
    var a := stem + tagA + extA;
    var b := stem + tagB + extB;
    assert a != b by {
      LastChar(stem + tagA, extA);
      LastChar(stem + tagB, extB);
    }
    var pa := P.Parse(Derived(outPath, tagA, extA).value);
    var pb := P.Parse(Derived(outPath, tagB, extB).value);
    assert pa.parts[|pa.parts| - 1] == a && pb.parts[|pb.parts| - 1] == b;
  }

  lemma LastChar(x: string, y: string)
    requires |y| > 0
    ensures (x + y)[|x + y| - 1] == y[|y| - 1]
  {
  }

  /** Open as the store means it: both the file and the list exist. */
  predicate IsOpened(s: Store)
  {
    s.raw.Some? && s.rows.Some?
  }

  /** `is_opened` as written: true when either one is missing, that is,
      exactly when the store is not open. */
  function IsOpenedAsWritten(s: Store): (b: bool)
    ensures b <==> !IsOpened(s)
  {
    s.raw.None? || s.rows.None?
  }

  /** The property as written answers the opposite of the question its name
      asks, in every state. */
  lemma IsOpenedInverted(s: Store)
    ensures IsOpenedAsWritten(s) <==> !IsOpened(s)
  {
  }

  /** `open`: create whichever of the file and the list is missing; an
      existing one is kept as it is. */
  function Open(s: Store): (r: Store)
    ensures IsOpened(r)
    ensures r.raw == (if s.raw.Some? then s.raw else Some([]))
    ensures r.rows == (if s.rows.Some? then s.rows else Some([]))
    ensures r.(raw := s.raw, rows := s.rows) == s
  {
    s.(raw := if s.raw.None? then Some([]) else s.raw,
       rows := if s.rows.None? then Some([]) else s.rows)
  }

  /** Opening twice is opening once, and opening an opened store changes
      nothing. */
  lemma OpenIdempotent(s: Store)
    ensures Open(Open(s)) == Open(s)
    ensures IsOpened(s) ==> Open(s) == s
  {
  }

  /** `write` as written: with the inverted test it never opens; on a
      store without a file the write raises AttributeError, and on one
      with a file but no list the bytes are written and the append raises. */
  function WriteAsWritten(s: Store, data: seq<int>, length: nat, now: int, delay: int): (r: Result<Store>)
    ensures r.Ok? <==> IsOpened(s)
    ensures r.Err? ==> r.error == AttributeError
    ensures r.Ok? ==> r.value == s.(raw := Some(s.raw.value + data), rows := Some(s.rows.value + [Row(now - delay, length)]))
  {
    var s1 := if !IsOpenedAsWritten(s) then Open(s) else s;
    var timestamp := now - delay;
    if s1.raw.None? then Err(AttributeError)
    else
      var s2 := s1.(raw := Some(s1.raw.value + data));
      if s2.rows.None? then Err(AttributeError)
      else Ok(s2.(rows := Some(s2.rows.value + [Row(timestamp, length)])))
  }

  /** `write` with the test the name promises: open when not opened, write
      the bytes once and append exactly one row stamped `now - delay`. */
  function Write(s: Store, data: seq<int>, length: nat, now: int, delay: int): (r: Store)
    ensures IsOpened(r)
    ensures r.raw == Some(s.raw.GetOr([]) + data)
    ensures r.rows == Some(s.rows.GetOr([]) + [Row(now - delay, length)])
    ensures r.(raw := s.raw, rows := s.rows) == s
  {
    var s1 := if !IsOpened(s) then Open(s) else s;
    s1.(raw := Some(s1.raw.value + data), rows := Some(s1.rows.value + [Row(now - delay, length)]))
  }

  /** On an opened store the two agree; on a closed one the code as written
      raises where the intended write opens the store and succeeds. */
  lemma WriteAsWrittenAgreesWhenOpened(s: Store, data: seq<int>, length: nat, now: int, delay: int)
    ensures IsOpened(s) ==> WriteAsWritten(s, data, length, now, delay) == Ok(Write(s, data, length, now, delay))
    ensures s.raw.None? ==> WriteAsWritten(s, data, length, now, delay) == Err(AttributeError)
    ensures IsOpened(Write(s, data, length, now, delay))
  {
  }

  /** `close`: close the file and save the list, each only if it exists,
      and forget both. */
  function Close(s: Store): (r: Store)
    ensures r.raw.None? && r.rows.None? && !IsOpened(r)
    ensures r.savedRaw == (if s.raw.Some? then s.raw else s.savedRaw)
    ensures r.savedRows == (if s.rows.Some? then s.rows else s.savedRows)
    ensures r.rawPath == s.rawPath && r.timestampsPath == s.timestampsPath
  {
    s.(raw := None, rows := None,
       savedRaw := if s.raw.Some? then s.raw else s.savedRaw,
       savedRows := if s.rows.Some? then s.rows else s.savedRows)
  }

  /** A second `close` changes nothing. */
  lemma CloseIdempotent(s: Store)
    ensures Close(Close(s)) == Close(s)
  {
  }

  /** One call of `write`: the buffer, its byte length, the clock reading
      and the delay. */
  datatype Put = Put(data: seq<int>, length: nat, now: int, delay: int)

  function WriteAll(s: Store, puts: seq<Put>): (r: Store)
    decreases |puts|
  {
    if |puts| == 0 then s
    else WriteAll(Write(s, puts[0].data, puts[0].length, puts[0].now, puts[0].delay), puts[1..])
  }

  /** The bytes a run of writes puts in the file, in order. */
  function Bytes(puts: seq<Put>): seq<int>
    decreases |puts|
  {
    if |puts| == 0 then [] else puts[0].data + Bytes(puts[1..])
  }

  /** The row a write appends. */
  function RowOf(put: Put): Row
  {
    Row(put.now - put.delay, put.length)
  }

  /** A run of writes on an opened store appends every buffer to the file
      and one row per buffer to the list, in order. */
  lemma {:induction false} WriteAllAppends(s: Store, puts: seq<Put>)
    requires IsOpened(s)
    ensures IsOpened(WriteAll(s, puts))
    ensures WriteAll(s, puts).raw == Some(s.raw.value + Bytes(puts))
    ensures |WriteAll(s, puts).rows.value| == |s.rows.value| + |puts|
    ensures WriteAll(s, puts).rows.value[..|s.rows.value|] == s.rows.value
    ensures forall k :: 0 <= k < |puts| ==> WriteAll(s, puts).rows.value[|s.rows.value| + k] == RowOf(puts[k])
    ensures WriteAll(s, puts).savedRaw == s.savedRaw && WriteAll(s, puts).savedRows == s.savedRows
    decreases |puts|
  {
    if |puts| > 0 {
      var s1 := Write(s, puts[0].data, puts[0].length, puts[0].now, puts[0].delay);
      WriteAllAppends(s1, puts[1..]);
      var r := WriteAll(s1, puts[1..]).rows.value;
      assert s.raw.value + puts[0].data + Bytes(puts[1..]) == s.raw.value + Bytes(puts);
      assert r[..|s1.rows.value|] == s1.rows.value;
      assert r[..|s.rows.value|] == s1.rows.value[..|s.rows.value|];
      forall k | 0 <= k < |puts|
        ensures r[|s.rows.value| + k] == RowOf(puts[k])
      {
        if k > 0 {
          assert puts[1..][k - 1] == puts[k];
          assert r[|s1.rows.value| + (k - 1)] == RowOf(puts[1..][k - 1]);
        } else {
          assert r[|s.rows.value|] == s1.rows.value[|s.rows.value|];
        }
      }
    } else {
      assert s.raw.value + [] == s.raw.value;
      assert s.rows.value[..|s.rows.value|] == s.rows.value;
    }
  }

  /** A whole session on a fresh store: open, a run of writes, close. The
      files on disk then hold every buffer and one row per buffer, in
      order, and the store is closed. */
  lemma Session(s: Store, puts: seq<Put>)
    requires s.raw.None? && s.rows.None?
    ensures var r := Close(WriteAll(Open(s), puts));
            && !IsOpened(r)
            && r.savedRaw == Some(Bytes(puts))
            && r.savedRows.Some? && |r.savedRows.value| == |puts|
            && forall k :: 0 <= k < |puts| ==> r.savedRows.value[k] == RowOf(puts[k])
  {
    WriteAllAppends(Open(s), puts);
    assert [] + Bytes(puts) == Bytes(puts);
  }

  // ---------------------------------------------------------------------
  // the debug transcoder

  /** `_PyAudio2PyAVCustomTranscoder`: the package transcoder and a store. */
  datatype DebugTranscoder = DebugTranscoder(base: Transcoder.Transcoder, store: Store)

  /** The constructor: the package constructor first, then the assertion
      that the class-level debug path is set and non-empty, then the store. */
  function NewTranscoder(debugOutPath: Option<string>, frameRate: int, channels: nat, dtype: Option<DType>): (r: Result<DebugTranscoder>)
    ensures Transcoder.New(frameRate, channels, dtype).Err? ==> r == Err(Transcoder.New(frameRate, channels, dtype).error)
    ensures Transcoder.New(frameRate, channels, dtype).Ok? && (debugOutPath.None? || debugOutPath.value == "") ==> r == Err(AssertionError)
    ensures r.Ok? <==> && Transcoder.New(frameRate, channels, dtype).Ok?
                       && debugOutPath.Some? && New(debugOutPath.value).Ok?
    ensures r.Ok? ==> && r.value.base == Transcoder.New(frameRate, channels, dtype).value
                      && r.value.store == New(debugOutPath.value).value
                      && !IsOpened(r.value.store)
  {
    var base :- Transcoder.New(frameRate, channels, dtype);
    if debugOutPath.None? || debugOutPath.value == "" then Err(AssertionError)
    else
      var store :- New(debugOutPath.value);
      Ok(DebugTranscoder(base, store))
  }

  function Abs(x: int): (r: nat)
    ensures r == x || r == -x
  {
    if x < 0 then -x else x
  }

  /** `start`: the package transcoder's is a no-op; the store opens. */
  function Start(d: DebugTranscoder): (r: DebugTranscoder)
    ensures r.base == d.base && IsOpened(r.store)
  {
    d.(store := Open(d.store))
  }

  /** `stop`: the package transcoder's is a no-op; the store closes. */
  function Stop(d: DebugTranscoder): (r: DebugTranscoder)
    ensures r.base == d.base && !IsOpened(r.store)
  {
    d.(store := Close(d.store))
  }

  /** `transcode`, with the store's intended `write`: the buffer and a row
      stamped `now - |current - adc|` go to the store, then the package
      transcoder runs. Its result is passed back untouched, and the store
      keeps the row even when the package transcoder raises. */
  function Transcode(d: DebugTranscoder, inFrame: seq<int>, timeInfo: TimeInfo, now: int): (r: (Result<Transcoder.Transcoded>, DebugTranscoder))
    ensures r.0 == Transcoder.Transcode(d.base, inFrame, timeInfo)
    ensures r.1.base == (if r.0.Ok? then r.0.value.next else d.base)
    ensures r.1.store == Write(d.store, inFrame, |inFrame| * ItemSize(d.base.dtype), now, Abs(timeInfo.currentTime - timeInfo.inputBufferAdcTime))
    ensures r.1.store.rows.value[|r.1.store.rows.value| - 1].timestamp <= now
  {
    var delay := Abs(timeInfo.currentTime - timeInfo.inputBufferAdcTime);
    var store := Write(d.store, inFrame, |inFrame| * ItemSize(d.base.dtype), now, delay);
    var t := Transcoder.Transcode(d.base, inFrame, timeInfo);
    assert store.rows.value[|store.rows.value| - 1] == Row(now - delay, |inFrame| * ItemSize(d.base.dtype));
    (t, DebugTranscoder(if t.Ok? then t.value.next else d.base, store))
  }

  /** `transcode` as written, on the store's `write` as written. */
  function TranscodeAsWritten(d: DebugTranscoder, inFrame: seq<int>, timeInfo: TimeInfo, now: int): (r: Result<(Transcoder.Transcoded, DebugTranscoder)>)
    ensures !IsOpened(d.store) ==> r == Err(AttributeError)
  {
    var delay := Abs(timeInfo.currentTime - timeInfo.inputBufferAdcTime);
    var store :- WriteAsWritten(d.store, inFrame, |inFrame| * ItemSize(d.base.dtype), now, delay);
    var t :- Transcoder.Transcode(d.base, inFrame, timeInfo);
    Ok((t, DebugTranscoder(t.next, store)))
  }

  /** The capture starts only its sink and source, never the transcoder, so
      the store of a freshly built debug transcoder is never opened and, as
      written, the first buffer raises AttributeError; the intended write
      records it and returns what the package transcoder returns. Once
      started, the two agree. */
  lemma FirstBufferFails(debugOutPath: Option<string>, frameRate: int, channels: nat, dtype: Option<DType>,
                         inFrame: seq<int>, timeInfo: TimeInfo, now: int)
    requires NewTranscoder(debugOutPath, frameRate, channels, dtype).Ok?
    ensures var d := NewTranscoder(debugOutPath, frameRate, channels, dtype).value;
            && TranscodeAsWritten(d, inFrame, timeInfo, now) == Err(AttributeError)
            && Transcode(d, inFrame, timeInfo, now).0 == Transcoder.Transcode(d.base, inFrame, timeInfo)
            && |Transcode(d, inFrame, timeInfo, now).1.store.rows.value| == 1
            && (Transcoder.Transcode(d.base, inFrame, timeInfo).Ok? ==>
                  TranscodeAsWritten(Start(d), inFrame, timeInfo, now)
                    == Ok((Transcode(Start(d), inFrame, timeInfo, now).0.value, Transcode(Start(d), inFrame, timeInfo, now).1)))
  {
    var d := NewTranscoder(debugOutPath, frameRate, channels, dtype).value;
    assert d.store.rows.None?;
    AsWrittenAgreesWhenOpened(Start(d), inFrame, timeInfo, now);
  }

  /** On an opened store, `transcode` as written and as intended agree
      whenever the package transcoder succeeds. */
  lemma AsWrittenAgreesWhenOpened(d: DebugTranscoder, inFrame: seq<int>, timeInfo: TimeInfo, now: int)
    requires IsOpened(d.store)
    ensures Transcoder.Transcode(d.base, inFrame, timeInfo).Ok? ==>
              TranscodeAsWritten(d, inFrame, timeInfo, now)
                == Ok((Transcode(d, inFrame, timeInfo, now).0.value, Transcode(d, inFrame, timeInfo, now).1))
  {
    WriteAsWrittenAgreesWhenOpened(d.store, inFrame, |inFrame| * ItemSize(d.base.dtype), now,
                                   Abs(timeInfo.currentTime - timeInfo.inputBufferAdcTime));
  }

  /** One debug `transcode` call: the buffer, the time information and the
      clock reading. */
  datatype Call = Call(inFrame: seq<int>, timeInfo: TimeInfo, now: int)

  /** The store write a call makes: the buffer, its length in bytes, the
      clock reading and the delay between the callback and the ADC. */
  function PutOf(dtype: DType, c: Call): Put
  {
    Put(c.inFrame, |c.inFrame| * ItemSize(dtype), c.now, Abs(c.timeInfo.currentTime - c.timeInfo.inputBufferAdcTime))
  }

  /** The store writes a run of calls makes. */
  function Puts(dtype: DType, calls: seq<Call>): (r: seq<Put>)
    ensures |r| == |calls|
    ensures forall k :: 0 <= k < |calls| ==> r[k] == PutOf(dtype, calls[k])
  {
    seq(|calls|, k requires 0 <= k < |calls| => PutOf(dtype, calls[k]))
  }

  lemma StoreStep(d: DebugTranscoder, c: Call)
    ensures var put := PutOf(d.base.dtype, c);
            && Transcode(d, c.inFrame, c.timeInfo, c.now).1.store == Write(d.store, put.data, put.length, put.now, put.delay)
            && Transcode(d, c.inFrame, c.timeInfo, c.now).1.base.dtype == d.base.dtype
  {
  }

  /** A run of debug `transcode` calls; the first failure of the package
      transcoder ends it, as it ends the sink's loop. */
  function TranscodeAll(d: DebugTranscoder, calls: seq<Call>): (r: (Result<seq<Transcoder.Transcoded>>, DebugTranscoder))
    decreases |calls|
  {
    if |calls| == 0 then (Ok([]), d)
    else
      var (t, d1) := Transcode(d, calls[0].inFrame, calls[0].timeInfo, calls[0].now);
      if t.Err? then (Err(t.error), d1)
      else
        var (rest, d2) := TranscodeAll(d1, calls[1..]);
        (if rest.Ok? then Ok([t.value] + rest.value) else rest, d2)
  }

  /** Over a run the package transcoder succeeds on, the debug transcoder
      returns the package transcoder's frames in order, and its store has
      received exactly one write per call. */
  lemma TranscodeAllRecords(d: DebugTranscoder, calls: seq<Call>)
    requires Transcoder.TranscodeSeq(d.base, Inputs(calls)).Ok?
    ensures TranscodeAll(d, calls).0 == Ok(Transcoder.TranscodeSeq(d.base, Inputs(calls)).value.0)
    ensures TranscodeAll(d, calls).1.base == Transcoder.TranscodeSeq(d.base, Inputs(calls)).value.1
    ensures TranscodeAll(d, calls).1.store == WriteAll(d.store, Puts(d.base.dtype, calls))
  {
    TranscodeAllResults(d, calls);
    TranscodeAllStore(d, calls);
  }

  lemma {:induction false} TranscodeAllResults(d: DebugTranscoder, calls: seq<Call>)
    requires Transcoder.TranscodeSeq(d.base, Inputs(calls)).Ok?
    ensures TranscodeAll(d, calls).0 == Ok(Transcoder.TranscodeSeq(d.base, Inputs(calls)).value.0)
    ensures TranscodeAll(d, calls).1.base == Transcoder.TranscodeSeq(d.base, Inputs(calls)).value.1
    decreases |calls|
  {
    if |calls| > 0 {
      var c := calls[0];
      var ins := Inputs(calls);
      var t := Transcoder.Transcode(d.base, c.inFrame, c.timeInfo);
      var d1 := Transcode(d, c.inFrame, c.timeInfo, c.now).1;
      assert ins[0] == (c.inFrame, c.timeInfo) && ins[1..] == Inputs(calls[1..]);
      assert t.Ok?;
      var rest := Transcoder.TranscodeSeq(t.value.next, ins[1..]);
      assert Transcoder.TranscodeSeq(d.base, ins) == Ok(([t.value] + rest.value.0, rest.value.1));
      assert d1.base == t.value.next;
      TranscodeAllResults(d1, calls[1..]);
    }
  }

  /** Whatever the package transcoder does, each call of a run that
      completes writes its buffer to the store once. */
  lemma {:induction false} TranscodeAllStore(d: DebugTranscoder, calls: seq<Call>)
    requires TranscodeAll(d, calls).0.Ok?
    ensures TranscodeAll(d, calls).1.store == WriteAll(d.store, Puts(d.base.dtype, calls))
    decreases |calls|
  {
    if |calls| > 0 {
      var c := calls[0];
      var puts := Puts(d.base.dtype, calls);
      var d1 := Transcode(d, c.inFrame, c.timeInfo, c.now).1;
      StoreStep(d, c);
      assert puts[0] == PutOf(d.base.dtype, c);
      assert puts[1..] == Puts(d.base.dtype, calls[1..]);
      TranscodeAllStore(d1, calls[1..]);
    }
  }

  /** The (buffer, time information) pairs the package transcoder sees. */
  function Inputs(calls: seq<Call>): (r: seq<(seq<int>, TimeInfo)>)
    ensures |r| == |calls|
    ensures forall k :: 0 <= k < |calls| ==> r[k] == (calls[k].inFrame, calls[k].timeInfo)
  {
    seq(|calls|, k requires 0 <= k < |calls| => (calls[k].inFrame, calls[k].timeInfo))
  }
}
