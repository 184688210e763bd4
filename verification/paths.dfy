/** The `pathlib` rules the naming helpers rely on (POSIX flavour): parsing
    a string into components, `name`, `suffix`, `stem`, `parent`,
    `joinpath`, `with_name` and `with_suffix`; and the helpers built on
    them, `append_to_file_name` (examples/pyaudio_in_wave_out.py) and
    `get_output_file_path` (examples/utils.py). */
module Paths {
  import opened Wrappers
  import opened Strings
  import KP = KeyProperty

  /** A pure path: rooted or not, and its components. */
  datatype Path = Path(absolute: bool, parts: seq<string>)

  /** A component as parsing leaves it: non-empty, slash-free, not ".". */
  predicate ValidPart(s: string)
  {
    |s| > 0 && '/' !in s && s != "."
  }

  predicate Valid(p: Path)
  {
    forall i :: 0 <= i < |p.parts| ==> ValidPart(p.parts[i])
  }

  /** The runs of a slash split that are components: empty runs (from
      repeated, leading or trailing slashes) and "." are dropped. */
  function Components(runs: seq<string>): (r: seq<string>)
    requires forall i :: 0 <= i < |runs| ==> '/' !in runs[i]
    ensures forall i :: 0 <= i < |r| ==> ValidPart(r[i])
    ensures (forall i :: 0 <= i < |runs| ==> ValidPart(runs[i])) ==> r == runs
    decreases |runs|
  {
    if |runs| == 0 then []
    else if runs[0] == "" || runs[0] == "." then Components(runs[1..])
    else [runs[0]] + Components(runs[1..])
  }

  /** `PurePosixPath(s)` */
  function Parse(s: string): (p: Path)
    ensures Valid(p)
    ensures p.absolute <==> |s| > 0 && s[0] == '/'
  {
    Path(|s| > 0 && s[0] == '/', Components(Split(s, '/')))
  }

  /** `str(p)`: for a valid path never empty, and it starts with "/"
      exactly when the path is absolute. */
  function ToString(p: Path): (r: string)
    ensures Valid(p) ==> |r| > 0 && (r[0] == '/' <==> p.absolute)
  {
    if !p.absolute && |p.parts| == 0 then "."
    else if p.absolute then "/" + Join(p.parts, "/")
    else
      assert ValidPart(p.parts[0]) ==> Join(p.parts, "/")[0] == p.parts[0][0] && p.parts[0][0] in p.parts[0];
      Join(p.parts, "/")
  }

  /** Printing a path and parsing the text gives the path back. */
  lemma ParseToString(p: Path)
    requires Valid(p)
    ensures Parse(ToString(p)) == p
  {
    var s := ToString(p);
    if !p.absolute && |p.parts| == 0 {
      SplitJoin(["."], '/');
      assert Join(["."], "/") == ".";
    } else if |p.parts| == 0 {
      assert s == "/";
      SplitJoin(["", ""], '/');
      assert Join(["", ""], "/") == "/";
    } else {
      var body := Join(p.parts, "/");
      SplitJoin(p.parts, '/');
      if p.absolute {
        assert s == "/" + body;
        assert Split(s, '/') == [""] + Split(body, '/');
        assert ([""] + p.parts)[1..] == p.parts;
      } else {
        assert s == body;
        assert s[0] == p.parts[0][0] by {
          assert body == p.parts[0] || body == p.parts[0] + "/" + Join(p.parts[1..], "/");
        }
        assert s[0] in p.parts[0];
      }
    }
  }

  /** `p.name`: the last component, or "" when there is none. */
  function Name(p: Path): (n: string)
    ensures |p.parts| > 0 ==> n == p.parts[|p.parts| - 1]
    ensures |p.parts| == 0 ==> n == ""
  {
    if |p.parts| == 0 then "" else p.parts[|p.parts| - 1]
  }

  /** `p.parent`: all but the last component; a path without components is
      its own parent. */
  function Parent(p: Path): (r: Path)
    ensures r.absolute == p.absolute
    ensures |p.parts| > 0 ==> r.parts + [Name(p)] == p.parts
    ensures |p.parts| == 0 ==> r == p
  {
    if |p.parts| == 0 then p else p.(parts := p.parts[..|p.parts| - 1])
  }

  /** A path with one more component has the shorter path as its parent
      and that component as its name. */
  lemma ChildParent(dir: Path, name: string)
    ensures Parent(Path(dir.absolute, dir.parts + [name])) == dir
    ensures Name(Path(dir.absolute, dir.parts + [name])) == name
  {
    assert (dir.parts + [name])[..|dir.parts|] == dir.parts;
  }

  /** Printing a valid directory with one more valid component and parsing
      the text gives that path. */
  lemma ParseChild(dir: Path, name: string)
    requires Valid(dir) && ValidPart(name)
    ensures Parse(ToString(Path(dir.absolute, dir.parts + [name]))) == Path(dir.absolute, dir.parts + [name])
  {
    ParseToString(Path(dir.absolute, dir.parts + [name]));
  }

  /** `p.joinpath(s)`: a rooted `s` replaces `p`, a relative one extends it. */
  function JoinPath(p: Path, s: string): (r: Path)
    ensures Parse(s).absolute ==> r == Parse(s)
    ensures !Parse(s).absolute ==> r == Path(p.absolute, p.parts + Parse(s).parts)
  {
    var q := Parse(s);
    if q.absolute then q else Path(p.absolute, p.parts + q.parts)
  }

  /** Joining one valid component appends exactly that component. */
  lemma JoinPathPart(p: Path, name: string)
    requires ValidPart(name)
    ensures JoinPath(p, name) == Path(p.absolute, p.parts + [name])
  {
    ParseValidPart(name);
  }

  // ---------------------------------------------------------------------
  // suffix and stem

  /** Index of the last "." of `s`, if any (`s.rfind('.')`). */
  function LastDot(s: string): (r: Option<nat>)
    ensures r.Some? ==> r.value < |s| && s[r.value] == '.' && forall k :: r.value < k < |s| ==> s[k] != '.'
    ensures r.None? ==> '.' !in s
    decreases |s|
  {
    if |s| == 0 then None
    else if s[|s| - 1] == '.' then Some(|s| - 1)
    else
      var r := LastDot(s[..|s| - 1]);
      assert forall k :: 0 <= k < |s| - 1 ==> s[k] == s[..|s| - 1][k];
      r
  }

  /** `suffix`: from the last "." on, unless that dot is the first or the
      last character. */
  function Suffix(name: string): (r: string)
    ensures r == "" || (2 <= |r| < |name| && r == name[|name| - |r|..] && r[0] == '.' && '.' !in r[1..])
    ensures r == "" ==> LastDot(name).None? || LastDot(name).value == 0 || LastDot(name).value == |name| - 1
  {
    var i := LastDot(name);
    if i.Some? && 0 < i.value < |name| - 1 then
      assert forall k :: 0 <= k < |name| - i.value - 1 ==> name[i.value..][1..][k] == name[i.value + 1 + k];
      name[i.value..]
    else ""
  }

  /** `stem`: the name without its suffix. */
  function Stem(name: string): (r: string)
    ensures r + Suffix(name) == name
    ensures |name| > 0 ==> |r| > 0
  {
    name[..|name| - |Suffix(name)|]
  }

  /** A name with no dot after its first character has no suffix. */
  lemma NoDotNoSuffix(name: string)
    requires forall k :: 0 < k < |name| ==> name[k] != '.'
    ensures Suffix(name) == "" && Stem(name) == name
  {
  }

  /** Appending text with a dot that is neither first nor last makes that
      the suffix: the last dot wins. */
  lemma SuffixOfDotted(head: string, tail: string)
    requires |head| > 0 && '.' !in tail && |tail| > 0
    ensures Suffix(head + "." + tail) == "." + tail
    ensures Stem(head + "." + tail) == head
  {
    var s := head + "." + tail;
    var n := |head|;
    assert LastDot(s) == Some(n) by {
      assert s[n] == '.';
      forall k | n < k < |s|
        ensures s[k] != '.'
      {
        assert s[k] == tail[k - n - 1];
      }
    }
    assert s[n..] == "." + tail;
    assert s[..n] == head;
  }

  /** A valid component parses to itself. */
  lemma ParseValidPart(name: string)
    ensures ValidPart(name) ==> Parse(name) == Path(false, [name])
  {
    if ValidPart(name) {
      SplitJoin([name], '/');
    }
  }

  /** `p.with_name(name)`: the path must have a name, and `name` must parse
      to one relative component and not end in a slash; the text given
      replaces the last component as it is. */
  function WithName(p: Path, name: string): (r: Result<Path>)
    ensures Name(p) == "" || name == "" || name[0] == '/' ==> r.Err?
    ensures r.Err? ==> r.error.ValueError?
    ensures Name(p) != "" && ValidPart(name) ==> r.Ok?
    ensures r.Ok? ==> r.value.absolute == p.absolute && r.value.parts == Parent(p).parts + [name] && |Parse(name).parts| == 1
  {
    ParseValidPart(name);
    if Name(p) == "" then Err(ValueError("path has an empty name"))
    else if |name| == 0 || name[|name| - 1] == '/' || name[0] == '/' || |Parse(name).parts| != 1 then
      Err(ValueError("Invalid name"))
    else
      Ok(Parent(p).(parts := Parent(p).parts + [name]))
  }

  /** `with_name` of a valid component keeps the parent and sets the name. */
  lemma WithNameValid(p: Path, name: string)
    requires Name(p) != "" && ValidPart(name)
    ensures WithName(p, name).Ok?
    ensures Parent(WithName(p, name).value) == Parent(p) && Name(WithName(p, name).value) == name
  {
    ParseValidPart(name);
  }

  /** `p.with_suffix(suffix)`: the suffix must be empty or start with a
      dot, must not be "." and must hold no slash; the path must have a
      name; the name's suffix is replaced. */
  function WithSuffix(p: Path, suffix: string): (r: Result<Path>)
    ensures r.Ok? <==> '/' !in suffix && (suffix == "" || (suffix[0] == '.' && suffix != ".")) && Name(p) != ""
    ensures r.Err? ==> r.error.ValueError?
    ensures r.Ok? ==> r.value == Parent(p).(parts := Parent(p).parts + [Stem(Name(p)) + suffix])
  {
    if '/' in suffix || (suffix != "" && suffix[0] != '.') || suffix == "." then Err(ValueError("Invalid suffix"))
    else if Name(p) == "" then Err(ValueError("path has an empty name"))
    else Ok(Parent(p).(parts := Parent(p).parts + [Stem(Name(p)) + suffix]))
  }

  // ---------------------------------------------------------------------
  // append_to_file_name

  /** A path argument: a string or a `Path` object. */
  datatype PathLike = StrPath(s: string) | PathObj(p: Path)

  function AsPath(x: PathLike): Path
  {
    match x
    case StrPath(s) => Parse(s)
    case PathObj(p) => p
  }

  /** The name with `suffix` put before its first dot:
      `name, *tail = name.split("."); ".".join([name + suffix] + tail)`. */
  function InsertBeforeFirstDot(name: string, suffix: string): (r: string)
  {
    var pieces := Split(name, '.');
    Join([pieces[0] + suffix] + pieces[1..], ".")
  }

  /** The new name is the part before the first dot, the suffix, and
      everything from the first dot on, unchanged. */
  lemma InsertBeforeFirstDotShape(name: string, suffix: string)
    ensures var head := Split(name, '.')[0];
            && head <= name && '.' !in head
            && (|head| < |name| ==> name[|head|] == '.')
            && InsertBeforeFirstDot(name, suffix) == head + suffix + name[|head|..]
  {
    var pieces := Split(name, '.');
    SplitHead(name, '.');
    var head := pieces[0];
    if |pieces| == 1 {
      assert name[|head|..] == "";
    } else {
      var rest := Join(pieces[1..], ".");
      assert Join([head + suffix] + pieces[1..], ".") == (head + suffix) + "." + rest by {
        assert ([head + suffix] + pieces[1..])[1..] == pieces[1..];
      }
      assert name[|head|..] == "." + rest;
    }
  }

  /** `append_to_file_name(path, name_suffix)`: insert the suffix before the
      name's first dot, keep the parent, and give back the argument's type. */
  function AppendToFileName(x: PathLike, nameSuffix: string): (r: PathLike)
    ensures r.StrPath? <==> x.StrPath?
  {
    var path := AsPath(x);
    var joined := JoinPath(Parent(path), InsertBeforeFirstDot(Name(path), nameSuffix));
    if x.StrPath? then StrPath(ToString(joined)) else PathObj(joined)
  }

  /** For a path with a name and a slash-free suffix, the result is the
      same parent with the new name as its last component. */
  lemma AppendToFileNameKeepsParent(x: PathLike, nameSuffix: string)
    requires Valid(AsPath(x)) && Name(AsPath(x)) != "" && '/' !in nameSuffix
    ensures var r := AsPath(AppendToFileName(x, nameSuffix));
            && Parent(r) == Parent(AsPath(x))
            && Name(r) == InsertBeforeFirstDot(Name(AsPath(x)), nameSuffix)
  {
    var path := AsPath(x);
    var dir := Parent(path);
    var newName := InsertBeforeFirstDot(Name(path), nameSuffix);
    NewNameValid(Name(path), nameSuffix);
    JoinPathPart(dir, newName);
    ChildParent(dir, newName);
    if x.StrPath? {
      assert Valid(dir) by {
        assert forall i :: 0 <= i < |dir.parts| ==> dir.parts[i] == path.parts[i];
      }
      ParseChild(dir, newName);
    }
  }

  /** Inserting slash-free text into a valid component gives a valid one. */
  lemma NewNameValid(name: string, suffix: string)
    requires ValidPart(name) && '/' !in suffix
    ensures ValidPart(InsertBeforeFirstDot(name, suffix))
  {
    var newName := InsertBeforeFirstDot(name, suffix);
    InsertBeforeFirstDotShape(name, suffix);
    var head := Split(name, '.')[0];
    assert '/' !in head by {
      assert forall k :: 0 <= k < |head| ==> head[k] == name[k];
    }
    assert '/' !in name[|head|..] by {
      assert forall k :: 0 <= k < |name| - |head| ==> name[|head|..][k] == name[|head| + k];
    }
    NoSlashConcat(head, suffix);
    NoSlashConcat(head + suffix, name[|head|..]);
    assert |newName| == |suffix| + |name|;
    if |suffix| == 0 {
      assert newName == name by {
        assert head + suffix == head;
        assert head + name[|head|..] == name;
      }
    }
  }

  // ---------------------------------------------------------------------
  // get_output_file_path

  /** `get_name`'s filtering: falsy parts are dropped, the rest are
      converted with `str` and stripped, and empty results are dropped. */
  function NameParts(vals: seq<KP.Value>): (r: seq<string>)
    ensures forall i :: 0 <= i < |r| ==> Clean(r[i])
    decreases |vals|
  {
    if |vals| == 0 then []
    else
      var rest := NameParts(vals[1..]);
      match NamePart(vals[0])
      case Some(s) => AllCleanCons(s, rest); [s] + rest
      case None => rest
  }

  lemma AllCleanCons(s: string, rest: seq<string>)
    requires Clean(s) && forall i :: 0 <= i < |rest| ==> Clean(rest[i])
    ensures forall i :: 0 <= i < |[s] + rest| ==> Clean(([s] + rest)[i])
  {
  }

  /** One part through the filter: kept, as stripped text, when it is truthy
      and its text is not all white space. */
  function NamePart(v: KP.Value): (r: Option<string>)
    ensures r.Some? <==> KP.Truthy(v) && Strip(KP.ToStr(v)) != ""
    ensures r.Some? ==> r.value == Strip(KP.ToStr(v)) && Clean(r.value)
  {
    var s := Strip(KP.ToStr(v));
    StripFixed(KP.ToStr(v));
    if KP.Truthy(v) && |s| > 0 then Some(s) else None
  }

  /** The filter works part by part: parts concatenate, and a falsy part
      anywhere is as good as absent. */
  lemma {:induction false} NamePartsAppend(a: seq<KP.Value>, b: seq<KP.Value>)
    ensures NameParts(a + b) == NameParts(a) + NameParts(b)
    decreases |a|
  {
    if |a| == 0 {
      assert a + b == b;
    } else {
      assert (a + b)[0] == a[0];
      assert (a + b)[1..] == a[1..] + b;
      NamePartsAppend(a[1..], b);
    }
  }

  lemma NamePartsDropsFalsy(a: seq<KP.Value>, v: KP.Value, b: seq<KP.Value>)
    requires !KP.Truthy(v)
    ensures NameParts(a + [v] + b) == NameParts(a + b)
  {
    NamePartsAppend(a + [v], b);
    NamePartsAppend(a, [v]);
    NamePartsAppend(a, b);
    NamePartsSingle(v);
  }

  lemma NamePartsSingle(v: KP.Value)
    ensures NameParts([v]) == if NamePart(v).Some? then [NamePart(v).value] else []
  {
    assert [v][1..] == [];
  }

  /** Text that `get_name` keeps as it is: non-empty and stripped. */
  predicate Clean(s: string)
  {
    |s| > 0 && Strip(s) == s
  }

  /** A string value that `get_name` keeps as it is. */
  predicate CleanText(v: KP.Value)
  {
    v.VStr? && Clean(v.s)
  }

  /** Parts that are already clean, non-empty strings pass unchanged. */
  lemma NamePartsKeepsClean(v: KP.Value, rest: seq<KP.Value>)
    requires CleanText(v)
    ensures NameParts([v] + rest) == [v.s] + NameParts(rest)
  {
    assert ([v] + rest)[0] == v && ([v] + rest)[1..] == rest;
    assert NamePart(v) == Some(v.s);
  }

  /** `get_name`: the script's stem and the parts, filtered, joined by
      "---". */
  function GetName(script: string, parts: seq<KP.Value>): (r: string)
    ensures Clean(Stem(Name(Parse(script)))) ==> r == Join([Stem(Name(Parse(script)))] + NameParts(parts), "---")
  {
    var stem := Stem(Name(Parse(script)));
    if Clean(stem) then
      NamePartsKeepsClean(KP.VStr(stem), parts);
      Join(NameParts([KP.VStr(stem)] + parts), "---")
    else
      Join(NameParts([KP.VStr(stem)] + parts), "---")
  }

  /** `get_ext` */
  function GetExt(ext: string): (r: string)
    ensures r == ".out." + ext
  {
    ".out." + ext
  }

  /** `get_output_file_path(script, *parts, ext=ext)` as written: the output
      directory (a parameter: it is derived from the module's own location)
      joined with the name, then `with_suffix` of the extension. The
      directory creation is file-system work and is left out. */
  function GetOutputFilePath(dir: Path, script: string, parts: seq<KP.Value>, ext: string): (r: Result<string>)
    ensures '/' in ext ==> r.Err?
    ensures Valid(dir) && ValidPart(GetName(script, parts)) && '/' !in ext ==>
              r == Ok(ToString(Path(dir.absolute, dir.parts + [Stem(GetName(script, parts)) + ".out." + ext])))
  {
    var name := GetName(script, parts);
    if Valid(dir) && ValidPart(name) && '/' !in ext then
      OutputPathShape(dir, name, ext);
      OutputPath(dir, name, ext)
    else OutputPath(dir, name, ext)
  }

  function OutputPath(dir: Path, name: string, ext: string): (r: Result<string>)
    ensures '/' in ext ==> r.Err?
  {
    var out :- WithSuffix(JoinPath(dir, name), GetExt(ext));
    Ok(ToString(out))
  }

  /** The evidently intended file name: the joined name with ".out.<ext>"
      appended, whatever dots the parts hold. */
  function GetOutputFilePathAppending(dir: Path, script: string, parts: seq<KP.Value>, ext: string): (r: Result<string>)
    ensures '/' in ext ==> r.Err?
    ensures Valid(dir) && ValidPart(GetName(script, parts)) && '/' !in ext ==>
              r == Ok(ToString(Path(dir.absolute, dir.parts + [GetName(script, parts) + ".out." + ext])))
  {
    var name := GetName(script, parts);
    if Valid(dir) && ValidPart(name) && '/' !in ext then
      OutputPathShape(dir, name, ext);
      OutputPathAppending(dir, name, ext)
    else OutputPathAppending(dir, name, ext)
  }

  function OutputPathAppending(dir: Path, name: string, ext: string): (r: Result<string>)
    ensures '/' in ext ==> r.Err?
  {
    var path := JoinPath(dir, name);
    if '/' in ext || Name(path) == "" then Err(ValueError("Invalid suffix"))
    else Ok(ToString(Parent(path).(parts := Parent(path).parts + [Name(path) + GetExt(ext)])))
  }

  /** For a name that is one valid component, the intended file is the
      directory, then the name followed by ".out.<ext>"; the code as written
      puts ".out.<ext>" in place of the name's own suffix, so the two agree
      exactly when the name has none. */
  lemma OutputPathShape(dir: Path, name: string, ext: string)
    requires Valid(dir) && ValidPart(name) && '/' !in ext
    ensures OutputPathAppending(dir, name, ext) == Ok(ToString(Path(dir.absolute, dir.parts + [name + ".out." + ext])))
    ensures OutputPath(dir, name, ext) == Ok(ToString(Path(dir.absolute, dir.parts + [Stem(name) + ".out." + ext])))
    ensures OutputPath(dir, name, ext) == OutputPathAppending(dir, name, ext) <==> Suffix(name) == ""
  {
    JoinedName(dir, name);
    assert Stem(name) + GetExt(ext) == Stem(name) + ".out." + ext;
    assert name + GetExt(ext) == name + ".out." + ext;
    var a := Path(dir.absolute, dir.parts + [name + ".out." + ext]);
    var b := Path(dir.absolute, dir.parts + [Stem(name) + ".out." + ext]);
    if Suffix(name) != "" {
      DistinctFiles(dir, name, ext);
    } else {
      assert Stem(name) == name;
    }
  }

  lemma JoinedName(dir: Path, name: string)
    requires ValidPart(name)
    ensures Parent(JoinPath(dir, name)) == dir && Name(JoinPath(dir, name)) == name
  {
    JoinPathPart(dir, name);
    assert (dir.parts + [name])[..|dir.parts|] == dir.parts;
  }

  /** Where the name has a suffix, the two file names print differently. */
  lemma DistinctFiles(dir: Path, name: string, ext: string)
    requires Valid(dir) && ValidPart(name) && '/' !in ext && Suffix(name) != ""
    ensures ToString(Path(dir.absolute, dir.parts + [name + ".out." + ext]))
              != ToString(Path(dir.absolute, dir.parts + [Stem(name) + ".out." + ext]))
  {
    var a := name + ".out." + ext;
    var b := Stem(name) + ".out." + ext;
    StemPlain(name);
    OutPart(name, ext);
    OutPart(Stem(name), ext);
    assert |a| != |b|;
    ParseChild(dir, a);
    ParseChild(dir, b);
    var pa := Path(dir.absolute, dir.parts + [a]);
    var pb := Path(dir.absolute, dir.parts + [b]);
    assert pa.parts[|dir.parts|] == a && pb.parts[|dir.parts|] == b;
  }

  /** The stem of a slash-free name is a shorter, slash-free text. */
  lemma StemPlain(name: string)
    requires ValidPart(name)
    ensures |Stem(name)| > 0 && '/' !in Stem(name)
    ensures Suffix(name) != "" ==> |Stem(name)| < |name|
  {
    var stem := Stem(name);
    assert name == stem + Suffix(name);
    forall k | 0 <= k < |stem|
      ensures stem[k] != '/'
    {
      assert stem[k] == name[k];
    }
  }

  /** A slash-free name followed by ".out.<ext>" is one valid component. */
  lemma OutPart(x: string, ext: string)
    requires |x| > 0 && '/' !in x && '/' !in ext
    ensures ValidPart(x + ".out." + ext)
  {
    NoSlashConcat(x, ".out.");
    NoSlashConcat(x + ".out.", ext);
  }

  lemma NoSlashConcat(a: string, b: string)
    requires '/' !in a && '/' !in b
    ensures '/' !in a + b
  {
    forall k | 0 <= k < |a + b|
      ensures (a + b)[k] != '/'
    {
      if k < |a| {
        assert (a + b)[k] == a[k];
      } else {
        assert (a + b)[k] == b[k - |a|];
      }
    }
  }

  /** As written, `with_suffix` replaces a dotted last part's tail: with a
      script "rec.py" and a part "take.2" (any dot-free, slash-free words
      without outer white space stand for "rec", "take" and "2") the file is
      "rec---take.out.mp4", and the ".2" is lost. */
  lemma GetOutputFilePathLosesDottedPart(dir: Path, stem: string, word: string, digit: string, ext: string)
    requires Valid(dir) && '/' !in ext
    requires Word(stem) && Word(word) && Word(digit)
    ensures GetName(stem + ".py", [KP.VStr(word + "." + digit)]) == stem + "---" + word + "." + digit
    ensures GetOutputFilePath(dir, stem + ".py", [KP.VStr(word + "." + digit)], ext)
              == Ok(ToString(Path(dir.absolute, dir.parts + [stem + "---" + word + ".out." + ext])))
    ensures GetOutputFilePathAppending(dir, stem + ".py", [KP.VStr(word + "." + digit)], ext)
              == Ok(ToString(Path(dir.absolute, dir.parts + [stem + "---" + word + "." + digit + ".out." + ext])))
    ensures GetOutputFilePath(dir, stem + ".py", [KP.VStr(word + "." + digit)], ext)
              != GetOutputFilePathAppending(dir, stem + ".py", [KP.VStr(word + "." + digit)], ext)
  {
    var name := stem + "---" + word + "." + digit;
    DottedName(stem, word, digit);
    assert '.' !in "---" && '/' !in "---" && '/' !in ".";
    SuffixOfDotted(stem + "---" + word, digit);
    assert ValidPart(name) by {
      assert |name| > 1;
    }
    OutputPathShape(dir, name, ext);
  }

  lemma DottedName(stem: string, word: string, digit: string)
    requires Word(stem) && Word(word) && Word(digit)
    ensures GetName(stem + ".py", [KP.VStr(word + "." + digit)]) == stem + "---" + word + "." + digit
  {
    var part := word + "." + digit;
    var script := stem + ".py";
    ScriptStem(stem);
    DottedWord(word, digit);
    TwoParts(stem, part);
    GetNameByStem(script, stem, [KP.VStr(part)]);
    assert Join([stem, part], "---") == stem + "---" + part by {
      assert [stem, part][1..] == [part];
    }
    Regroup(stem + "---", word, ".", digit);
  }

  lemma Regroup(a: string, b: string, c: string, d: string)
    ensures a + (b + c + d) == a + b + c + d
  {
  }

  lemma GetNameByStem(script: string, stem: string, parts: seq<KP.Value>)
    requires Stem(Name(Parse(script))) == stem
    ensures GetName(script, parts) == Join(NameParts([KP.VStr(stem)] + parts), "---")
  {
  }

  lemma TwoParts(stem: string, part: string)
    requires CleanText(KP.VStr(stem)) && CleanText(KP.VStr(part))
    ensures NameParts([KP.VStr(stem)] + [KP.VStr(part)]) == [stem, part]
  {
    NamePartsKeepsClean(KP.VStr(part), []);
    NamePartsKeepsClean(KP.VStr(stem), [KP.VStr(part)]);
    assert [KP.VStr(part)] + [] == [KP.VStr(part)];
  }

  /** A word of the example: non-empty, with no dot, no slash and no white
      space at either end. */
  predicate Word(s: string)
  {
    |s| > 0 && '.' !in s && '/' !in s && Strip(s) == s
  }

  lemma ScriptStem(stem: string)
    requires Word(stem)
    ensures Stem(Name(Parse(stem + ".py"))) == stem
    ensures CleanText(KP.VStr(stem))
  {
    assert Name(Parse(stem + ".py")) == stem + ".py" by {
      assert ValidPart(stem + ".py") by {
        assert forall c :: c in stem + ".py" ==> c in stem || c == '.' || c == 'p' || c == 'y';
      }
      ParseValidPart(stem + ".py");
    }
    assert Stem(stem + ".py") == stem by {
      SuffixOfDotted(stem, "py");
      assert stem + "." + "py" == stem + ".py";
    }
  }

  lemma DottedWord(word: string, digit: string)
    requires Word(word) && Word(digit)
    ensures CleanText(KP.VStr(word + "." + digit))
  {
    var s := word + "." + digit;
    StripFixed(word);
    StripFixed(digit);
    assert s[0] == word[0] && s[|s| - 1] == digit[|digit| - 1];
    StripFixed(s);
  }
}
