/** page_loader/file.py: turning a URL into a file name (convert_name), and
    the directory and file creation that the loader performs through Host. */
module Files {
  import opened Wrappers
  import opened Paths
  import opened Effects

  /** The character class [a-zA-Z0-9]. */
  predicate IsAlnum(c: char)
  {
    ('a' <= c <= 'z') || ('A' <= c <= 'Z') || ('0' <= c <= '9')
  }

  // ---------------------------------------------------------------------
  // Removing the scheme: re.sub('(^.+://)', '', url)
  // ---------------------------------------------------------------------

  /** ^.+:// matches s[..k]: one or more characters other than a newline
      (Python's '.'), then "://". */
  predicate SchemeEndsAt(s: string, k: int)
  {
    4 <= k <= |s| && s[k - 3..k] == "://" && '\n' !in s[..k - 3]
  }

  /** The largest match end not beyond k, found by trying k, k - 1, ...:
      the greedy '.+' backtracks from the longest candidate. */
  function LastSchemeEnd(s: string, k: nat): (r: Option<nat>)
    requires k <= |s|
    ensures r.Some? ==> r.value <= k && SchemeEndsAt(s, r.value)
    ensures r.Some? ==> forall j :: r.value < j <= k ==> !SchemeEndsAt(s, j)
    ensures r.None? ==> forall j :: j <= k ==> !SchemeEndsAt(s, j)
  {
    if k < 4 then None
    else if SchemeEndsAt(s, k) then Some(k)
    else LastSchemeEnd(s, k - 1)
  }

  /** The URL without its scheme: the longest prefix that ^.+:// matches is
      removed, so the cut is at the last "://" that has at least one
      character before it and no newline in front of it. Without a match
      the string is unchanged. */
  function StripScheme(s: string): (r: string)
    ensures |r| <= |s| && r == s[|s| - |r|..]
    ensures |r| < |s| ==> SchemeEndsAt(s, |s| - |r|)
    ensures forall k :: SchemeEndsAt(s, k) ==> k <= |s| - |r|
  {
    match LastSchemeEnd(s, |s|)
    case None => s
    case Some(k) => s[k..]
  }

  // ---------------------------------------------------------------------
  // Hyphenation: re.sub('([^a-zA-Z0-9]+)', '-', s)
  // ---------------------------------------------------------------------

  /** Letters, digits and '-' only. */
  predicate AllowedChars(r: string)
  {
    forall i :: 0 <= i < |r| ==> IsAlnum(r[i]) || r[i] == '-'
  }

  /** No two adjacent hyphens. */
  predicate NoDoubleHyphen(r: string)
  {
    forall i :: 0 < i < |r| ==> !(r[i - 1] == '-' && r[i] == '-')
  }

  /** What the substitution can produce. */
  predicate Clean(r: string)
  {
    AllowedChars(r) && NoDoubleHyphen(r)
  }

  predicate StartsWithHyphen(r: string)
  {
    |r| > 0 && r[0] == '-'
  }

  /** s without its leading run of characters outside [a-zA-Z0-9]. */
  function SkipRun(s: string): (r: string)
    ensures |r| <= |s| && r == s[|s| - |r|..]
    ensures forall i :: 0 <= i < |s| - |r| ==> !IsAlnum(s[i])
    ensures r == [] || IsAlnum(r[0])
  {
    if |s| > 0 && !IsAlnum(s[0]) then
      var r := SkipRun(s[1..]);
      assert s[|s| - |r|..] == s[1..][|s| - 1 - |r|..];
      assert forall i :: 1 <= i < |s| - |r| ==> s[i] == s[1..][i - 1];
      r
    else s
  }

  /** Every maximal run of characters outside [a-zA-Z0-9] becomes one '-'. */
  function Hyphenate(s: string): (r: string)
    ensures |r| <= |s|
    ensures Clean(r)
    ensures |r| == 0 <==> |s| == 0
    ensures StartsWithHyphen(r) <==> |s| > 0 && !IsAlnum(s[0])
    decreases |s|
  {
    if |s| == 0 then ""
    else if IsAlnum(s[0]) then
      var rest := Hyphenate(s[1..]);
      assert forall i :: 0 < i < |rest| + 1 ==> ([s[0]] + rest)[i] == rest[i - 1];
      [s[0]] + rest
    else
      var rest := Hyphenate(SkipRun(s));
      assert forall i :: 0 < i < |rest| + 1 ==> ("-" + rest)[i] == rest[i - 1];
      "-" + rest
  }

  // An independent reading of the substitution: replace each character
  // outside the class by '-', then squeeze repeated hyphens.

  function HyphenEach(s: string): (r: string)
    ensures |r| == |s|
  {
    if s == [] then [] else [if IsAlnum(s[0]) then s[0] else '-'] + HyphenEach(s[1..])
  }

  function Squeeze(s: string): string
  {
    if |s| <= 1 then s
    else if s[0] == '-' && s[1] == '-' then Squeeze(s[1..])
    else [s[0]] + Squeeze(s[1..])
  }

  /** Squeezing the hyphens of a run gives one hyphen, then what follows. */
  lemma {:induction false} SqueezeRun(s: string)
    requires |s| > 0 && !IsAlnum(s[0])
    ensures Squeeze(HyphenEach(s)) == "-" + Squeeze(HyphenEach(SkipRun(s)))
    decreases |s|
  {
    var h := HyphenEach(s);
    assert h == "-" + HyphenEach(s[1..]);
    if |s| == 1 {
      assert HyphenEach(s[1..]) == [];
    } else if IsAlnum(s[1]) {
      assert h[1] == s[1];
      assert h[1..] == HyphenEach(s[1..]);
      assert SkipRun(s) == s[1..];
    } else {
      assert h[1] == '-';
      assert h[1..] == HyphenEach(s[1..]);
      SqueezeRun(s[1..]);
    }
  }

  /** Hyphenate agrees with the map-then-squeeze reading. */
  lemma {:induction false} HyphenateIsSqueeze(s: string)
    ensures Hyphenate(s) == Squeeze(HyphenEach(s))
    decreases |s|
  {
    if |s| == 0 {
    } else if IsAlnum(s[0]) {
      var h := HyphenEach(s);
      assert h == [s[0]] + HyphenEach(s[1..]);
      assert h[1..] == HyphenEach(s[1..]);
      HyphenateIsSqueeze(s[1..]);
      if |s| > 1 {
        assert Squeeze(h) == [s[0]] + Squeeze(h[1..]);
      }
    } else {
      var t := SkipRun(s);
      HyphenateIsSqueeze(t);
      SqueezeRun(s);
    }
  }

  /** s with every character outside [a-zA-Z0-9] removed. */
  function AlnumOnly(s: string): string
  {
    if s == [] then [] else (if IsAlnum(s[0]) then [s[0]] else []) + AlnumOnly(s[1..])
  }

  /** s with every '-' removed. */
  function Unhyphen(s: string): string
  {
    if s == [] then [] else (if s[0] == '-' then [] else [s[0]]) + Unhyphen(s[1..])
  }

  lemma {:induction false} SkipRunKeepsAlnum(s: string)
    ensures AlnumOnly(SkipRun(s)) == AlnumOnly(s)
    decreases |s|
  {
    if |s| > 0 && !IsAlnum(s[0]) {
      SkipRunKeepsAlnum(s[1..]);
    }
  }

  /** Deleting the hyphens from the output gives the letters and digits of
      the input, in their order: nothing else is dropped, added or moved. */
  lemma {:induction false} HyphenateKeepsAlnum(s: string)
    ensures Unhyphen(Hyphenate(s)) == AlnumOnly(s)
    decreases |s|
  {
    if |s| == 0 {
    } else if IsAlnum(s[0]) {
      var rest := Hyphenate(s[1..]);
      assert ([s[0]] + rest)[1..] == rest;
      HyphenateKeepsAlnum(s[1..]);
    } else {
      var rest := Hyphenate(SkipRun(s));
      assert ("-" + rest)[1..] == rest;
      HyphenateKeepsAlnum(SkipRun(s));
      SkipRunKeepsAlnum(s);
      SkipRunKeepsAlnum(s[1..]);
    }
  }

  /** The tail of a clean string is clean, and a clean string that starts
      outside the class starts with one '-' followed by a letter or digit. */
  lemma CleanTail(t: string)
    requires Clean(t) && |t| > 0
    ensures Clean(t[1..])
    ensures !IsAlnum(t[0]) ==> t[0] == '-' && (|t| > 1 ==> IsAlnum(t[1]))
  {
    var u := t[1..];
    assert forall i :: 0 <= i < |u| ==> u[i] == t[i + 1];
    if !IsAlnum(t[0]) && |t| > 1 {
      assert !(t[0] == '-' && t[1] == '-');
    }
  }

  /** A clean string is left as it is. */
  lemma {:induction false} HyphenateClean(t: string)
    requires Clean(t)
    ensures Hyphenate(t) == t
    decreases |t|
  {
    if |t| > 0 {
      var u := t[1..];
      CleanTail(t);
      HyphenateClean(u);
      if IsAlnum(t[0]) {
        calc {
          Hyphenate(t);
          [t[0]] + Hyphenate(u);
          [t[0]] + u;
          { assert [t[0]] + u == t; }
          t;
        }
      } else {
        SkipRunAlnum(u);
        calc {
          Hyphenate(t);
          "-" + Hyphenate(SkipRun(t));
          { assert SkipRun(t) == SkipRun(u); }
          "-" + Hyphenate(u);
          "-" + u;
          { assert "-" + u == t; }
          t;
        }
      }
    }
  }

  /** A string that starts with a letter or digit has no run to skip. */
  lemma SkipRunAlnum(u: string)
    requires |u| > 0 ==> IsAlnum(u[0])
    ensures SkipRun(u) == u
  {
  }

  /** Hyphenating twice is hyphenating once. */
  lemma HyphenateIdempotent(s: string)
    ensures Hyphenate(Hyphenate(s)) == Hyphenate(s)
  {
    HyphenateClean(Hyphenate(s));
  }

  /** The strings that hyphenation leaves unchanged are exactly the clean ones. */
  lemma HyphenateFixpoints(s: string)
    ensures Hyphenate(s) == s <==> Clean(s)
  {
    if Clean(s) {
      HyphenateClean(s);
    }
  }

  // ---------------------------------------------------------------------
  // convert_name
  // ---------------------------------------------------------------------

  /** r is s hyphenated, except for its suffix e, which r ends with verbatim. */
  predicate HyphenatedWith(s: string, e: string, r: string)
  {
    |e| <= |s| && |e| <= |r| && r[|r| - |e|..] == e &&
    r[..|r| - |e|] == Squeeze(HyphenEach(s[..|s| - |e|]))
  }

  /** The extension that convert_name keeps. */
  function KeptExtension(s: string, parseExtension: bool): string
  {
    if parseExtension then Splitext(s).1 else ""
  }

  lemma NameJoinsExtension(s: string, root: string, ext: string)
    requires root + ext == s
    requires ext == "" || DotSuffix(ext)
    ensures '/' !in Hyphenate(root) + ext
    ensures HyphenatedWith(s, ext, Hyphenate(root) + ext)
  {
    var name := Hyphenate(root);
    var r := name + ext;
    HyphenateIsSqueeze(root);
    assert s[..|s| - |ext|] == root;
    assert r[..|r| - |ext|] == name && r[|r| - |ext|..] == ext;
    assert forall i :: 0 <= i < |name| ==> IsAlnum(name[i]) || name[i] == '-';
    assert '/' !in name;
  }

  /** convert_name(url, parse_extension): strip the scheme, optionally split
      off the extension with splitext, hyphenate the rest and append the
      extension as it is. No '.html' is added and the length is not limited.
      The result never holds a '/', so it names a file in one directory. */
  function ConvertName(url: string, parseExtension: bool): string
  {
    var s := StripScheme(url);
    if parseExtension then
      var (root, ext) := Splitext(s);
      Hyphenate(root) + ext
    else
      Hyphenate(s)
  }

  /** A converted name never contains a '/', so it names a file directly
      inside the directory it is joined to. */
  lemma ConvertNameNoSlash(url: string, parseExtension: bool)
    ensures '/' !in ConvertName(url, parseExtension)
  {
    var s := StripScheme(url);
    if parseExtension {
      var (root, ext) := Splitext(s);
      SplitextRule(s);
      NameJoinsExtension(s, root, ext);
    } else {
      NameJoinsExtension(s, s, "");
      assert Hyphenate(s) + "" == Hyphenate(s);
    }
  }

  /** The name is the URL without scheme, each maximal run outside
      [a-zA-Z0-9] replaced by one '-' (read as: every such character
      becomes '-', then repeated '-' are squeezed), except for the
      extension, which is kept verbatim and is present only when asked for. */
  lemma ConvertNameShape(url: string, parseExtension: bool)
    ensures var e := KeptExtension(StripScheme(url), parseExtension);
      (e == "" || DotSuffix(e)) &&
      HyphenatedWith(StripScheme(url), e, ConvertName(url, parseExtension))
  {
    var s := StripScheme(url);
    if parseExtension {
      var (root, ext) := Splitext(s);
      SplitextRule(s);
      NameJoinsExtension(s, root, ext);
    } else {
      assert s + "" == s;
      NameJoinsExtension(s, s, "");
      assert Hyphenate(s) + "" == Hyphenate(s);
    }
  }

  /** What the name is made of: without extension parsing it is the clean
      hyphenation of the URL without scheme; with it, a clean name followed
      by the extension that splitext finds, kept verbatim. */
  lemma ConvertNameParts(url: string, parseExtension: bool)
    ensures !parseExtension ==> ConvertName(url, false) == Hyphenate(StripScheme(url))
    ensures parseExtension ==>
      var (root, ext) := Splitext(StripScheme(url));
      root + ext == StripScheme(url) && (ext == "" || DotSuffix(ext)) &&
      ConvertName(url, true) == Hyphenate(root) + ext
  {
    SplitextRule(StripScheme(url));
  }

  /** Without extension parsing the name is clean and keeps the letters and
      digits of the URL without scheme. */
  lemma ConvertNamePlain(url: string)
    ensures Clean(ConvertName(url, false))
    ensures Unhyphen(ConvertName(url, false)) == AlnumOnly(StripScheme(url))
    ensures |ConvertName(url, false)| <= |StripScheme(url)|
  {
    ConvertNameParts(url, false);
    HyphenateKeepsAlnum(StripScheme(url));
  }

  // ---------------------------------------------------------------------
  // create_directory and write_file
  // ---------------------------------------------------------------------

  /** create_directory's result for mkdir's outcome on the joined path: a
      PermissionError stays one, every other OSError is reported as the
      directory already existing. */
  function DirectoryResult(absPath: string, made: MkdirOutcome): (r: Result<string, Error>)
    ensures r.Success? <==> made.Made?
    ensures r.Success? ==> r.value == absPath
    ensures r.Failure? ==> IsOSError(r.error) && r.error.path == absPath
    ensures r.Failure? ==> (r.error.PermissionDenied? <==> made.MkdirDenied?)
  {
    match made
    case Made => Success(absPath)
    case MkdirDenied => Failure(PermissionDenied(absPath))
    case MkdirFailed => Failure(DirectoryExists(absPath))
  }

  /** write_file's exception for the outcome of writing path: the missing
      directory is reported with the head of split(path). */
  function WriteError(path: string, wrote: WriteOutcome): (r: Option<Error>)
    ensures r.None? <==> wrote.Written?
    ensures r.Some? ==> IsOSError(r.value)
    ensures wrote.NoDirectory? ==> r == Some(DirectoryMissing(Split(path).0))
    ensures wrote.WriteDenied? ==> r == Some(PermissionDenied(path))
    ensures r.Some? && !wrote.NoDirectory? ==> r.value.path == path
    ensures r.Some? ==> (r.value.PermissionDenied? <==> wrote.WriteDenied?)
  {
    match wrote
    case Written => None
    case NoDirectory => Some(DirectoryMissing(Split(path).0))
    case WriteDenied => Some(PermissionDenied(path))
    case WriteFailed => Some(OtherOsError(path))
  }

  /** create_directory(path, name_folder). */
  method CreateDirectory(host: Host, path: string, name: string) returns (r: Result<string, Error>)
    modifies host
    ensures var abs := Join(path, name);
      var made := host.world.mkdir(old(host.log), abs);
      host.log == old(host.log) + [MadeDir(abs, made)] && r == DirectoryResult(abs, made)
    ensures host.files == old(host.files)
  {
    var absPath := Join(path, name);
    var made := host.MakeDir(absPath);
    r := DirectoryResult(absPath, made);
  }

  /** write_file(path, data, binary). */
  method WriteFile(host: Host, path: string, data: Body, binary: bool) returns (err: Option<Error>)
    modifies host
    ensures var wrote := host.world.store(old(host.log), path);
      var e := Stored(path, data, binary, wrote);
      host.log == old(host.log) + [e] &&
      host.files == FilesAfter(old(host.files), [e]) &&
      err == WriteError(path, wrote)
  {
    var wrote := host.Store(path, data, binary);
    err := WriteError(path, wrote);
  }
}
