/** File selection and naming: the extension filter of `_iter_doc_files`
    (main.py:249-265), `_default_output_path` (main.py:244-246) and the
    `<stem>_images` directory (main.py:63-68, 150-152). Paths are Windows
    paths, as on the only platform the converter runs on: both '\\' and '/'
    separate components. */
module Paths {
  import opened Text

  predicate IsSep(c: char) {
    c == '\\' || c == '/'
  }

  predicate NoSep(s: string) {
    forall i :: 0 <= i < |s| ==> !IsSep(s[i])
  }

  /** Every character of `p` from index `i` on is a non-separator. */
  predicate NoSepFrom(p: string, i: nat) {
    forall j :: i <= j < |p| ==> !IsSep(p[j])
  }

  /** Every character of `p` in the index range [lo, hi) is a dot. */
  predicate AllDotsIn(p: string, lo: nat, hi: nat) {
    forall j :: lo <= j < hi && j < |p| ==> p[j] == '.'
  }

  /** Where the component that ends at index `j` starts: one past the
      last separator before `j`, or 0 when there is none. */
  function ComponentStart(p: string, j: nat): (i: nat)
    requires j <= |p|
    ensures i <= j
    ensures 0 < i ==> IsSep(p[i - 1])
    ensures forall k :: i <= k < j ==> !IsSep(p[k])
    decreases j
  {
    if j == 0 then 0
    else if IsSep(p[j - 1]) then j
    else ComponentStart(p, j - 1)
  }

  /** Where the last path component starts: one past the last separator,
      or 0 when there is none. */
  function NameStart(p: string): (i: nat)
    ensures i <= |p|
    ensures 0 < i ==> IsSep(p[i - 1])
    ensures NoSepFrom(p, i)
  {
    ComponentStart(p, |p|)
  }

  /** The two properties of `NameStart` determine it. */
  lemma {:induction false} NameStartUnique(p: string, i: nat)
    requires i <= |p| && (0 < i ==> IsSep(p[i - 1])) && NoSepFrom(p, i)
    ensures NameStart(p) == i
  {
  }

  /** The index of the last '.' in `p` before index `j`, or -1 when there
      is none. */
  function LastDotBefore(p: string, j: nat): (d: int)
    requires j <= |p|
    ensures -1 <= d < j
    ensures 0 <= d ==> p[d] == '.'
    ensures forall k :: d < k < j ==> p[k] != '.'
    decreases j
  {
    if j == 0 then -1
    else if p[j - 1] == '.' then j - 1
    else LastDotBefore(p, j - 1)
  }

  /** The index of the last '.' in `p`, or -1 when there is none. */
  function LastDot(p: string): (d: int)
    ensures -1 <= d < |p|
    ensures 0 <= d ==> p[d] == '.'
    ensures forall j :: d < j < |p| ==> p[j] != '.'
  {
    LastDotBefore(p, |p|)
  }

  /** The two properties of `LastDot` determine it. */
  lemma {:induction false} LastDotUnique(p: string, d: nat)
    requires d < |p| && p[d] == '.' && forall j :: d < j < |p| ==> p[j] != '.'
    ensures LastDot(p) == d
  {
  }

  /** Where `os.path.splitext` puts the start of the extension (`|p|` when
      there is none): at the last dot, provided that dot lies in the last
      component and something other than dots precedes it there. A leading
      dot, as in `.docx`, therefore starts no extension. */
  function ExtStart(p: string): (e: nat)
    ensures NameStart(p) <= e <= |p|
    ensures e < |p| ==> p[e] == '.' && e == LastDot(p)
  {
    var d := LastDot(p);
    var s := NameStart(p);
    if s <= d && !AllDotsIn(p, s, d) then d else |p|
  }

  /** `os.path.splitext(p)`: the root and the extension, cut at `ExtStart`. */
  function SplitExt(p: string): (r: (string, string))
    ensures r.0 == p[..ExtStart(p)] && r.1 == p[ExtStart(p)..]
  {
    var e := ExtStart(p);
    if e < |p| then (p[..e], p[e..]) else (p, [])
  }

  /** Root and extension give the path back; the extension is empty or a
      dot followed by anything but dots and separators. */
  lemma SplitExtShape(p: string)
    ensures SplitExt(p).0 + SplitExt(p).1 == p
    ensures var x := SplitExt(p).1;
      x == [] || (x[0] == '.' && NoSep(x) && '.' !in x[1..])
  {
    var e := ExtStart(p);
    assert p[..e] + p[e..] == p;
    if e < |p| {
      var x := p[e..];
      assert forall j :: 0 <= j < |x| ==> x[j] == p[e + j];
      assert forall j :: 1 <= j < |x| ==> x[1..][j - 1] == x[j];
    }
  }

  /** `os.path.basename(p)`: the last component. */
  function Basename(p: string): (r: string)
    ensures NoSep(r)
    ensures |r| <= |p| && r == p[|p| - |r|..]
    ensures |r| == |p| || IsSep(p[|p| - |r| - 1])
  {
    p[NameStart(p)..]
  }

  /** The extension test of `_iter_doc_files`: a name is selected exactly
      when its extension, lower-cased, is `.doc` or `.docx`. */
  predicate IsDocName(name: string) {
    Lower(SplitExt(name).1) in {".doc", ".docx"}
  }

  /** The extension of a separator-free name whose last dot sits `k`
      characters before its end. */
  lemma {:induction false} ExtensionOfSuffix(name: string, k: nat)
    requires NoSep(name) && 1 <= k <= |name|
    requires name[|name| - k] == '.' && forall j :: |name| - k < j < |name| ==> name[j] != '.'
    ensures SplitExt(name).1 == if AllDotsIn(name, 0, |name| - k) then [] else name[|name| - k..]
  {
    NameStartUnique(name, 0);
    LastDotUnique(name, |name| - k);
  }

  /** A name whose lower-cased last `k` characters are a dot and no other
      dot has those `k` characters as its extension, unless only dots
      precede them. */
  lemma {:induction false} LoweredSuffixIsExtension(name: string, k: nat, lowered: string)
    requires NoSep(name) && 1 <= k <= |name|
    requires Lower(name[|name| - k..]) == lowered && lowered[0] == '.' && '.' !in lowered[1..]
    ensures SplitExt(name).1 == if AllDotsIn(name, 0, |name| - k) then [] else name[|name| - k..]
  {
    var n := |name|;
    var t := name[n - k..];
    assert forall j :: n - k <= j < n ==> name[j] == t[j - (n - k)];
    assert forall i :: 1 <= i < k ==> lowered[i] == lowered[1..][i - 1];
    ExtensionOfSuffix(name, k);
  }

  /** The extension of a selected separator-free name is its last four or
      five characters, and something other than dots precedes it. */
  lemma {:induction false} SelectedNameExtension(name: string)
    requires NoSep(name) && IsDocName(name)
    ensures var k := |SplitExt(name).1|;
      && (k == 4 || k == 5) && k <= |name|
      && SplitExt(name).1 == name[|name| - k..]
      && !AllDotsIn(name, 0, |name| - k)
  {
    NameStartUnique(name, 0);
  }

  predicate EndsInDocExtension(name: string) {
    || (|name| >= 4 && Lower(name[|name| - 4..]) == ".doc" && !AllDotsIn(name, 0, |name| - 4))
    || (|name| >= 5 && Lower(name[|name| - 5..]) == ".docx" && !AllDotsIn(name, 0, |name| - 5))
  }

  lemma {:induction false} SelectedEndsInDocExtension(name: string)
    requires NoSep(name) && IsDocName(name)
    ensures EndsInDocExtension(name)
  {
    SelectedNameExtension(name);
  }

  lemma {:induction false} DocExtensionIsSelected(name: string)
    requires NoSep(name) && EndsInDocExtension(name)
    ensures IsDocName(name)
  {
    var n := |name|;
    if |name| >= 4 && Lower(name[n - 4..]) == ".doc" && !AllDotsIn(name, 0, n - 4) {
      LoweredSuffixIsExtension(name, 4, ".doc");
    } else {
      LoweredSuffixIsExtension(name, 5, ".docx");
    }
  }

  /** A directory entry name (no separators) is selected exactly when it
      ends in `.doc` or `.docx`, in any mix of upper and lower case, after
      a part that is not made only of dots. */
  lemma {:induction false} IsDocNameExactly(name: string)
    requires NoSep(name)
    ensures IsDocName(name) <==> EndsInDocExtension(name)
  {
    if IsDocName(name) {
      SelectedEndsInDocExtension(name);
    }
    if EndsInDocExtension(name) {
      DocExtensionIsSelected(name);
    }
  }

  /** `os.path.join(directory, name)` for a bare name: a separator is put
      between them unless the directory is empty or already ends in one. */
  function JoinPath(directory: string, name: string): (r: string)
    ensures |r| >= |directory| + |name|
  {
    if directory == [] || IsSep(directory[|directory| - 1]) then directory + name
    else directory + "\\" + name
  }

  /** One entry of `os.listdir(root)`, with what `os.path.isfile` says of it. */
  datatype Entry = Entry(name: string, isFile: bool)

  predicate SelectedEntry(e: Entry) {
    e.isFile && IsDocName(e.name)
  }

  /** The paths the non-recursive branch of `_iter_doc_files` collects, in
      listing order. */
  function TopLevelDocFiles(root: string, entries: seq<Entry>): seq<string>
    decreases |entries|
  {
    if entries == [] then []
    else
      var last := entries[|entries| - 1];
      TopLevelDocFiles(root, entries[..|entries| - 1])
        + (if SelectedEntry(last) then [JoinPath(root, last.name)] else [])
  }

  /** The selected paths are exactly the selected entries, joined to the root. */
  lemma {:induction false} TopLevelDocFilesMembers(root: string, entries: seq<Entry>, p: string)
    ensures p in TopLevelDocFiles(root, entries) <==>
      exists e :: e in entries && SelectedEntry(e) && p == JoinPath(root, e.name)
    decreases |entries|
  {
    if entries != [] {
      var init := entries[..|entries| - 1];
      assert entries == init + [entries[|entries| - 1]];
      TopLevelDocFilesMembers(root, init, p);
    }
  }

  /** The number of selected entries. */
  function CountSelected(entries: seq<Entry>): nat
    decreases |entries|
  {
    if entries == [] then 0
    else CountSelected(entries[..|entries| - 1]) + (if SelectedEntry(entries[|entries| - 1]) then 1 else 0)
  }

  /** One path per selected entry. */
  lemma {:induction false} TopLevelDocFilesCount(root: string, entries: seq<Entry>)
    ensures |TopLevelDocFiles(root, entries)| == CountSelected(entries)
    decreases |entries|
  {
    if entries != [] {
      TopLevelDocFilesCount(root, entries[..|entries| - 1]);
    }
  }

  /** The non-recursive branch of `_iter_doc_files`. */
  method ListDocFiles(root: string, entries: seq<Entry>) returns (results: seq<string>)
    ensures results == TopLevelDocFiles(root, entries)
  {
    results := [];
    var k := 0;
    while k < |entries|
      invariant 0 <= k <= |entries|
      invariant results == TopLevelDocFiles(root, entries[..k])
    {
      var e := entries[k];
      assert entries[..k + 1][..k] == entries[..k];
      if e.isFile && Lower(SplitExt(e.name).1) in {".doc", ".docx"} {
        results := results + [JoinPath(root, e.name)];
      }
      k := k + 1;
    }
    assert entries[..k] == entries;
  }

  /** A stem that can start a selected name: not empty, not starting with
      a dot, no separator. */
  predicate PlainStem(stem: string) {
    stem != [] && stem[0] != '.' && NoSep(stem)
  }

  /** A name made of a stem that does not start with a dot and an extension
      that lower-cases to `.doc` or `.docx` is selected. */
  lemma {:induction false} StemWithDocExtension(stem: string, ext: string)
    requires PlainStem(stem) && NoSep(ext)
    requires Lower(ext) == ".doc" || Lower(ext) == ".docx"
    ensures IsDocName(stem + ext)
  {
    var name := stem + ext;
    assert name[|name| - |ext|..] == ext;
    assert name[0] == stem[0];
    assert NoSep(name) by {
      assert forall i :: 0 <= i < |name| ==> name[i] == if i < |stem| then stem[i] else ext[i - |stem|];
    }
    DocExtensionIsSelected(name);
  }

  /** A name whose only dot is its first character, such as `.docx`, has
      no extension in the `splitext` sense, so it is not selected. */
  lemma LeadingDotNameNotSelected(rest: string)
    requires '.' !in rest && NoSep(rest)
    ensures SplitExt("." + rest).1 == [] && !IsDocName("." + rest)
  {
    var name := "." + rest;
    assert NoSep(name) by {
      assert forall i :: 1 <= i < |name| ==> name[i] == rest[i - 1];
    }
    assert forall j :: 0 < j < |name| ==> name[j] == rest[j - 1];
    ExtensionOfSuffix(name, |name|);
  }

  /** One step of `os.walk(root)`: a directory and the names of the files in it. */
  datatype WalkStep = WalkStep(dirpath: string, filenames: seq<string>)

  /** The paths selected among one directory's files. */
  function DocFilesIn(dirpath: string, names: seq<string>): seq<string>
    decreases |names|
  {
    if names == [] then []
    else
      var last := names[|names| - 1];
      DocFilesIn(dirpath, names[..|names| - 1])
        + (if IsDocName(last) then [JoinPath(dirpath, last)] else [])
  }

  /** The paths the recursive branch of `_iter_doc_files` collects, in walk order. */
  function WalkDocFiles(walk: seq<WalkStep>): seq<string>
    decreases |walk|
  {
    if walk == [] then []
    else
      var last := walk[|walk| - 1];
      WalkDocFiles(walk[..|walk| - 1]) + DocFilesIn(last.dirpath, last.filenames)
  }

  /** The selected paths are exactly the selected files of the walk, joined
      to their directory. */
  lemma {:induction false} DocFilesInMembers(dirpath: string, names: seq<string>, p: string)
    ensures p in DocFilesIn(dirpath, names) <==>
      exists name :: name in names && IsDocName(name) && p == JoinPath(dirpath, name)
    decreases |names|
  {
    if names != [] {
      var init := names[..|names| - 1];
      var last := names[|names| - 1];
      assert names == init + [last];
      DocFilesInMembers(dirpath, init, p);
    }
  }

  /** A path is collected by the walk exactly when it is collected in one
      of the walked directories (which `DocFilesInMembers` describes). */
  lemma {:induction false} WalkDocFilesMembers(walk: seq<WalkStep>, p: string)
    ensures p in WalkDocFiles(walk) <==>
      exists step :: step in walk && p in DocFilesIn(step.dirpath, step.filenames)
    decreases |walk|
  {
    if walk != [] {
      var init := walk[..|walk| - 1];
      assert walk == init + [walk[|walk| - 1]];
      WalkDocFilesMembers(init, p);
    }
  }

  /** A document that sits only in a subdirectory is not listed at the top
      level, where the subdirectory is an entry that is not a file, and is
      listed exactly once by the walk. */
  lemma SubdirectoryOnly(root: string, sub: string, subdir: string, stem: string)
    requires PlainStem(stem)
    ensures TopLevelDocFiles(root, [Entry(sub, false)]) == []
    ensures WalkDocFiles([WalkStep(root, []), WalkStep(subdir, [stem + ".docx"])])
         == [JoinPath(subdir, stem + ".docx")]
  {
    assert Lower(".docx") == ".docx" && NoSep(".docx");
    StemWithDocExtension(stem, ".docx");
    var walk := [WalkStep(root, []), WalkStep(subdir, [stem + ".docx"])];
    assert walk[..1] == [WalkStep(root, [])];
    assert walk[..1][..0] == [];
    assert [stem + ".docx"][..0] == [];
    assert DocFilesIn(root, []) == [];
    assert WalkDocFiles(walk[..1]) == [];
    assert DocFilesIn(subdir, [stem + ".docx"]) == [JoinPath(subdir, stem + ".docx")];
    assert [Entry(sub, false)][..0] == [];
  }

  /** The recursive branch of `_iter_doc_files`. */
  method WalkForDocFiles(walk: seq<WalkStep>) returns (results: seq<string>)
    ensures results == WalkDocFiles(walk)
  {
    results := [];
    var i := 0;
    while i < |walk|
      invariant 0 <= i <= |walk|
      invariant results == WalkDocFiles(walk[..i])
    {
      var step := walk[i];
      assert walk[..i + 1][..i] == walk[..i];
      var k := 0;
      ghost var before := results;
      while k < |step.filenames|
        invariant 0 <= k <= |step.filenames|
        invariant results == before + DocFilesIn(step.dirpath, step.filenames[..k])
      {
        var name := step.filenames[k];
        assert step.filenames[..k + 1][..k] == step.filenames[..k];
        if Lower(SplitExt(name).1) in {".doc", ".docx"} {
          results := results + [JoinPath(step.dirpath, name)];
        }
        k := k + 1;
      }
      assert step.filenames[..k] == step.filenames;
      i := i + 1;
    }
    assert walk[..i] == walk;
  }

  /** `_default_output_path` for an absolute input path: the input with its
      extension replaced by `.md`. */
  function DefaultOutputPath(input: string): (r: string)
    ensures |r| >= 3 && r[|r| - 3..] == ".md"
  {
    SplitExt(input).0 + ".md"
  }

  /** When the input's last component holds something other than dots, the
      output path splits back into the input's root and the extension `.md`. */
  lemma {:induction false} DefaultOutputPathSplits(input: string)
    requires !AllDotsIn(input, NameStart(input), |input|)
    ensures SplitExt(DefaultOutputPath(input)) == (SplitExt(input).0, ".md")
  {
    var root := SplitExt(input).0;
    var out := root + ".md";
    var s := NameStart(input);
    var e := ExtStart(input);
    assert |root| == e;
    // a character of the last component that is not a dot and stays in the root
    var j :| s <= j < |input| && input[j] != '.';
    if e < |input| {
      j :| s <= j < e && input[j] != '.';
    }
    assert forall i :: 0 <= i < e ==> out[i] == input[i];
    assert forall i :: e <= i < |out| ==> out[i] == ".md"[i - e];
    ExtensionAt(out, s, e, j);
    assert out[..e] == root;
    assert out[e..] == ".md";
  }

  /** A path whose last component starts at `s`, whose last dot is at `e`
      and which holds a character other than a dot between them has the
      extension that starts at `e`. */
  lemma ExtensionAt(p: string, s: nat, e: nat, j: nat)
    requires s <= j < e < |p| && p[j] != '.'
    requires (0 < s ==> IsSep(p[s - 1])) && NoSepFrom(p, s)
    requires p[e] == '.' && forall k :: e < k < |p| ==> p[k] != '.'
    ensures SplitExt(p) == (p[..e], p[e..])
  {
    NameStartUnique(p, s);
    LastDotUnique(p, e);
  }

  /** The name of the image directory beside the output file,
      `<output stem>_images`. */
  function ImageDirName(mdPath: string): (r: string)
    ensures NoSep(r)
    ensures |r| >= 7 && r[|r| - 7..] == "_images"
    ensures r[..|r| - 7] + SplitExt(Basename(mdPath)).1 == Basename(mdPath)
  {
    var base := Basename(mdPath);
    var stem := SplitExt(base).0;
    StemHasNoSep(base);
    SplitExtShape(base);
    assert (stem + "_images")[..|stem|] == stem;
    stem + "_images"
  }

  lemma {:induction false} StemHasNoSep(base: string)
    requires NoSep(base)
    ensures NoSep(SplitExt(base).0 + "_images")
  {
    var stem := SplitExt(base).0;
    var r := stem + "_images";
    assert base == stem + SplitExt(base).1;
    assert forall i :: 0 <= i < |stem| ==> r[i] == base[i];
    assert forall i :: |stem| <= i < |r| ==> r[i] == "_images"[i - |stem|];
  }

  /** `.replace("\\", "/")`, which `Text.ReplaceOneChar` shows to be a
      character-by-character map. */
  function ForwardSlashes(s: string): (r: string)
    ensures '\\' !in r
    ensures |r| == |s| && forall i :: 0 <= i < |s| && s[i] != '\\' ==> r[i] == s[i]
    ensures forall i :: 0 <= i < |s| && s[i] == '\\' ==> r[i] == '/'
  {
    MapChar(s, '\\', '/')
  }

  /** The reference to an image file, relative to the output file's
      directory, in which the image directory `imageDir` sits: the image
      directory and the file name, joined with '\\' and then turned into
      forward slashes. */
  function ImageReference(imageDir: string, fileName: string): string {
    ForwardSlashes(imageDir + "\\" + fileName)
  }

  /** For a backslash-free image directory and a file name without
      separators the reference reads `<image directory>/<file name>`. */
  lemma ImageReferenceShape(imageDir: string, fileName: string)
    requires '\\' !in imageDir && NoSep(fileName)
    ensures ImageReference(imageDir, fileName) == imageDir + "/" + fileName
  {
    var x := imageDir + "\\" + fileName;
    var r := ForwardSlashes(x);
    var y := imageDir + "/" + fileName;
    forall i | 0 <= i < |x| ensures r[i] == y[i] {
      if i < |imageDir| {
        assert x[i] == imageDir[i];
      } else if i > |imageDir| {
        assert x[i] == fileName[i - |imageDir| - 1];
        assert !IsSep(fileName[i - |imageDir| - 1]);
      }
    }
  }
}
