/** The directory tree that a session's files are copied into. */
module Trees {
  import opened Common
  import opened Encodings
  import opened Session

  // ----- paths -----

  /** A path, as its components. */
  type Path = seq<string>

  function Split(s: string): (cs: Path)
    ensures cs != []
  {
    if s == "" then [""]
    else
      var cs := Split(s[..|s| - 1]);
      var last := cs[|cs| - 1];
      if s[|s| - 1] == '/' then cs + [""] else cs[..|cs| - 1] + [last + [s[|s| - 1]]]
  }

  function Cleaned(cs: Path): Path {
    if cs == [] then []
    else
      var c := cs[|cs| - 1];
      Cleaned(cs[..|cs| - 1]) + if c == "" || c == "." then [] else [c]
  }

  /** The client's absolute path, below the temporary directory. */
  function RemotePath(tmp: Path, slashPath: string): Option<Path> {
    var p := if |slashPath| >= 2 && slashPath[1] == ':' then slashPath[2..] else slashPath;
    if '\\' in p || ".." in Split(p) then None
    else Some(tmp + Cleaned(Split(p)))
  }

  lemma {:induction false} SplitPlain(s: string, c: string)
    requires c in Split(s)
    ensures '/' !in c && ('\\' !in s ==> '\\' !in c)
  {
    if s != "" {
      var cs := Split(s[..|s| - 1]);
      var last := cs[|cs| - 1];
      assert s == s[..|s| - 1] + [s[|s| - 1]];
      if c in cs {
        SplitPlain(s[..|s| - 1], c);
      } else if c == last + [s[|s| - 1]] {
        SplitPlain(s[..|s| - 1], last);
      } else {
        assert c == "";
      }
    }
  }

  lemma {:induction false} CleanedFrom(cs: Path, c: string)
    ensures c in Cleaned(cs) <==> c in cs && c != "" && c != "."
  {
    if cs != [] {
      CleanedFrom(cs[..|cs| - 1], c);
      assert cs == cs[..|cs| - 1] + [cs[|cs| - 1]];
    }
  }

  predicate PlainName(c: string) {
    c != "" && c != "." && c != ".." && '/' !in c && '\\' !in c
  }

  /** The result is below the temporary directory, whatever the client sends: no component
      leads up or is more than one name. */
  lemma {:induction false} RemotePathInside(tmp: Path, slashPath: string)
    ensures var r := RemotePath(tmp, slashPath);
            r.Some? ==> tmp <= r.value && forall c :: c in r.value[|tmp|..] ==> PlainName(c)
  {
    var p := if |slashPath| >= 2 && slashPath[1] == ':' then slashPath[2..] else slashPath;
    var r := RemotePath(tmp, slashPath);
    if r.Some? {
      assert r.value[|tmp|..] == Cleaned(Split(p));
      forall c | c in r.value[|tmp|..] ensures PlainName(c) {
        CleanedFrom(Split(p), c);
        SplitPlain(p, c);
      }
    }
  }

  // ----- what a path stands for -----

  /** The components with slashes between them. */
  function Joined(cs: Path): string
    requires cs != []
  {
    if |cs| == 1 then cs[0] else Joined(cs[..|cs| - 1]) + ['/'] + cs[|cs| - 1]
  }

  /** The components are what the slashes of the text separate. */
  lemma {:induction false} JoinedSplit(s: string)
    ensures Joined(Split(s)) == s
  {
    if s != "" {
      var init, c := s[..|s| - 1], s[|s| - 1];
      JoinedSplit(init);
      var cs := Split(init);
      var last := cs[|cs| - 1];
      if c == '/' {
        assert (cs + [""])[..|cs|] == cs;
      } else if |cs| > 1 {
        var ds := cs[..|cs| - 1];
        assert (ds + [last + [c]])[..|ds|] == ds;
        assert Joined(ds) + ['/'] + (last + [c]) == Joined(ds) + ['/'] + last + [c];
      }
      assert s == init + [c];
    }
  }

  lemma {:induction false} SplitOne(c: string)
    requires '/' !in c
    ensures Split(c) == [c]
  {
    if c != "" {
      SplitOne(c[..|c| - 1]);
      assert c == c[..|c| - 1] + [c[|c| - 1]];
    }
  }

  lemma {:induction false} SplitJoined(cs: Path)
    requires cs != [] && forall k :: 0 <= k < |cs| ==> '/' !in cs[k]
    ensures Split(Joined(cs)) == cs
  {
    var init, last := cs[..|cs| - 1], cs[|cs| - 1];
    if |cs| == 1 {
      SplitOne(last);
      assert cs == [last];
    } else {
      SplitJoined(init);
      SplitBelow(Joined(init), last);
      assert cs == init + [last];
    }
  }

  /** Empty components and dots are left out, and nothing else. */
  lemma {:induction false} CleanedAppend(a: Path, b: Path)
    ensures Cleaned(a + b) == Cleaned(a) + Cleaned(b)
  {
    if b == [] {
      assert a + b == a;
    } else {
      CleanedAppend(a, b[..|b| - 1]);
      assert (a + b)[..|a + b| - 1] == a + b[..|b| - 1];
    }
  }

  lemma {:induction false} CleanedOne(c: string)
    ensures Cleaned([c]) == if c == "" || c == "." then [] else [c]
  {
    assert [c][..0] == [];
  }

  lemma {:induction false} CleanedNames(names: Path)
    requires forall k :: 0 <= k < |names| ==> PlainName(names[k])
    ensures Cleaned(names) == names
  {
    if names != [] {
      CleanedNames(names[..|names| - 1]);
      assert names == names[..|names| - 1] + [names[|names| - 1]];
    }
  }

  /** The path /a/b/c of the names a, b, c. */
  function Slashed(names: Path): string {
    if names == [] then "" else Slashed(names[..|names| - 1]) + ['/'] + names[|names| - 1]
  }

  lemma {:induction false} SlashedJoined(first: string, names: Path)
    ensures first + Slashed(names) == Joined([first] + names)
  {
    var cs := [first] + names;
    if names == [] {
      assert first + "" == first;
    } else {
      var n := |names| - 1;
      SlashedJoined(first, names[..n]);
      assert cs[..|cs| - 1] == [first] + names[..n];
      assert first + (Slashed(names[..n]) + ['/'] + names[n]) == first + Slashed(names[..n]) + ['/'] + names[n];
    }
  }

  lemma {:induction false} SlashedPlain(first: string, names: Path)
    requires forall k :: 0 <= k < |names| ==> PlainName(names[k])
    ensures '\\' !in Slashed(names)
    ensures '/' !in first ==> Split(first + Slashed(names)) == [first] + names
  {
    if names != [] {
      SlashedPlain(first, names[..|names| - 1]);
    }
    SlashedJoined(first, names);
    if '/' !in first {
      SplitJoined([first] + names);
    }
  }

  lemma {:induction false} CleanedBehind(first: string, names: Path)
    requires forall k :: 0 <= k < |names| ==> PlainName(names[k])
    ensures Cleaned([first] + names) == (if first == "" || first == "." then [] else [first]) + names
  {
    CleanedAppend([first], names);
    CleanedOne(first);
    CleanedNames(names);
  }

  /** A file on a volume goes to its place below the temporary directory, name by name. */
  lemma {:induction false} RemotePathOnVolume(tmp: Path, v: char, names: Path)
    requires forall k :: 0 <= k < |names| ==> PlainName(names[k])
    ensures RemotePath(tmp, [v, ':'] + Slashed(names)) == Some(tmp + names)
  {
    SlashedPlain("", names);
    CleanedBehind("", names);
    assert "" + Slashed(names) == Slashed(names) && [] + names == names;
    OnVolume(tmp, v, Slashed(names));
  }

  lemma {:induction false} SlashedAppend(a: Path, b: Path)
    ensures Slashed(a + b) == Slashed(a) + Slashed(b)
  {
    if b == [] {
      assert a + b == a;
    } else {
      var n := |b| - 1;
      SlashedAppend(a, b[..n]);
      assert (a + b)[..|a + b| - 1] == a + b[..n];
      assert Slashed(a) + Slashed(b[..n]) + ['/'] + b[n] == Slashed(a) + (Slashed(b[..n]) + ['/'] + b[n]);
    }
  }

  lemma {:induction false} SlashedFirst(names: Path)
    requires names != []
    ensures Slashed(names) == ['/'] + names[0] + Slashed(names[1..])
  {
    var first := [names[0]];
    assert names == first + names[1..] && first[..0] == [];
    SlashedAppend(first, names[1..]);
    assert "" + ['/'] + names[0] == ['/'] + names[0];
  }

  /** The slash and the colon at the front are taken for a volume. */
  predicate ColonFirst(names: Path) {
    |names| > 0 && |names[0]| > 0 && names[0][0] == ':'
  }

  lemma {:induction false} LikeVolume(names: Path)
    requires |names| > 0 ==> |names[0]| > 0
    ensures |Slashed(names)| >= 2 && Slashed(names)[1] == ':' <==> ColonFirst(names)
    ensures ColonFirst(names) ==> Slashed(names)[2..] == names[0][1..] + Slashed(names[1..])
  {
    if names != [] {
      SlashedFirst(names);
      var s := ['/'] + names[0] + Slashed(names[1..]);
      assert s[1] == names[0][0];
      assert s[2..] == names[0][1..] + Slashed(names[1..]);
    }
  }

  /** A path without a volume keeps its names too exactly when the first does not start with a
      colon. */
  lemma {:induction false} RemotePathKeeps(tmp: Path, names: Path)
    requires forall k :: 0 <= k < |names| ==> PlainName(names[k])
    ensures RemotePath(tmp, Slashed(names)) == Some(tmp + names) <==> !ColonFirst(names)
  {
    LikeVolume(names);
    if ColonFirst(names) {
      ColonLost(tmp, names);
    } else {
      SlashedPlain("", names);
      assert "" + Slashed(names) == Slashed(names);
      StraightPath(tmp, Slashed(names), names);
    }
  }

  lemma {:induction false} StraightPath(tmp: Path, p: string, names: Path)
    requires !(|p| >= 2 && p[1] == ':') && '\\' !in p && Split(p) == [""] + names
    requires forall k :: 0 <= k < |names| ==> PlainName(names[k])
    ensures RemotePath(tmp, p) == Some(tmp + names)
  {
    CleanedBehind("", names);
    assert [] + names == names;
  }

  lemma {:induction false} ColonLost(tmp: Path, names: Path)
    requires ColonFirst(names) && forall k :: 0 <= k < |names| ==> PlainName(names[k])
    ensures RemotePath(tmp, Slashed(names)) != Some(tmp + names)
  {
    var first, rest := names[0][1..], names[1..];
    LikeVolume(names);
    SlashedPlain(first, rest);
    CleanedBehind(first, rest);
    FirstShorter(first, rest, names);
    var cs := Cleaned([first] + rest);
    assert (tmp + cs)[|tmp|..] == cs && (tmp + names)[|tmp|..] == names;
  }

  lemma {:induction false} FirstShorter(first: string, rest: Path, names: Path)
    requires |names| > 0 && rest == names[1..] && |first| < |names[0]|
    ensures (if first == "" || first == "." then [] else [first]) + rest != names
  {
    var cs := (if first == "" || first == "." then [] else [first]) + rest;
    if |cs| == |names| {
      assert cs[0] == first;
    }
  }

  // ----- the files of the cache -----

  /** Where the cache keeps the content with a hash: in a directory of those that start alike. */
  function CacheFile(dir: Path, hash: Hash): Path
    requires |hash| >= 2
  {
    dir + [hash[..2], hash]
  }

  /** The files of valid hashes are inside the cache, one for each hash, none below another, and
      none is a temporary file. */
  lemma {:induction false} CacheFilesApart(dir: Path, g: Hash, h: Hash, random: string)
    requires ValidHash(g) && ValidHash(h)
    ensures PlainName(g[..2]) && PlainName(g) && !ValidHash("tmp-" + random)
    ensures CacheFile(dir, g) <= CacheFile(dir, h) ==> g == h
  {
    assert ("tmp-" + random)[0] == 't';
    assert forall c :: c in g ==> '0' <= c <= '9' || 'a' <= c <= 'f';
    assert g[..2][0] == g[0] && forall c :: c in g[..2] ==> c in g;
    var a, b := CacheFile(dir, g), CacheFile(dir, h);
    assert |a| == |b| && a[|a| - 1] == g && b[|b| - 1] == h;
    assert a <= b ==> a == b;
  }

  // ----- placing files -----

  /** The files in the temporary directory; the directories are those the files need. */
  type Tree = map<Path, Bytes>

  /** A file can be created: its name is below the temporary directory, none of its
      directories is a file, and it is not itself the directory of a file. */
  predicate Free(tmp: Path, t: Tree, dst: Path) {
    |dst| > |tmp| && forall p :: p in t ==> !(p < dst) && !(dst < p)
  }

  /** The tree of files; None when a path is invalid, a file is missing or cannot be created. */
  function Placed(tmp: Path, files: Files, fs: seq<File>): Option<Tree> {
    if fs == [] then Some(map[])
    else
      var t, f := Placed(tmp, files, fs[..|fs| - 1]), fs[|fs| - 1];
      var dst := RemotePath(tmp, f.path);
      if t.None? || dst.None? || f.hash !in files || !Free(tmp, t.value, dst.value) then None
      else Some(t.value[dst.value := files[f.hash]])
  }

  /** The working directory can be created: neither it nor a directory above it is a file. */
  predicate DirFree(t: Tree, dir: Path) {
    forall p :: p in t ==> !(p <= dir)
  }

  /** Creates the file, truncating one that is there. */
  method CreateFile(tmp: Path, t: Tree, dst: Path, data: Bytes) returns (r: Option<Tree>)
    ensures r == if Free(tmp, t, dst) then Some(t[dst := data]) else None
  {
    if exists p :: p in t && p < dst {
      return None;
    }
    if |dst| <= |tmp| || exists p :: p in t && dst < p {
      return None;
    }
    r := Some(t[dst := data]);
  }

  method PlaceFiles(cache: Cache, tmp: Path, fs: seq<File>) returns (tree: Option<Tree>)
    ensures tree == Placed(tmp, cache.files, fs)
  {
    var t: Tree := map[];
    for k := 0 to |fs|
      invariant Placed(tmp, cache.files, fs[..k]) == Some(t)
    {
      assert fs[..k + 1][..k] == fs[..k];
      var dst := RemotePath(tmp, fs[k].path);
      if dst.None? {
        NotPlaced(tmp, cache.files, fs, k + 1);
        return None;
      }
      var data := cache.CopyOut(fs[k].hash);
      if data.None? {
        NotPlaced(tmp, cache.files, fs, k + 1);
        return None;
      }
      var made := CreateFile(tmp, t, dst.value, data.value);
      if made.None? {
        NotPlaced(tmp, cache.files, fs, k + 1);
        return None;
      }
      t := made.value;
    }
    assert fs[..|fs|] == fs;
    tree := Some(t);
  }

  lemma {:induction false} NotPlaced(tmp: Path, files: Files, fs: seq<File>, k: nat)
    requires k <= |fs| && Placed(tmp, files, fs[..k]).None?
    ensures Placed(tmp, files, fs).None?
  {
    if k < |fs| {
      assert fs[..|fs| - 1][..k] == fs[..k];
      NotPlaced(tmp, files, fs[..|fs| - 1], k);
    } else {
      assert fs[..k] == fs;
    }
  }

  // ----- when placing works, and what it yields -----

  /** Creating files at these paths with these contents, in turn. */
  ghost function Laid<T>(root: nat, dst: seq<seq<T>>, contents: seq<Bytes>): Option<map<seq<T>, Bytes>>
    requires |dst| == |contents|
  {
    if dst == [] then Some(map[])
    else
      var n := |dst| - 1;
      var t := Laid(root, dst[..n], contents[..n]);
      if t.None? || |dst[n]| <= root || (exists p :: p in t.value && (p < dst[n] || dst[n] < p)) then None
      else Some(t.value[dst[n] := contents[n]])
  }

  /** No path lies below another. */
  ghost predicate NoneBelow<T>(dst: seq<seq<T>>) {
    forall i, j :: 0 <= i < |dst| && 0 <= j < |dst| ==> !(dst[i] < dst[j])
  }

  ghost predicate AllBelow<T>(root: nat, dst: seq<seq<T>>) {
    forall k :: 0 <= k < |dst| ==> |dst[k]| > root
  }

  /** The files are those at the paths, and each has the content given for it last. */
  ghost predicate Shows<T>(dst: seq<T>, contents: seq<Bytes>, t: map<T, Bytes>)
    requires |dst| == |contents|
  {
    SameKeys(dst, t) && forall k :: 0 <= k < |dst| ==> LastHolds(dst, contents, t, k)
  }

  ghost predicate SameKeys<T>(dst: seq<T>, t: map<T, Bytes>) {
    (forall p :: p in t ==> p in dst) && (forall p :: p in dst ==> p in t)
  }

  /** If the path is not given again later, it has the content given with it. */
  ghost predicate LastHolds<T>(dst: seq<T>, contents: seq<Bytes>, t: map<T, Bytes>, k: nat)
    requires |dst| == |contents| && k < |dst|
  {
    dst[k] !in dst[k + 1..] ==> dst[k] in t && t[dst[k]] == contents[k]
  }

  lemma {:induction false} LastShows<T>(dst: seq<T>, contents: seq<Bytes>, t: map<T, Bytes>)
    requires |dst| == |contents| > 0
    requires Shows(dst[..|dst| - 1], contents[..|dst| - 1], t)
    ensures Shows(dst, contents, t[dst[|dst| - 1] := contents[|dst| - 1]])
  {
    var n := |dst| - 1;
    var t' := t[dst[n] := contents[n]];
    KeysPush(dst, t, contents[n]);
    forall k | 0 <= k < n ensures LastHolds(dst, contents, t', k) {
      EarlierHolds(dst, contents, t, k);
    }
  }

  lemma {:induction false} KeysPush<T>(dst: seq<T>, t: map<T, Bytes>, data: Bytes)
    requires dst != [] && SameKeys(dst[..|dst| - 1], t)
    ensures SameKeys(dst, t[dst[|dst| - 1] := data])
  {
    assert dst == dst[..|dst| - 1] + [dst[|dst| - 1]];
  }

  lemma {:induction false} EarlierHolds<T>(dst: seq<T>, contents: seq<Bytes>, t: map<T, Bytes>, k: nat)
    requires |dst| == |contents| && k < |dst| - 1
    requires LastHolds(dst[..|dst| - 1], contents[..|dst| - 1], t, k)
    ensures LastHolds(dst, contents, t[dst[|dst| - 1] := contents[|dst| - 1]], k)
  {
    if dst[k] !in dst[k + 1..] {
      LastOccurrence(dst, k);
    }
  }

  lemma {:induction false} LastOccurrence<T>(dst: seq<T>, k: nat)
    requires k < |dst| - 1 && dst[k] !in dst[k + 1..]
    ensures dst[k] != dst[|dst| - 1] && dst[..|dst| - 1][k] !in dst[..|dst| - 1][k + 1..]
  {
    var n := |dst| - 1;
    assert dst[n] == dst[k + 1..][n - k - 1];
    assert dst[..n][k + 1..] == dst[k + 1..][..n - k - 1];
  }

  lemma {:induction false} NoneBelowPush<T>(dst: seq<seq<T>>)
    requires dst != []
    ensures var init, last := dst[..|dst| - 1], dst[|dst| - 1];
            NoneBelow(dst) <==> NoneBelow(init) && forall p :: p in init ==> !(p < last) && !(last < p)
  {
    var init, last := dst[..|dst| - 1], dst[|dst| - 1];
    assert dst == init + [last];
    if NoneBelow(init) && forall p :: p in init ==> !(p < last) && !(last < p) {
      forall i, j | 0 <= i < |dst| && 0 <= j < |dst| ensures !(dst[i] < dst[j]) {
        assert i < |init| ==> dst[i] == init[i] && dst[i] in init;
        assert j < |init| ==> dst[j] == init[j] && dst[j] in init;
      }
    }
    if NoneBelow(dst) {
      forall i, j | 0 <= i < |init| && 0 <= j < |init| ensures !(init[i] < init[j]) {
        assert dst[i] == init[i] && dst[j] == init[j];
      }
    }
  }

  /** The last path is below the root, and neither below another nor above one. */
  ghost predicate LastFits<T>(root: nat, dst: seq<seq<T>>)
    requires dst != []
  {
    var init, last := dst[..|dst| - 1], dst[|dst| - 1];
    |last| > root && forall p :: p in init ==> !(p < last) && !(last < p)
  }

  lemma {:induction false} LaidPush<T>(root: nat, dst: seq<seq<T>>, contents: seq<Bytes>)
    requires |dst| == |contents| > 0
    requires var t := Laid(root, dst[..|dst| - 1], contents[..|dst| - 1]);
             t.Some? ==> Shows(dst[..|dst| - 1], contents[..|dst| - 1], t.value)
    ensures var t, n := Laid(root, dst[..|dst| - 1], contents[..|dst| - 1]), |dst| - 1;
            Laid(root, dst, contents) ==
            if t.Some? && LastFits(root, dst) then Some(t.value[dst[n] := contents[n]]) else None
  {
  }

  lemma {:induction false} FitsPush<T>(root: nat, dst: seq<seq<T>>)
    requires dst != []
    ensures var init := dst[..|dst| - 1];
            AllBelow(root, dst) && NoneBelow(dst) <==> AllBelow(root, init) && NoneBelow(init) && LastFits(root, dst)
  {
    var init := dst[..|dst| - 1];
    NoneBelowPush(dst);
    assert forall k :: 0 <= k < |init| ==> dst[k] == init[k];
  }

  /** Creating the files works exactly when every path is below the root and none is below
      another; then each path holds the content given for it last, and there is nothing else. */
  lemma {:induction false} LaidIff<T>(root: nat, dst: seq<seq<T>>, contents: seq<Bytes>)
    requires |dst| == |contents|
    ensures Laid(root, dst, contents).Some? <==> AllBelow(root, dst) && NoneBelow(dst)
    ensures Laid(root, dst, contents).Some? ==> Shows(dst, contents, Laid(root, dst, contents).value)
  {
    if dst != [] {
      var n := |dst| - 1;
      LaidIff(root, dst[..n], contents[..n]);
      LaidPush(root, dst, contents);
      FitsPush(root, dst);
      var t := Laid(root, dst[..n], contents[..n]);
      if t.Some? {
        LastShows(dst, contents, t.value);
      }
    }
  }

  // ----- when the announced files can be placed -----

  /** The file announced as f goes to p and has this content. */
  ghost predicate Goes(tmp: Path, files: Files, f: File, p: Path, data: Bytes) {
    RemotePath(tmp, f.path) == Some(p) && f.hash in files && files[f.hash] == data
  }

  ghost predicate AllGo(tmp: Path, files: Files, fs: seq<File>, dst: seq<Path>, contents: seq<Bytes>) {
    && |dst| == |contents| == |fs|
    && forall k :: 0 <= k < |fs| ==> Goes(tmp, files, fs[k], dst[k], contents[k])
  }

  lemma {:induction false} PlacedIsLaid(tmp: Path, files: Files, fs: seq<File>, dst: seq<Path>, contents: seq<Bytes>)
    requires AllGo(tmp, files, fs, dst, contents)
    ensures Placed(tmp, files, fs) == Laid(|tmp|, dst, contents)
  {
    if fs != [] {
      var n := |fs| - 1;
      PlacedIsLaid(tmp, files, fs[..n], dst[..n], contents[..n]);
      LastPlaced(tmp, files, fs, dst[n], contents[n]);
    }
  }

  lemma {:induction false} LastPlaced(tmp: Path, files: Files, fs: seq<File>, p: Path, data: Bytes)
    requires fs != [] && Goes(tmp, files, fs[|fs| - 1], p, data)
    ensures var t := Placed(tmp, files, fs[..|fs| - 1]);
            Placed(tmp, files, fs) == if t.None? || !Free(tmp, t.value, p) then None else Some(t.value[p := data])
  {
  }

  /** Every file is in the cache and has a valid path. */
  ghost predicate Known(tmp: Path, files: Files, fs: seq<File>) {
    forall k :: 0 <= k < |fs| ==> RemotePath(tmp, fs[k].path).Some? && fs[k].hash in files
  }

  lemma {:induction false} PlacedKnown(tmp: Path, files: Files, fs: seq<File>)
    requires Placed(tmp, files, fs).Some?
    ensures Known(tmp, files, fs)
  {
    if fs != [] {
      PlacedKnown(tmp, files, fs[..|fs| - 1]);
      KnownPush(tmp, files, fs);
    }
  }

  lemma {:induction false} KnownPush(tmp: Path, files: Files, fs: seq<File>)
    requires fs != [] && Known(tmp, files, fs[..|fs| - 1])
    requires RemotePath(tmp, fs[|fs| - 1].path).Some? && fs[|fs| - 1].hash in files
    ensures Known(tmp, files, fs)
  {
    assert forall k :: 0 <= k < |fs| - 1 ==> fs[..|fs| - 1][k] == fs[k];
  }

  /** Where the files go. */
  ghost function Destinations(tmp: Path, fs: seq<File>): (dst: seq<Path>)
    requires forall k :: 0 <= k < |fs| ==> RemotePath(tmp, fs[k].path).Some?
    ensures |dst| == |fs| && forall k :: 0 <= k < |fs| ==> dst[k] == RemotePath(tmp, fs[k].path).value
  {
    seq(|fs|, k requires 0 <= k < |fs| => RemotePath(tmp, fs[k].path).value)
  }

  /** Every path is valid and below the temporary directory, and none is below another. */
  ghost predicate PathsFit(tmp: Path, fs: seq<File>) {
    && (forall k :: 0 <= k < |fs| ==> RemotePath(tmp, fs[k].path).Some?)
    && AllBelow(|tmp|, Destinations(tmp, fs)) && NoneBelow(Destinations(tmp, fs))
  }

  ghost function Contents(files: Files, fs: seq<File>): (contents: seq<Bytes>)
    requires forall k :: 0 <= k < |fs| ==> fs[k].hash in files
    ensures |contents| == |fs| && forall k :: 0 <= k < |fs| ==> contents[k] == files[fs[k].hash]
  {
    seq(|fs|, k requires 0 <= k < |fs| => files[fs[k].hash])
  }

  /** The files can be placed exactly when all are in the cache and their paths fit; then each
      path holds the file announced for it last, and there is nothing else. */
  lemma {:induction false} PlacedIff(tmp: Path, files: Files, fs: seq<File>)
    ensures Placed(tmp, files, fs).Some? <==> Known(tmp, files, fs) && PathsFit(tmp, fs)
    ensures Placed(tmp, files, fs).Some? ==>
              Known(tmp, files, fs) && Shows(Destinations(tmp, fs), Contents(files, fs), Placed(tmp, files, fs).value)
  {
    if Placed(tmp, files, fs).Some? {
      PlacedKnown(tmp, files, fs);
    }
    if Known(tmp, files, fs) {
      var dst, contents := Destinations(tmp, fs), Contents(files, fs);
      assert forall k :: 0 <= k < |fs| ==> Goes(tmp, files, fs[k], dst[k], contents[k]);
      PlacedIsLaid(tmp, files, fs, dst, contents);
      LaidIff(|tmp|, dst, contents);
    }
  }

  lemma {:induction false} SplitPush(s: string, c: char)
    ensures var cs := Split(s);
            Split(s + [c]) == if c == '/' then cs + [""] else cs[..|cs| - 1] + [cs[|cs| - 1] + [c]]
  {
    assert (s + [c])[..|s|] == s;
  }

  /** A name behind a path is one more component. */
  lemma {:induction false} SplitBelow(p: string, q: string)
    requires '/' !in q
    ensures Split(p + ['/'] + q) == Split(p) + [q]
  {
    if |q| == 0 {
      SplitPush(p, '/');
      assert p + ['/'] + q == p + ['/'];
    } else {
      var init, c, cs := q[..|q| - 1], q[|q| - 1], Split(p);
      SplitBelow(p, init);
      SplitPush(p + ['/'] + init, c);
      assert p + ['/'] + q == p + ['/'] + init + [c] && init + [c] == q;
      assert (cs + [init])[..|cs|] == cs;
    }
  }

  lemma {:induction false} CleanedBelow(cs: Path, q: string)
    requires PlainName(q)
    ensures Cleaned(cs + [q]) == Cleaned(cs) + [q]
  {
    assert (cs + [q])[..|cs|] == cs;
  }

  lemma {:induction false} OnVolume(tmp: Path, v: char, p: string)
    requires '\\' !in p && ".." !in Split(p)
    ensures RemotePath(tmp, [v, ':'] + p) == Some(tmp + Cleaned(Split(p)))
  {
    assert ([v, ':'] + p)[2..] == p;
  }

  /** Two volumes are one tree for the server: of a file v:p and a file w:p/q, which a client
      can have both when v and w differ, the second lies below the first. */
  lemma {:induction false} TwoVolumes(tmp: Path, v: char, w: char, p: string, q: string, f: File, g: File)
    requires '\\' !in p && ".." !in Split(p) && PlainName(q)
    requires f.path == [v, ':'] + p && g.path == [w, ':'] + (p + ['/'] + q)
    ensures !PathsFit(tmp, [f, g])
  {
    SplitBelow(p, q);
    CleanedBelow(Split(p), q);
    NameHarmless(p, q);
    OnVolume(tmp, v, p);
    OnVolume(tmp, w, p + ['/'] + q);
    Onwards(tmp, Cleaned(Split(p)), q);
    OneBelow(tmp, f, g, tmp + Cleaned(Split(p)), q);
  }

  lemma {:induction false} Onwards(a: Path, b: Path, q: string)
    ensures a + (b + [q]) == a + b + [q]
  {
  }

  lemma {:induction false} NameHarmless(p: string, q: string)
    requires '\\' !in p && ".." !in Split(p) && PlainName(q) && Split(p + ['/'] + q) == Split(p) + [q]
    ensures '\\' !in p + ['/'] + q && ".." !in Split(p + ['/'] + q)
  {
  }

  lemma {:induction false} OneBelow(tmp: Path, f: File, g: File, root: Path, q: string)
    requires RemotePath(tmp, f.path) == Some(root) && RemotePath(tmp, g.path) == Some(root + [q])
    ensures !PathsFit(tmp, [f, g])
  {
    var dst := Destinations(tmp, [f, g]);
    assert dst[0] == root && dst[1] == root + [q];
    assert !NoneBelow(dst) by {
      assert dst[0] < dst[1];
    }
  }
}
