/** Setting up a session: the file cache, what the server asks for, and what the client uploads. */
module Session {
  import opened Common
  import opened Encodings
  import opened Packets

  type Hash = string

  /** A file as the client announces it. */
  datatype File = File(path: string, hash: Hash, size: int)

  predicate ValidHash(hash: Hash) {
    |hash| == 64 && forall i :: 0 <= i < |hash| ==> '0' <= hash[i] <= '9' || 'a' <= hash[i] <= 'f'
  }

  const ALPHABET := "0123456789abcdef"

  /** Bytes in lower-case hexadecimal. */
  function HexText(bs: Bytes): (r: string)
    ensures |r| == 2 * |bs|
  {
    if bs == [] then "" else [ALPHABET[bs[0] / 16], ALPHABET[bs[0] % 16]] + HexText(bs[1..])
  }

  predicate LowerHex(s: string) {
    forall i :: 0 <= i < |s| ==> '0' <= s[i] <= '9' || 'a' <= s[i] <= 'f'
  }

  lemma {:induction false} HexTextLower(bs: Bytes)
    ensures LowerHex(HexText(bs))
  {
    if bs != [] {
      HexTextLower(bs[1..]);
      var r := HexText(bs);
      assert forall k :: 2 <= k < |r| ==> r[k] == HexText(bs[1..])[k - 2];
    }
  }

  lemma {:induction false} DigitOf(c: char) returns (v: nat)
    requires '0' <= c <= '9' || 'a' <= c <= 'f'
    ensures v < 16 && ALPHABET[v] == c
  {
    v := if c <= '9' then c as int - '0' as int else c as int - 'a' as int + 10;
  }

  lemma {:induction false} LowerHexBytes(s: string) returns (bs: Bytes)
    requires LowerHex(s) && |s| % 2 == 0
    ensures HexText(bs) == s
  {
    if s == "" {
      bs := [];
    } else {
      var hi := DigitOf(s[0]);
      var lo := DigitOf(s[1]);
      var rest := LowerHexBytes(s[2..]);
      bs := [16 * hi + lo] + rest;
      assert bs[0] / 16 == hi && bs[0] % 16 == lo && bs[1..] == rest;
      assert s == [s[0], s[1]] + s[2..];
    }
  }

  /** The valid hashes are the texts of 32 bytes. */
  lemma {:induction false} ValidHashIff(hash: Hash)
    ensures ValidHash(hash) <==> exists bs :: |bs| == 32 && HexText(bs) == hash
  {
    if ValidHash(hash) {
      var bs := LowerHexBytes(hash);
      assert |bs| == 32;
    }
    if bs :| |bs| == 32 && HexText(bs) == hash {
      HexTextLower(bs);
    }
  }

  // ----- the cache -----

  type Files = map<Hash, Bytes>

  /** Every file in the cache has the hash it is stored under. */
  ghost predicate Sound(digest: Bytes -> Hash, files: Files) {
    forall h :: h in files ==> digest(files[h]) == h
  }

  predicate InCache(files: Files, hash: Hash, size: int) {
    hash in files && |files[hash]| == size
  }

  /** Saving up to size bytes of a stream: the cache, what is left of the stream, and
      whether it worked. */
  function Saved(digest: Bytes -> Hash, files: Files, hash: Hash, size: nat, stream: Bytes): (Files, Bytes, bool) {
    var n := Min(size, |stream|);
    var data, rest := stream[..n], stream[n..];
    if n != size || digest(data) != hash then (files, rest, false)
    else (files[hash := data], rest, true)
  }

  class Cache {
    var files: Files

    constructor ()
      ensures files == map[]
    {
      files := map[];
    }

    method Save(digest: Bytes -> Hash, hash: Hash, size: nat, stream: Bytes) returns (rest: Bytes, ok: bool)
      modifies this
      ensures (files, rest, ok) == Saved(digest, old(files), hash, size, stream)
    {
      var tmp := stream[..Min(size, |stream|)];
      rest := stream[|tmp|..];
      if |tmp| != size {
        return rest, false;
      }
      if digest(tmp) != hash {
        return rest, false;
      }
      files := files[hash := tmp];
      ok := true;
    }

    method CopyOut(hash: Hash) returns (data: Option<Bytes>)
      ensures data == if hash in files then Some(files[hash]) else None
    {
      data := if hash in files then Some(files[hash]) else None;
    }
  }

  // ----- the server -----

  predicate WellFormed(fs: seq<File>) {
    forall k :: 0 <= k < |fs| ==> ValidHash(fs[k].hash) && fs[k].size >= 0
  }

  /** The size announced for each hash; the last one counts. */
  function Sizes(fs: seq<File>): (m: map<Hash, int>)
    ensures forall k :: 0 <= k < |fs| ==> fs[k].hash in m
  {
    if fs == [] then map[] else Sizes(fs[..|fs| - 1])[fs[|fs| - 1].hash := fs[|fs| - 1].size]
  }

  /** The hashes to ask for, each once, in order. */
  function Needed(files: Files, fs: seq<File>): (need: seq<Hash>)
    ensures forall h :: h in need ==> h in Sizes(fs)
  {
    if fs == [] then []
    else
      var need, f := Needed(files, fs[..|fs| - 1]), fs[|fs| - 1];
      if f.hash in need || InCache(files, f.hash, f.size) then need else need + [f.hash]
  }

  function Wanted(sizes: map<Hash, int>, need: seq<Hash>): int
    requires forall h :: h in need ==> h in sizes
  {
    if need == [] then 0 else Wanted(sizes, need[..|need| - 1]) + sizes[need[|need| - 1]]
  }

  lemma {:induction false} SizesNatural(fs: seq<File>)
    requires WellFormed(fs)
    ensures forall h :: h in Sizes(fs) ==> Sizes(fs)[h] >= 0
  {
    if fs != [] {
      SizesNatural(fs[..|fs| - 1]);
    }
  }

  lemma {:induction false} NeededSized(files: Files, fs: seq<File>)
    ensures WellFormed(fs) ==> forall h :: h in Needed(files, fs) ==> h in Sizes(fs) && Sizes(fs)[h] >= 0
  {
    if WellFormed(fs) {
      SizesNatural(fs);
    }
  }

  /** The cache and the rest of the upload after saving the needed files in turn. */
  function SavedAll(digest: Bytes -> Hash, files: Files, sizes: map<Hash, int>, need: seq<Hash>, body: Bytes)
    : (Files, Bytes, bool)
    requires forall h :: h in need ==> h in sizes && sizes[h] >= 0
  {
    if need == [] then (files, body, true)
    else
      var h := need[|need| - 1];
      var (fs, rest, ok) := SavedAll(digest, files, sizes, need[..|need| - 1], body);
      if !ok then (fs, rest, false) else Saved(digest, fs, h, sizes[h], rest)
  }

  method CheckFiles(fs: seq<File>) returns (ok: bool, sizes: map<Hash, int>)
    ensures ok <==> WellFormed(fs)
    ensures ok ==> sizes == Sizes(fs)
  {
    sizes := map[];
    for k := 0 to |fs|
      invariant sizes == Sizes(fs[..k]) && WellFormed(fs[..k])
    {
      var f := fs[k];
      if !ValidHash(f.hash) || f.size < 0 {
        return false, sizes;
      }
      sizes := sizes[f.hash := f.size];
      assert fs[..k + 1][..k] == fs[..k];
    }
    assert fs[..|fs|] == fs;
    ok := true;
  }

  method FindNeeded(cache: Cache, fs: seq<File>) returns (need: seq<Hash>)
    ensures need == Needed(cache.files, fs)
  {
    need := [];
    var seen: set<Hash> := {};
    for k := 0 to |fs|
      invariant need == Needed(cache.files, fs[..k]) && forall h :: h in seen <==> h in need
    {
      assert fs[..k + 1][..k] == fs[..k];
      var f := fs[k];
      if f.hash !in seen && !InCache(cache.files, f.hash, f.size) {
        seen := seen + {f.hash};
        need := need + [f.hash];
      }
    }
    assert fs[..|fs|] == fs;
  }

  /** How many bytes are asked for. */
  method WantedSize(sizes: map<Hash, int>, need: seq<Hash>) returns (want: int)
    requires forall h :: h in need ==> h in sizes
    ensures want == Wanted(sizes, need)
  {
    want := 0;
    for k := 0 to |need|
      invariant want == Wanted(sizes, need[..k])
    {
      assert need[..k + 1][..k] == need[..k];
      want := want + sizes[need[k]];
    }
    assert need[..|need|] == need;
  }

  /** Saves the upload, which announced its size but may end early. */
  method SaveUpload(cache: Cache, digest: Bytes -> Hash, sizes: map<Hash, int>, need: seq<Hash>, size: nat, body: Bytes)
    returns (ok: bool)
    requires forall h :: h in need ==> h in sizes && sizes[h] >= 0
    modifies cache
    ensures var (fs, _, good) := SavedAll(digest, old(cache.files), sizes, need, body);
            && ok == (size == Wanted(sizes, need) && good)
            && cache.files == if size == Wanted(sizes, need) then fs else old(cache.files)
    ensures Sound(digest, old(cache.files)) ==> Sound(digest, cache.files)
  {
    var want := WantedSize(sizes, need);
    if size != want {
      return false;
    }
    var rest := body;
    for k := 0 to |need|
      invariant (cache.files, rest, true) == SavedAll(digest, old(cache.files), sizes, need[..k], body)
      invariant Sound(digest, old(cache.files)) ==> Sound(digest, cache.files)
    {
      assert need[..k + 1][..k] == need[..k];
      rest, ok := cache.Save(digest, need[k], sizes[need[k]], rest);
      if !ok {
        FailsFrom(digest, old(cache.files), sizes, need, body, k + 1);
        return false;
      }
    }
    assert need[..|need|] == need;
    ok := true;
  }

  lemma {:induction false} FailsFrom(digest: Bytes -> Hash, files: Files, sizes: map<Hash, int>, need: seq<Hash>,
                                     body: Bytes, k: nat)
    requires forall h :: h in need ==> h in sizes && sizes[h] >= 0
    requires k <= |need| && !SavedAll(digest, files, sizes, need[..k], body).2
    ensures !SavedAll(digest, files, sizes, need, body).2
    ensures SavedAll(digest, files, sizes, need, body).0 == SavedAll(digest, files, sizes, need[..k], body).0
  {
    if k < |need| {
      assert need[..|need| - 1][..k] == need[..k];
      FailsFrom(digest, files, sizes, need[..|need| - 1], body, k);
    } else {
      assert need[..k] == need;
    }
  }

  // ----- the client -----

  /** The last file announced with each hash. */
  function ByHash(fs: seq<File>): map<Hash, File> {
    if fs == [] then map[] else ByHash(fs[..|fs| - 1])[fs[|fs| - 1].hash := fs[|fs| - 1]]
  }

  /** What the client uploads: the files asked for, one after the other; None when it does
      not know one. */
  function Uploaded(disk: map<string, Bytes>, fs: seq<File>, need: seq<Hash>): Option<(int, Bytes)> {
    if need == [] then Some((0, []))
    else
      var u, h := Uploaded(disk, fs, need[..|need| - 1]), need[|need| - 1];
      if u.None? || h !in ByHash(fs) || ByHash(fs)[h].path !in disk then None
      else
        var f := ByHash(fs)[h];
        var data := disk[f.path];
        Some((u.value.0 + f.size, u.value.1 + data[..Min(if f.size < 0 then 0 else f.size, |data|)]))
  }

  /** The body of the upload; None when the client does not know a file, when the total does
      not fit a packet, or when the files do not have the sizes announced. */
  function Answer(disk: map<string, Bytes>, fs: seq<File>, need: seq<Hash>): Option<Bytes> {
    var u := Uploaded(disk, fs, need);
    if u.Some? && 0 <= u.value.0 < TWO_32 && |u.value.1| == u.value.0 then Some(u.value.1) else None
  }

  method AnswerNeed(disk: map<string, Bytes>, fs: seq<File>, need: seq<Hash>) returns (r: Option<Bytes>)
    ensures r == Answer(disk, fs, need)
  {
    var byHash: map<Hash, File> := map[];
    for k := 0 to |fs|
      invariant byHash == ByHash(fs[..k])
    {
      assert fs[..k + 1][..k] == fs[..k];
      byHash := byHash[fs[k].hash := fs[k]];
    }
    assert fs[..|fs|] == fs;
    var size, stream := 0, [];
    for k := 0 to |need|
      invariant Uploaded(disk, fs, need[..k]) == Some((size, stream))
    {
      assert need[..k + 1][..k] == need[..k];
      var h := need[k];
      if h !in byHash || byHash[h].path !in disk {
        NotUploaded(disk, fs, need, k + 1);
        return None;
      }
      var f := byHash[h];
      var data := disk[f.path];
      stream := stream + data[..Min(if f.size < 0 then 0 else f.size, |data|)];
      size := size + f.size;
    }
    assert need[..|need|] == need;
    if !(0 <= size < TWO_32) || |stream| != size {
      return None;
    }
    r := Some(stream);
  }

  lemma {:induction false} NotUploaded(disk: map<string, Bytes>, fs: seq<File>, need: seq<Hash>, k: nat)
    requires k <= |need| && Uploaded(disk, fs, need[..k]).None?
    ensures Uploaded(disk, fs, need).None?
  {
    if k < |need| {
      assert need[..|need| - 1][..k] == need[..k];
      NotUploaded(disk, fs, need[..|need| - 1], k);
    } else {
      assert need[..k] == need;
    }
  }

  // ----- what a session achieves -----

  /** Whatever is announced and uploaded, the cache stays sound. */
  lemma {:induction false} CacheStaysSound(digest: Bytes -> Hash, files: Files, sizes: map<Hash, int>,
                                           need: seq<Hash>, body: Bytes)
    requires Sound(digest, files) && forall h :: h in need ==> h in sizes && sizes[h] >= 0
    ensures Sound(digest, SavedAll(digest, files, sizes, need, body).0)
  {
    if need != [] {
      CacheStaysSound(digest, files, sizes, need[..|need| - 1], body);
    }
  }

  ghost predicate NoDuplicates<T>(s: seq<T>) {
    forall i, j :: 0 <= i < j < |s| ==> s[i] != s[j]
  }

  /** No hash is asked for twice, and exactly the missing ones are. */
  lemma {:induction false} NeededOnce(files: Files, fs: seq<File>)
    ensures NoDuplicates(Needed(files, fs))
    ensures forall h :: h in Needed(files, fs) <==>
              exists k :: 0 <= k < |fs| && fs[k].hash == h && !(h in files && |files[h]| == fs[k].size)
  {
    if fs != [] {
      var init, f := fs[..|fs| - 1], fs[|fs| - 1];
      NeededOnce(files, init);
      forall h ensures h in Needed(files, fs) <==>
                       exists k :: 0 <= k < |fs| && fs[k].hash == h && !(h in files && |files[h]| == fs[k].size) {
        if h in Needed(files, init) {
          var k :| 0 <= k < |init| && init[k].hash == h && !(h in files && |files[h]| == init[k].size);
          assert fs[k] == init[k];
        }
        if k :| 0 <= k < |fs| && fs[k].hash == h && !(h in files && |files[h]| == fs[k].size) {
          if k < |init| {
            assert init[k] == fs[k];
          }
        }
      }
    }
  }

  /** An upload is accepted only if every file asked for has come with the size announced. */
  lemma {:induction false} SavedSizes(digest: Bytes -> Hash, files: Files, sizes: map<Hash, int>, need: seq<Hash>,
                                      body: Bytes)
    requires forall h :: h in need ==> h in sizes && sizes[h] >= 0
    ensures var (after, _, ok) := SavedAll(digest, files, sizes, need, body);
            ok ==> forall h :: h in need ==> h in after && |after[h]| == sizes[h] && digest(after[h]) == h
  {
    if need != [] {
      var init := need[..|need| - 1];
      SavedSizes(digest, files, sizes, init, body);
      assert need == init + [need[|need| - 1]];
    }
  }

  /** An honest client announces what is on its disk. */
  ghost predicate Honest(digest: Bytes -> Hash, disk: map<string, Bytes>, fs: seq<File>) {
    forall k :: 0 <= k < |fs| ==> OnDisk(digest, disk, fs[k])
  }

  ghost predicate OnDisk(digest: Bytes -> Hash, disk: map<string, Bytes>, f: File) {
    f.path in disk && digest(disk[f.path]) == f.hash && |disk[f.path]| == f.size && ValidHash(f.hash)
  }

  ghost predicate NoCollisions(digest: Bytes -> Hash) {
    forall x, y :: digest(x) == digest(y) ==> x == y
  }

  lemma {:induction false} ByHashMeans(fs: seq<File>, h: Hash)
    ensures h in ByHash(fs) <==> h in Sizes(fs)
    ensures h in ByHash(fs) ==> ByHash(fs)[h] in fs && ByHash(fs)[h].hash == h && Sizes(fs)[h] == ByHash(fs)[h].size
  {
    if fs != [] {
      ByHashMeans(fs[..|fs| - 1], h);
      assert fs == fs[..|fs| - 1] + [fs[|fs| - 1]];
    }
  }

  /** Of several files announced with one hash the last one counts, on both sides. */
  lemma {:induction false} LastCounts(fs: seq<File>, k: nat)
    requires k < |fs| && forall j :: k < j < |fs| ==> fs[j].hash != fs[k].hash
    ensures fs[k].hash in ByHash(fs) && ByHash(fs)[fs[k].hash] == fs[k]
    ensures Sizes(fs)[fs[k].hash] == fs[k].size
  {
    if k < |fs| - 1 {
      var init := fs[..|fs| - 1];
      assert init[k] == fs[k] && forall j :: k < j < |init| ==> init[j] == fs[j];
      LastCounts(init, k);
    }
  }

  /** The client has announced a file with this hash, and can read it. */
  ghost predicate CanUpload(disk: map<string, Bytes>, fs: seq<File>, h: Hash) {
    h in ByHash(fs) && ByHash(fs)[h] in fs && ByHash(fs)[h].hash == h && ByHash(fs)[h].path in disk
  }

  /** What is uploaded for a hash: the announced file up to the announced size. */
  function PartOf(disk: map<string, Bytes>, f: File): Bytes {
    if f.path !in disk || f.size < 0 then [] else disk[f.path][..Min(f.size, |disk[f.path]|)]
  }

  ghost predicate AllUpload(disk: map<string, Bytes>, fs: seq<File>, need: seq<Hash>) {
    forall k :: 0 <= k < |need| ==> CanUpload(disk, fs, need[k])
  }

  ghost function PartsOf(disk: map<string, Bytes>, fs: seq<File>, need: seq<Hash>): (r: seq<Bytes>)
    requires AllUpload(disk, fs, need)
    ensures |r| == |need| && forall k :: 0 <= k < |need| ==> r[k] == PartOf(disk, ByHash(fs)[need[k]])
  {
    seq(|need|, k requires 0 <= k < |need| => PartOf(disk, ByHash(fs)[need[k]]))
  }

  lemma {:induction false} UploadedIff(disk: map<string, Bytes>, fs: seq<File>, need: seq<Hash>)
    ensures Uploaded(disk, fs, need).Some? <==> AllUpload(disk, fs, need)
  {
    if need != [] {
      var init, h := need[..|need| - 1], need[|need| - 1];
      UploadedIff(disk, fs, init);
      ByHashMeans(fs, h);
      assert need == init + [h];
      assert AllUpload(disk, fs, need) <==> AllUpload(disk, fs, init) && CanUpload(disk, fs, h);
    }
  }

  lemma {:induction false} UploadedParts(disk: map<string, Bytes>, fs: seq<File>, need: seq<Hash>)
    requires AllUpload(disk, fs, need)
    ensures Uploaded(disk, fs, need).Some? && Uploaded(disk, fs, need).value.1 == Flat(PartsOf(disk, fs, need))
  {
    if need != [] {
      var init, h := need[..|need| - 1], need[|need| - 1];
      UploadedIff(disk, fs, need);
      assert AllUpload(disk, fs, init) && CanUpload(disk, fs, need[|need| - 1]);
      UploadedParts(disk, fs, init);
      PartsPush(disk, fs, init, h, need);
    }
  }

  lemma {:induction false} PartsPush(disk: map<string, Bytes>, fs: seq<File>, init: seq<Hash>, h: Hash,
                                     need: seq<Hash>)
    requires AllUpload(disk, fs, init) && CanUpload(disk, fs, h) && AllUpload(disk, fs, need) && need == init + [h]
    ensures Flat(PartsOf(disk, fs, need)) == Flat(PartsOf(disk, fs, init)) + PartOf(disk, ByHash(fs)[h])
  {
    assert PartsOf(disk, fs, need) == PartsOf(disk, fs, init) + [PartOf(disk, ByHash(fs)[h])];
    FlatPush(PartsOf(disk, fs, init), PartOf(disk, ByHash(fs)[h]));
  }

  /** Whatever a server asks for, it gets announced files and nothing else, as far as they were
      announced; and a hash that was not announced, or whose file is gone, is refused. */
  lemma {:induction false} UploadsAnnounced(disk: map<string, Bytes>, fs: seq<File>, need: seq<Hash>)
    ensures Answer(disk, fs, need).Some? ==>
              AllUpload(disk, fs, need) && Answer(disk, fs, need).value == Flat(PartsOf(disk, fs, need))
              && |Answer(disk, fs, need).value| < TWO_32
  {
    UploadedIff(disk, fs, need);
    if AllUpload(disk, fs, need) {
      UploadedParts(disk, fs, need);
    }
  }

  /** The content the client has for a hash. */
  ghost predicate Holds(digest: Bytes -> Hash, disk: map<string, Bytes>, fs: seq<File>, h: Hash) {
    && h in ByHash(fs) && h in Sizes(fs) && ByHash(fs)[h].path in disk
    && digest(disk[ByHash(fs)[h].path]) == h
    && |disk[ByHash(fs)[h].path]| == Sizes(fs)[h] == ByHash(fs)[h].size
  }

  lemma {:induction false} HonestHolds(digest: Bytes -> Hash, disk: map<string, Bytes>, fs: seq<File>, h: Hash)
    requires Honest(digest, disk, fs) && h in Sizes(fs)
    ensures Holds(digest, disk, fs, h)
  {
    ByHashMeans(fs, h);
    var k :| 0 <= k < |fs| && fs[k] == ByHash(fs)[h];
    assert OnDisk(digest, disk, fs[k]);
  }

  /** Saving what is at the front of a stream. */
  lemma {:induction false} SavesFront(digest: Bytes -> Hash, files: Files, h: Hash, size: nat, data: Bytes, tail: Bytes)
    requires digest(data) == h && |data| == size
    ensures Saved(digest, files, h, size, data + tail) == (files[h := data], tail, true)
  {
    assert (data + tail)[..size] == data && (data + tail)[size..] == tail;
  }

  /** What the client has on disk for a hash. */
  function ContentOf(disk: map<string, Bytes>, fs: seq<File>, h: Hash): Bytes {
    if h in ByHash(fs) && ByHash(fs)[h].path in disk then disk[ByHash(fs)[h].path] else []
  }

  /** The sizes are known for all hashes asked for. */
  ghost predicate Sized(sizes: map<Hash, int>, need: seq<Hash>) {
    forall h :: h in need ==> h in sizes && sizes[h] >= 0
  }

  /** The files asked for are in the cache, and the others as they were. */
  ghost predicate Arrived(disk: map<string, Bytes>, fs: seq<File>, need: seq<Hash>, files: Files, after: Files) {
    && (forall h :: h in need ==> h in after && after[h] == ContentOf(disk, fs, h))
    && (forall h :: h !in need && h in files ==> h in after && after[h] == files[h])
  }

  /** Saving the files asked for from this stream works, and leaves tail. */
  ghost predicate Splits(digest: Bytes -> Hash, disk: map<string, Bytes>, files: Files, fs: seq<File>, need: seq<Hash>,
                         stream: Bytes, tail: Bytes)
    requires Sized(Sizes(fs), need)
  {
    var (after, rest, ok) := SavedAll(digest, files, Sizes(fs), need, stream);
    ok && rest == tail && Arrived(disk, fs, need, files, after)
  }

  /** The one upload splits exactly into the files asked for. */
  lemma {:induction false} UploadSplits(digest: Bytes -> Hash, disk: map<string, Bytes>, files: Files, fs: seq<File>,
                                        need: seq<Hash>, tail: Bytes)
    requires Sized(Sizes(fs), need) && forall h :: h in need ==> Holds(digest, disk, fs, h)
    ensures var u := Uploaded(disk, fs, need);
            && u.Some? && u.value.0 == |u.value.1| == Wanted(Sizes(fs), need)
            && Splits(digest, disk, files, fs, need, u.value.1 + tail, tail)
    ensures Answer(disk, fs, need).Some? <==> Wanted(Sizes(fs), need) < TWO_32
  {
    if need == [] {
      assert [] + tail == tail;
    } else {
      var init, h := need[..|need| - 1], need[|need| - 1];
      assert need == init + [h] && h in need && Holds(digest, disk, fs, h);
      var data := ContentOf(disk, fs, h);
      UploadSplits(digest, disk, files, fs, init, data + tail);
      var u := Uploaded(disk, fs, init).value;
      NextUpload(digest, disk, fs, need, u, data);
      assert u.1 + data + tail == u.1 + (data + tail);
      NextSplits(digest, disk, files, fs, need, u.1 + (data + tail), data, tail);
    }
  }

  lemma {:induction false} NextSplits(digest: Bytes -> Hash, disk: map<string, Bytes>, files: Files, fs: seq<File>,
                                      need: seq<Hash>, stream: Bytes, data: Bytes, tail: Bytes)
    requires need != [] && Sized(Sizes(fs), need) && Sized(Sizes(fs), need[..|need| - 1])
    requires Holds(digest, disk, fs, need[|need| - 1]) && data == ContentOf(disk, fs, need[|need| - 1])
    requires Splits(digest, disk, files, fs, need[..|need| - 1], stream, data + tail)
    ensures Splits(digest, disk, files, fs, need, stream, tail)
  {
    var init, h := need[..|need| - 1], need[|need| - 1];
    assert need == init + [h];
    var after := SavedAll(digest, files, Sizes(fs), init, stream).0;
    SavesFront(digest, after, h, |data|, data, tail);
    assert SavedAll(digest, files, Sizes(fs), need, stream) == (after[h := data], tail, true);
  }

  lemma {:induction false} NextUpload(digest: Bytes -> Hash, disk: map<string, Bytes>, fs: seq<File>, need: seq<Hash>,
                                      u: (int, Bytes), data: Bytes)
    requires need != [] && Uploaded(disk, fs, need[..|need| - 1]) == Some(u)
    requires Holds(digest, disk, fs, need[|need| - 1]) && data == ContentOf(disk, fs, need[|need| - 1])
    ensures Uploaded(disk, fs, need) == Some((u.0 + |data|, u.1 + data))
  {
    assert data[..|data|] == data;
  }

  /** What the cache has for every announced file is what the client has on disk. */
  ghost predicate OwnContents(disk: map<string, Bytes>, files: Files, fs: seq<File>) {
    forall k :: 0 <= k < |fs| ==>
      fs[k].hash in files && fs[k].path in disk && files[fs[k].hash] == disk[fs[k].path]
  }

  /** With an honest client and a sound cache, the upload of what is missing is refused
      exactly when it does not fit a packet, and otherwise it is accepted, splits exactly, and
      leaves every announced file in a sound cache. */
  lemma {:induction false} HonestUpload(digest: Bytes -> Hash, disk: map<string, Bytes>, files: Files, fs: seq<File>)
    requires Honest(digest, disk, fs) && NoCollisions(digest) && Sound(digest, files)
    ensures WellFormed(fs) && Sized(Sizes(fs), Needed(files, fs))
    ensures var need := Needed(files, fs);
            var body := Answer(disk, fs, need);
            && (body.Some? <==> Wanted(Sizes(fs), need) < TWO_32)
            && (body.Some? ==>
                  && |body.value| == Wanted(Sizes(fs), need)
                  && var (after, rest, ok) := SavedAll(digest, files, Sizes(fs), need, body.value);
                     ok && rest == [] && Sound(digest, after) && OwnContents(disk, after, fs))
  {
    var need := Needed(files, fs);
    NeededOnce(files, fs);
    forall h | h in need ensures Holds(digest, disk, fs, h) {
      HonestHolds(digest, disk, fs, h);
    }
    forall k | 0 <= k < |fs| ensures ValidHash(fs[k].hash) && fs[k].size >= 0 {
      assert OnDisk(digest, disk, fs[k]);
    }
    UploadSplits(digest, disk, files, fs, need, []);
    var u := Uploaded(disk, fs, need).value;
    assert u.1 + [] == u.1;
    var after := SavedAll(digest, files, Sizes(fs), need, u.1).0;
    CacheStaysSound(digest, files, Sizes(fs), need, u.1);
    forall k | 0 <= k < |fs|
      ensures fs[k].hash in after && fs[k].path in disk && after[fs[k].hash] == disk[fs[k].path]
    {
      OwnContent(digest, disk, files, after, fs, k);
    }
  }

  lemma {:induction false} OwnContent(digest: Bytes -> Hash, disk: map<string, Bytes>, files: Files, after: Files,
                                      fs: seq<File>, k: nat)
    requires Honest(digest, disk, fs) && NoCollisions(digest) && k < |fs|
    requires Sound(digest, after) && Sound(digest, files)
    requires Arrived(disk, fs, Needed(files, fs), files, after)
    ensures fs[k].hash in after && fs[k].path in disk && after[fs[k].hash] == disk[fs[k].path]
  {
    var f := fs[k];
    assert OnDisk(digest, disk, f);
    NeededOnce(files, fs);
    assert f.hash in after;
    assert digest(after[f.hash]) == digest(disk[f.path]);
  }
}
