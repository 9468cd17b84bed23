/** The two programs of a session, exchanging packets until the command starts. */
module Serve {
  import opened Common
  import opened Encodings
  import opened Packets
  import opened Session
  import opened Trees

  // ----- messages -----

  datatype Request = Request(kind: string, files: seq<File>, args: seq<string>, dir: string)
  datatype Response = Response(kind: string, need: seq<Hash>, error: string)

  /** The JSON encoding of messages. */
  datatype Json = Json(encReq: Request -> Bytes, decReq: Bytes -> Option<Request>,
                       encResp: Response -> Bytes, decResp: Bytes -> Option<Response>)

  const NO_REQUEST := Request("", [], [], "")
  const NO_RESPONSE := Response("", [], "")
  const UPLOAD := Request("Upload", [], [], "")
  const START := Request("Start", [], [], "")
  const READY := Response("Ready", [], "")
  const FAILED := Response("Exit", [], "failed")

  function SetupOf(fs: seq<File>, args: seq<string>, dir: string): Request {
    Request("Setup", fs, args, dir)
  }

  function NeedOf(need: seq<Hash>): Response {
    Response("Need", need, "")
  }

  /** What is encoded is decoded, and the messages of fixed content are small. */
  ghost predicate JsonLaws(json: Json) {
    && (forall r :: json.decReq(json.encReq(r)) == Some(r) && json.encReq(r) != [])
    && (forall r :: json.decResp(json.encResp(r)) == Some(r) && json.encResp(r) != [])
    && |json.encReq(UPLOAD)| <= MAX_JSON && |json.encReq(START)| <= MAX_JSON
    && |json.encResp(READY)| <= MAX_JSON && |json.encResp(FAILED)| <= MAX_JSON
  }

  function Ask(json: Json, r: Request, data: Bytes): Packet {
    Packet(json.encReq(r), data)
  }

  function Reply(json: Json, r: Response): Packet {
    Packet(json.encResp(r), [])
  }

  /** A packet without JSON leaves the message empty. */
  function ReadRequest(json: Json, p: Packet): Option<Request> {
    if |p.js| > MAX_JSON then None else if p.js == [] then Some(NO_REQUEST) else json.decReq(p.js)
  }

  /** A response with an error in it is an error. */
  function ReadResponse(json: Json, p: Packet): Option<Response> {
    if |p.js| > MAX_JSON then None
    else
      var r := if p.js == [] then Some(NO_RESPONSE) else json.decResp(p.js);
      if r.Some? && r.value.error != "" then None else r
  }

  // ----- the server -----

  /** What the server has sent, its cache, and whether it waits for another packet, has given
      up, or has started the command. */
  datatype Served = Awaiting | Failed | Launched(tree: Tree, dir: Path)
  datatype ServerRun = ServerRun(sent: seq<Packet>, files: Files, result: Served)

  function Fail(json: Json, sent: seq<Packet>, files: Files): ServerRun {
    ServerRun(sent + [Reply(json, FAILED)], files, Failed)
  }

  /** What the server does with the packets it is sent. */
  function Server(json: Json, digest: Bytes -> Hash, files: Files, tmp: Path, inbox: seq<Packet>): ServerRun {
    if inbox == [] then ServerRun([], files, Awaiting)
    else
      var req := ReadRequest(json, inbox[0]);
      if req.None? then ServerRun([], files, Failed)
      else if req.value.kind != "Setup" || req.value.args == [] || !WellFormed(req.value.files)
          then Fail(json, [], files)
      else if Needed(files, req.value.files) == [] then Install(json, files, tmp, req.value, [], inbox[1..])
      else FetchThenInstall(json, digest, files, tmp, req.value, inbox[1..])
  }

  /** After asking for files: over, or the cache with the files and the packets that follow. */
  datatype Fetched = Over(run: ServerRun) | Have(files: Files, rest: seq<Packet>)

  function Fetch(json: Json, digest: Bytes -> Hash, files: Files, sizes: map<Hash, int>, need: seq<Hash>,
                 inbox: seq<Packet>): Fetched
    requires forall h :: h in need ==> h in sizes && sizes[h] >= 0
  {
    var sent := [Reply(json, NeedOf(need))];
    if inbox == [] then Over(ServerRun(sent, files, Awaiting))
    else
      var up, body := ReadRequest(json, inbox[0]), inbox[0].data;
      if up.None? then Over(ServerRun(sent, files, Failed))
      else if up.value.kind != "Upload" || |body| != Wanted(sizes, need) then Over(Fail(json, sent, files))
      else
        var (after, _, ok) := SavedAll(digest, files, sizes, need, body);
        if !ok then Over(Fail(json, sent, after)) else Have(after, inbox[1..])
  }

  function FetchThenInstall(json: Json, digest: Bytes -> Hash, files: Files, tmp: Path, req: Request,
      inbox: seq<Packet>)
    : ServerRun
    requires WellFormed(req.files)
  {
    var need := Needed(files, req.files);
    NeededSized(files, req.files);
    var f := Fetch(json, digest, files, Sizes(req.files), need, inbox);
    if f.Over? then f.run else Install(json, f.files, tmp, req, [Reply(json, NeedOf(need))], f.rest)
  }

  /** The tree with the announced files, and the working directory in it. */
  function Built(tmp: Path, files: Files, fs: seq<File>, slashDir: string): Option<(Tree, Path)> {
    var t, dir := Placed(tmp, files, fs), RemotePath(tmp, slashDir);
    if t.None? || dir.None? || !DirFree(t.value, dir.value) then None else Some((t.value, dir.value))
  }

  /** Builds the tree, and waits for the request to start. */
  function Install(json: Json, files: Files, tmp: Path, req: Request, sent: seq<Packet>, inbox: seq<Packet>)
    : ServerRun
  {
    var built := Built(tmp, files, req.files, req.dir);
    if built.None? then Fail(json, sent, files)
    else
      var sent1 := sent + [Reply(json, READY)];
      if inbox == [] then ServerRun(sent1, files, Awaiting)
      else
        var go := ReadRequest(json, inbox[0]);
        if go.None? then ServerRun(sent1, files, Failed)
        else if go.value.kind != "Start" then Fail(json, sent1, files)
        else ServerRun(sent1, files, Launched(built.value.0, built.value.1))
  }

  // ----- the client -----

  datatype Asked = Waiting | GaveUp | Begun
  datatype ClientRun = ClientRun(sent: seq<Packet>, result: Asked)

  /** What the client does with the packets it is sent. */
  function Client(json: Json, disk: map<string, Bytes>, fs: seq<File>, args: seq<string>, dir: string,
      inbox: seq<Packet>)
    : ClientRun
  {
    Answers(json, disk, fs, [Ask(json, SetupOf(fs, args, dir), [])], inbox)
  }

  function Answers(json: Json, disk: map<string, Bytes>, fs: seq<File>, sent: seq<Packet>, inbox: seq<Packet>)
    : ClientRun
    decreases |inbox|
  {
    if inbox == [] then ClientRun(sent, Waiting)
    else
      var resp := ReadResponse(json, inbox[0]);
      if resp.None? then ClientRun(sent, GaveUp)
      else if resp.value.kind == "Need" then
        var body := Answer(disk, fs, resp.value.need);
        if body.None? then ClientRun(sent, GaveUp)
        else Answers(json, disk, fs, sent + [Ask(json, UPLOAD, body.value)], inbox[1..])
      else if resp.value.kind == "Ready" then ClientRun(sent + [Ask(json, START, [])], Begun)
      else ClientRun(sent, GaveUp)
  }

  // ----- the programs -----

  /** A connection of packets: those still to be received, and those sent. */
  class Conn {
    var inbox: seq<Packet>
    var sent: seq<Packet>

    constructor (packets: seq<Packet>)
      ensures inbox == packets && sent == []
    {
      inbox, sent := packets, [];
    }

    method Send(p: Packet)
      modifies this
      ensures sent == old(sent) + [p] && inbox == old(inbox)
    {
      sent := sent + [p];
    }

    /** The next packet; None while there is none. */
    method Receive() returns (p: Option<Packet>)
      modifies this
      ensures sent == old(sent)
      ensures if old(inbox) == [] then p == None && inbox == []
              else p == Some(old(inbox)[0]) && inbox == old(inbox)[1..]
    {
      if |inbox| == 0 {
        return None;
      }
      p := Some(inbox[0]);
      inbox := inbox[1..];
    }
  }

  method RunServer(json: Json, digest: Bytes -> Hash, cache: Cache, tmp: Path, c: Conn) returns (r: Served)
    requires c.sent == []
    modifies c, cache
    ensures ServerRun(c.sent, cache.files, r) == Server(json, digest, old(cache.files), tmp, old(c.inbox))
  {
    var p := c.Receive();
    if p.None? {
      return Awaiting;
    }
    var req := ReadRequest(json, p.value);
    if req.None? {
      return Failed;
    }
    var ok, sizes := CheckFiles(req.value.files);
    if req.value.kind != "Setup" || req.value.args == [] || !ok {
      c.Send(Reply(json, FAILED));
      return Failed;
    }
    var need := FindNeeded(cache, req.value.files);
    if |need| > 0 {
      NeededSized(cache.files, req.value.files);
      var over := FetchFiles(json, digest, cache, sizes, need, c);
      if over.Some? {
        return over.value;
      }
    }
    r := InstallTree(json, cache, tmp, req.value, c);
  }

  /** Asks for the files that are missing; None when they have come. */
  method FetchFiles(json: Json, digest: Bytes -> Hash, cache: Cache, sizes: map<Hash, int>, need: seq<Hash>, c: Conn)
    returns (over: Option<Served>)
    requires c.sent == [] && forall h :: h in need ==> h in sizes && sizes[h] >= 0
    modifies c, cache
    ensures match Fetch(json, digest, old(cache.files), sizes, need, old(c.inbox))
            case Over(run) => over.Some? && run == ServerRun(c.sent, cache.files, over.value)
            case Have(files, rest) =>
              over.None? && c.sent == [Reply(json, NeedOf(need))] && cache.files == files && c.inbox == rest
  {
    c.Send(Reply(json, NeedOf(need)));
    var up := c.Receive();
    if up.None? {
      return Some(Awaiting);
    }
    var upload := ReadRequest(json, up.value);
    if upload.None? {
      return Some(Failed);
    }
    if upload.value.kind != "Upload" {
      c.Send(Reply(json, FAILED));
      return Some(Failed);
    }
    var saved := SaveUpload(cache, digest, sizes, need, |up.value.data|, up.value.data);
    if !saved {
      c.Send(Reply(json, FAILED));
      return Some(Failed);
    }
    over := None;
  }

  method InstallTree(json: Json, cache: Cache, tmp: Path, req: Request, c: Conn) returns (r: Served)
    modifies c
    ensures ServerRun(c.sent, cache.files, r) == Install(json, cache.files, tmp, req, old(c.sent), old(c.inbox))
  {
    var t := PlaceFiles(cache, tmp, req.files);
    if t.None? {
      c.Send(Reply(json, FAILED));
      return Failed;
    }
    var dir := RemotePath(tmp, req.dir);
    if dir.None? || !DirFree(t.value, dir.value) {
      c.Send(Reply(json, FAILED));
      return Failed;
    }
    c.Send(Reply(json, READY));
    var p := c.Receive();
    if p.None? {
      return Awaiting;
    }
    var go := ReadRequest(json, p.value);
    if go.None? {
      return Failed;
    }
    if go.value.kind != "Start" {
      c.Send(Reply(json, FAILED));
      return Failed;
    }
    r := Launched(t.value, dir.value);
  }

  method RunClient(json: Json, disk: map<string, Bytes>, fs: seq<File>, args: seq<string>, dir: string, c: Conn)
    returns (r: Asked)
    requires c.sent == []
    modifies c
    ensures ClientRun(c.sent, r) == Client(json, disk, fs, args, dir, old(c.inbox))
  {
    c.Send(Ask(json, SetupOf(fs, args, dir), []));
    assert c.sent == [Ask(json, SetupOf(fs, args, dir), [])];
    while true
      invariant Answers(json, disk, fs, c.sent, c.inbox) == Client(json, disk, fs, args, dir, old(c.inbox))
      decreases |c.inbox|
    {
      var p := c.Receive();
      if p.None? {
        return Waiting;
      }
      var resp := ReadResponse(json, p.value);
      if resp.None? {
        return GaveUp;
      }
      if resp.value.kind == "Need" {
        var body := AnswerNeed(disk, fs, resp.value.need);
        if body.None? {
          return GaveUp;
        }
        c.Send(Ask(json, UPLOAD, body.value));
      } else if resp.value.kind == "Ready" {
        c.Send(Ask(json, START, []));
        return Begun;
      } else {
        return GaveUp;
      }
    }
  }

  // ----- the two programs together -----

  /** A server with its cache, and a client with its disk and its request. */
  datatype Setting = Setting(json: Json, digest: Bytes -> Hash, files: Files, tmp: Path,
                             disk: map<string, Bytes>, fs: seq<File>, args: seq<string>, dir: string)
  {
    function Serves(inbox: seq<Packet>): ServerRun {
      Server(json, digest, files, tmp, inbox)
    }

    function Asks(inbox: seq<Packet>): ClientRun {
      Client(json, disk, fs, args, dir, inbox)
    }
  }

  /** A conversation that has come to rest: each side has been given all that the other sent. */
  ghost predicate AtRest(c: Setting, x: ServerRun, y: ClientRun) {
    x == c.Serves(y.sent) && y == c.Asks(x.sent)
  }

  /** The files and the working directory fit into one tree. */
  ghost predicate TreeFits(tmp: Path, fs: seq<File>, dir: string) {
    && PathsFit(tmp, fs) && RemotePath(tmp, dir).Some?
    && forall k :: 0 <= k < |fs| ==> !(Destinations(tmp, fs)[k] <= RemotePath(tmp, dir).value)
  }

  /** What a client can check of its own request, and of what is missing from the cache. */
  ghost predicate Acceptable(json: Json, files: Files, tmp: Path, fs: seq<File>, args: seq<string>, dir: string) {
    var need := Needed(files, fs);
    && args != [] && |json.encReq(SetupOf(fs, args, dir))| <= MAX_JSON
    && (need != [] ==> |json.encResp(NeedOf(need))| <= MAX_JSON && Wanted(Sizes(fs), need) < TWO_32)
    && TreeFits(tmp, fs, dir)
  }

  lemma {:induction false} SentGrows(json: Json, disk: map<string, Bytes>, fs: seq<File>, sent: seq<Packet>,
                                     inbox: seq<Packet>)
    ensures sent <= Answers(json, disk, fs, sent, inbox).sent
    decreases |inbox|
  {
    if inbox != [] && ReadResponse(json, inbox[0]).Some? {
      var resp := ReadResponse(json, inbox[0]).value;
      if resp.kind == "Need" && Answer(disk, fs, resp.need).Some? {
        var more := sent + [Ask(json, UPLOAD, Answer(disk, fs, resp.need).value)];
        SentGrows(json, disk, fs, more, inbox[1..]);
      }
    }
  }

  /** What the client makes of a reply. */
  lemma {:induction false} AnswerTo(json: Json, disk: map<string, Bytes>, fs: seq<File>, sent: seq<Packet>,
                                    resp: Response, rest: seq<Packet>)
    requires JsonLaws(json)
    ensures Answers(json, disk, fs, sent, [Reply(json, resp)] + rest) ==
            if |json.encResp(resp)| > MAX_JSON || resp.error != "" then ClientRun(sent, GaveUp)
            else if resp.kind == "Need" then
              var body := Answer(disk, fs, resp.need);
              if body.None? then ClientRun(sent, GaveUp)
              else Answers(json, disk, fs, sent + [Ask(json, UPLOAD, body.value)], rest)
            else if resp.kind == "Ready" then ClientRun(sent + [Ask(json, START, [])], Begun)
            else ClientRun(sent, GaveUp)
  {
    var inbox := [Reply(json, resp)] + rest;
    assert inbox[1..] == rest;
  }

  /** Every path has the content the client announced for it last, and there is nothing else. */
  ghost predicate RightTree(tmp: Path, disk: map<string, Bytes>, fs: seq<File>, t: Tree) {
    && PathsFit(tmp, fs) && (forall k :: 0 <= k < |fs| ==> fs[k].path in disk)
    && Shows(Destinations(tmp, fs), seq(|fs|, k requires 0 <= k < |fs| => disk[fs[k].path]), t)
  }

  lemma {:induction false} DirIff(tmp: Path, files: Files, fs: seq<File>, dir: string)
    requires Known(tmp, files, fs) || Placed(tmp, files, fs).None?
    ensures var t, d := Placed(tmp, files, fs), RemotePath(tmp, dir);
            t.Some? && d.Some? ==> (DirFree(t.value, d.value) <==> TreeFits(tmp, fs, dir))
  {
    var t, d := Placed(tmp, files, fs), RemotePath(tmp, dir);
    if t.Some? && d.Some? {
      PlacedIff(tmp, files, fs);
      var dst := Destinations(tmp, fs);
      if TreeFits(tmp, fs, dir) {
        forall p | p in t.value ensures !(p <= d.value) {
          var k :| 0 <= k < |dst| && dst[k] == p;
        }
      }
      if DirFree(t.value, d.value) {
        forall k | 0 <= k < |fs| ensures !(dst[k] <= d.value) {
          assert dst[k] in t.value;
        }
      }
    }
  }

  lemma {:induction false} BuiltIff(tmp: Path, disk: map<string, Bytes>, files: Files, fs: seq<File>, dir: string)
    requires OwnContents(disk, files, fs)
    ensures Built(tmp, files, fs, dir).Some? <==> TreeFits(tmp, fs, dir)
    ensures Built(tmp, files, fs, dir).Some? ==>
              RightTree(tmp, disk, fs, Built(tmp, files, fs, dir).value.0)
              && RemotePath(tmp, dir) == Some(Built(tmp, files, fs, dir).value.1)
  {
    PlacedIff(tmp, files, fs);
    DirIff(tmp, files, fs, dir);
    if Placed(tmp, files, fs).Some? {
      OwnedContents(tmp, disk, files, fs);
    }
  }

  lemma {:induction false} OwnedContents(tmp: Path, disk: map<string, Bytes>, files: Files, fs: seq<File>)
    requires OwnContents(disk, files, fs) && Known(tmp, files, fs)
    ensures forall k :: 0 <= k < |fs| ==> fs[k].path in disk
    ensures Contents(files, fs) == seq(|fs|, k requires 0 <= k < |fs| => disk[fs[k].path])
  {
  }

  /** The last phase, once the server has the files. */
  lemma {:induction false} InstallTalk(json: Json, disk: map<string, Bytes>, files: Files, tmp: Path, fs: seq<File>,
                                       args: seq<string>, dir: string, sent: seq<Packet>, asked: seq<Packet>,
                                       x: ServerRun, y: ClientRun)
    requires JsonLaws(json)
    requires sent <= x.sent && asked <= y.sent
    requires x == Install(json, files, tmp, SetupOf(fs, args, dir), sent, y.sent[|asked|..])
    requires y == Answers(json, disk, fs, asked, x.sent[|sent|..])
    ensures x.files == files
    ensures match Built(tmp, files, fs, dir)
            case None => x.result == Failed && y.result == GaveUp
            case Some((t, d)) =>
              && x == ServerRun(sent + [Reply(json, READY)], files, Launched(t, d))
              && y == ClientRun(asked + [Ask(json, START, [])], Begun)
  {
    if Built(tmp, files, fs, dir).None? {
      assert x.sent[|sent|..] == [Reply(json, FAILED)] + [];
      AnswerTo(json, disk, fs, asked, FAILED, []);
    } else {
      var rest := x.sent[|sent| + 1..];
      assert x.sent[|sent|..] == [Reply(json, READY)] + rest;
      AnswerTo(json, disk, fs, asked, READY, rest);
      assert y.sent[|asked|..] == [Ask(json, START, [])];
      assert ReadRequest(json, Ask(json, START, [])) == Some(START);
    }
  }

  /** What the server makes of a client's request. */
  lemma {:induction false} ServerOnSetup(json: Json, digest: Bytes -> Hash, files: Files, tmp: Path, fs: seq<File>,
                                         args: seq<string>, dir: string, rest: seq<Packet>)
    requires JsonLaws(json) && WellFormed(fs)
    ensures var req, p := SetupOf(fs, args, dir), Ask(json, SetupOf(fs, args, dir), []);
            Server(json, digest, files, tmp, [p] + rest) ==
            if |p.js| > MAX_JSON then ServerRun([], files, Failed)
            else if args == [] then Fail(json, [], files)
            else if Needed(files, fs) == [] then Install(json, files, tmp, req, [], rest)
            else FetchThenInstall(json, digest, files, tmp, req, rest)
  {
    assert ([Ask(json, SetupOf(fs, args, dir), [])] + rest)[1..] == rest;
  }

  /** The first thing a server that misses files does is to ask for them. */
  lemma {:induction false} FetchAsks(json: Json, digest: Bytes -> Hash, files: Files, tmp: Path, req: Request,
                                     inbox: seq<Packet>)
    requires WellFormed(req.files)
    ensures var x := FetchThenInstall(json, digest, files, tmp, req, inbox);
            var need := Reply(json, NeedOf(Needed(files, req.files)));
            [need] <= x.sent && (inbox == [] ==> x == ServerRun([need], files, Awaiting))
  {
    NeededSized(files, req.files);
    var need := Needed(files, req.files);
    FetchGrows(json, digest, files, Sizes(req.files), need, inbox);
    var f := Fetch(json, digest, files, Sizes(req.files), need, inbox);
    if f.Have? {
      InstallGrows(json, f.files, tmp, req, [Reply(json, NeedOf(need))], f.rest);
    }
  }

  lemma {:induction false} FetchGrows(json: Json, digest: Bytes -> Hash, files: Files, sizes: map<Hash, int>,
                                      need: seq<Hash>, inbox: seq<Packet>)
    requires forall h :: h in need ==> h in sizes && sizes[h] >= 0
    ensures var f, asked := Fetch(json, digest, files, sizes, need, inbox), [Reply(json, NeedOf(need))];
            && (f.Over? ==> asked <= f.run.sent)
            && (inbox == [] ==> f == Over(ServerRun(asked, files, Awaiting)))
  {
  }

  lemma {:induction false} InstallGrows(json: Json, files: Files, tmp: Path, req: Request, sent: seq<Packet>,
                                        inbox: seq<Packet>)
    ensures sent <= Install(json, files, tmp, req, sent, inbox).sent
  {
    var ready, failed := [Reply(json, READY)], [Reply(json, FAILED)];
    assert sent <= sent + failed && sent <= sent + ready && sent + ready <= sent + ready + failed;
  }

  /** The client cannot answer: it gives up, and the server goes on waiting. */
  lemma {:induction false} NoUpload(json: Json, disk: map<string, Bytes>, need: seq<Hash>, fs: seq<File>,
                                    asked: seq<Packet>, sent: seq<Packet>)
    requires JsonLaws(json) && [Reply(json, NeedOf(need))] <= sent
    ensures |json.encResp(NeedOf(need))| > MAX_JSON || Answer(disk, fs, need).None? ==>
              Answers(json, disk, fs, asked, sent) == ClientRun(asked, GaveUp)
    ensures |json.encResp(NeedOf(need))| <= MAX_JSON && Answer(disk, fs, need).Some? ==>
              var upload := asked + [Ask(json, UPLOAD, Answer(disk, fs, need).value)];
              Answers(json, disk, fs, asked, sent) == Answers(json, disk, fs, upload, sent[1..])
  {
    assert sent == [Reply(json, NeedOf(need))] + sent[1..];
    AnswerTo(json, disk, fs, asked, NeedOf(need), sent[1..]);
  }

  /** What the server does with an upload of this content. */
  function AfterUpload(json: Json, digest: Bytes -> Hash, files: Files, tmp: Path, req: Request, body: Bytes,
                       inbox: seq<Packet>): ServerRun
    requires WellFormed(req.files)
  {
    var need := Needed(files, req.files);
    NeededSized(files, req.files);
    FetchThenInstall(json, digest, files, tmp, req, [Ask(json, UPLOAD, body)] + inbox)
  }

  lemma {:induction false} UploadTaken(json: Json, digest: Bytes -> Hash, files: Files, tmp: Path, req: Request,
                                       body: Bytes, inbox: seq<Packet>)
    requires JsonLaws(json) && WellFormed(req.files)
    requires Sized(Sizes(req.files), Needed(files, req.files))
    requires |body| == Wanted(Sizes(req.files), Needed(files, req.files))
    requires SavedAll(digest, files, Sizes(req.files), Needed(files, req.files), body).2
    ensures var need := Needed(files, req.files);
            AfterUpload(json, digest, files, tmp, req, body, inbox) ==
            Install(json, SavedAll(digest, files, Sizes(req.files), need, body).0, tmp, req,
                    [Reply(json, NeedOf(need))], inbox)
  {
    assert ([Ask(json, UPLOAD, body)] + inbox)[1..] == inbox;
    assert ReadRequest(json, Ask(json, UPLOAD, body)) == Some(UPLOAD);
  }

  /** A session that needs an upload. */
  lemma {:induction false} FetchTalk(json: Json, digest: Bytes -> Hash, disk: map<string, Bytes>, files: Files,
                                     tmp: Path, fs: seq<File>, args: seq<string>, dir: string, asked: seq<Packet>,
                                     x: ServerRun, y: ClientRun)
    requires JsonLaws(json) && Honest(digest, disk, fs) && NoCollisions(digest) && Sound(digest, files)
    requires WellFormed(fs) && asked <= y.sent
    requires x == FetchThenInstall(json, digest, files, tmp, SetupOf(fs, args, dir), y.sent[|asked|..])
    requires y == Answers(json, disk, fs, asked, x.sent)
    ensures var need := Needed(files, fs);
            var fits := |json.encResp(NeedOf(need))| <= MAX_JSON && Wanted(Sizes(fs), need) < TWO_32;
            && Sound(digest, x.files)
            && (x.result.Launched? <==> fits && TreeFits(tmp, fs, dir))
            && (y.result.Begun? <==> fits && TreeFits(tmp, fs, dir))
            && (x.result.Launched? ==>
                  && Answer(disk, fs, need).Some?
                  && x.sent == [Reply(json, NeedOf(need)), Reply(json, READY)]
                  && y.sent == asked + [Ask(json, UPLOAD, Answer(disk, fs, need).value), Ask(json, START, [])]
                  && RightTree(tmp, disk, fs, x.result.tree) && RemotePath(tmp, dir) == Some(x.result.dir))
  {
    var need := Needed(files, fs);
    HonestUpload(digest, disk, files, fs);
    FetchAsks(json, digest, files, tmp, SetupOf(fs, args, dir), y.sent[|asked|..]);
    NoUpload(json, disk, need, fs, asked, x.sent);
    var body := Answer(disk, fs, need);
    if |json.encResp(NeedOf(need))| <= MAX_JSON && body.Some? {
      UploadTalk(json, digest, disk, files, tmp, fs, args, dir, asked, body.value, x, y);
    } else {
      assert y.sent[|asked|..] == [];
    }
  }

  lemma {:induction false} UploadTalk(json: Json, digest: Bytes -> Hash, disk: map<string, Bytes>, files: Files,
                                      tmp: Path, fs: seq<File>, args: seq<string>, dir: string, asked: seq<Packet>,
                                      body: Bytes, x: ServerRun, y: ClientRun)
    requires JsonLaws(json) && WellFormed(fs) && Sized(Sizes(fs), Needed(files, fs))
    requires |body| == Wanted(Sizes(fs), Needed(files, fs))
    requires var (after, _, ok) := SavedAll(digest, files, Sizes(fs), Needed(files, fs), body);
             ok && Sound(digest, after) && OwnContents(disk, after, fs)
    requires asked <= y.sent && [Reply(json, NeedOf(Needed(files, fs)))] <= x.sent
    requires x == FetchThenInstall(json, digest, files, tmp, SetupOf(fs, args, dir), y.sent[|asked|..])
    requires y == Answers(json, disk, fs, asked + [Ask(json, UPLOAD, body)], x.sent[1..])
    ensures Sound(digest, x.files)
    ensures x.result.Launched? <==> TreeFits(tmp, fs, dir)
    ensures y.result.Begun? <==> TreeFits(tmp, fs, dir)
    ensures x.result.Launched? ==>
              && x.sent == [Reply(json, NeedOf(Needed(files, fs))), Reply(json, READY)]
              && y.sent == asked + [Ask(json, UPLOAD, body), Ask(json, START, [])]
              && RightTree(tmp, disk, fs, x.result.tree) && RemotePath(tmp, dir) == Some(x.result.dir)
  {
    var need := Needed(files, fs);
    UploadMade(json, digest, disk, files, tmp, fs, args, dir, asked, body, x, y);
    var upload := asked + [Ask(json, UPLOAD, body)];
    var after := SavedAll(digest, files, Sizes(fs), need, body).0;
    UploadedTalk(json, disk, after, tmp, fs, args, dir, [Reply(json, NeedOf(need))], upload, x, y);
    OneAndOne([], Reply(json, NeedOf(need)), Reply(json, READY));
    OneAndOne(asked, Ask(json, UPLOAD, body), Ask(json, START, []));
  }

  lemma {:induction false} OneAndOne<T>(s: seq<T>, x: T, y: T)
    ensures s + [x] + [y] == s + [x, y] && [x] + [y] == [x, y]
  {
  }

  /** The upload is made, and the server takes it. */
  lemma {:induction false} UploadMade(json: Json, digest: Bytes -> Hash, disk: map<string, Bytes>, files: Files,
                                      tmp: Path, fs: seq<File>, args: seq<string>, dir: string, asked: seq<Packet>,
                                      body: Bytes, x: ServerRun, y: ClientRun)
    requires JsonLaws(json) && WellFormed(fs) && Sized(Sizes(fs), Needed(files, fs))
    requires |body| == Wanted(Sizes(fs), Needed(files, fs))
    requires SavedAll(digest, files, Sizes(fs), Needed(files, fs), body).2
    requires asked <= y.sent && x.sent != []
    requires x == FetchThenInstall(json, digest, files, tmp, SetupOf(fs, args, dir), y.sent[|asked|..])
    requires y == Answers(json, disk, fs, asked + [Ask(json, UPLOAD, body)], x.sent[1..])
    ensures var upload, need := asked + [Ask(json, UPLOAD, body)], Needed(files, fs);
            && upload <= y.sent
            && x == Install(json, SavedAll(digest, files, Sizes(fs), need, body).0, tmp, SetupOf(fs, args, dir),
                            [Reply(json, NeedOf(need))], y.sent[|upload|..])
  {
    var upload := asked + [Ask(json, UPLOAD, body)];
    SentGrows(json, disk, fs, upload, x.sent[1..]);
    assert y.sent[|asked|..] == [Ask(json, UPLOAD, body)] + y.sent[|upload|..];
    UploadTaken(json, digest, files, tmp, SetupOf(fs, args, dir), body, y.sent[|upload|..]);
  }

  /** From when the server has all the files to the end of the session. */
  lemma {:induction false} UploadedTalk(json: Json, disk: map<string, Bytes>, files: Files, tmp: Path, fs: seq<File>,
                                        args: seq<string>, dir: string, sent: seq<Packet>, asked: seq<Packet>,
                                        x: ServerRun, y: ClientRun)
    requires JsonLaws(json) && OwnContents(disk, files, fs)
    requires sent <= x.sent && asked <= y.sent
    requires x == Install(json, files, tmp, SetupOf(fs, args, dir), sent, y.sent[|asked|..])
    requires y == Answers(json, disk, fs, asked, x.sent[|sent|..])
    ensures x.files == files && (x.result.Launched? <==> TreeFits(tmp, fs, dir))
    ensures y.result.Begun? <==> TreeFits(tmp, fs, dir)
    ensures x.result.Launched? ==>
              && x.sent == sent + [Reply(json, READY)] && y.sent == asked + [Ask(json, START, [])]
              && RightTree(tmp, disk, fs, x.result.tree) && RemotePath(tmp, dir) == Some(x.result.dir)
  {
    BuiltIff(tmp, disk, files, fs, dir);
    InstallTalk(json, disk, files, tmp, fs, args, dir, sent, asked, x, y);
  }

  lemma {:induction false} InstallOnlyTalk(json: Json, digest: Bytes -> Hash, disk: map<string, Bytes>, files: Files,
                                           tmp: Path, fs: seq<File>, args: seq<string>, dir: string,
                                           asked: seq<Packet>, x: ServerRun, y: ClientRun)
    requires JsonLaws(json) && Honest(digest, disk, fs) && NoCollisions(digest) && Sound(digest, files)
    requires Needed(files, fs) == [] && asked <= y.sent
    requires x == Install(json, files, tmp, SetupOf(fs, args, dir), [], y.sent[|asked|..])
    requires y == Answers(json, disk, fs, asked, x.sent)
    ensures x.files == files
    ensures x.result.Launched? <==> TreeFits(tmp, fs, dir)
    ensures y.result.Begun? <==> TreeFits(tmp, fs, dir)
    ensures x.result.Launched? ==>
              && x.sent == [Reply(json, READY)] && y.sent == asked + [Ask(json, START, [])]
              && RightTree(tmp, disk, fs, x.result.tree) && RemotePath(tmp, dir) == Some(x.result.dir)
  {
    HonestUpload(digest, disk, files, fs);
    assert Uploaded(disk, fs, []) == Some((0, []));
    assert OwnContents(disk, files, fs);
    BuiltIff(tmp, disk, files, fs, dir);
    assert x.sent[0..] == x.sent;
    InstallTalk(json, disk, files, tmp, fs, args, dir, [], asked, x, y);
  }

  lemma {:induction false} Refused(json: Json, disk: map<string, Bytes>, fs: seq<File>, asked: seq<Packet>,
                                   files: Files, x: ServerRun, y: ClientRun)
    requires JsonLaws(json) && y == Answers(json, disk, fs, asked, x.sent)
    requires x == ServerRun([], files, Failed) || x == Fail(json, [], files)
    ensures x.files == files && !x.result.Launched? && !y.result.Begun?
  {
    if x.sent != [] {
      assert x.sent == [Reply(json, FAILED)] + [];
      AnswerTo(json, disk, fs, asked, FAILED, []);
    }
  }

  /** The packets of a session that gets as far as the command. */
  ghost predicate Transcript(json: Json, disk: map<string, Bytes>, files: Files, fs: seq<File>, args: seq<string>,
                             dir: string, fromServer: seq<Packet>, fromClient: seq<Packet>)
  {
    var need, setup := Needed(files, fs), Ask(json, SetupOf(fs, args, dir), []);
    if need == [] then
      fromServer == [Reply(json, READY)] && fromClient == [setup] + [Ask(json, START, [])]
    else
      && Answer(disk, fs, need).Some?
      && fromServer == [Reply(json, NeedOf(need)), Reply(json, READY)]
      && fromClient == [setup] + [Ask(json, UPLOAD, Answer(disk, fs, need).value), Ask(json, START, [])]
  }

  ghost predicate Concluded(json: Json, digest: Bytes -> Hash, disk: map<string, Bytes>, files: Files, tmp: Path,
                            fs: seq<File>, args: seq<string>, dir: string, x: ServerRun, y: ClientRun)
  {
    && Sound(digest, x.files)
    && (x.result.Launched? <==> Acceptable(json, files, tmp, fs, args, dir))
    && (y.result.Begun? <==> Acceptable(json, files, tmp, fs, args, dir))
    && (x.result.Launched? ==>
          && Transcript(json, disk, files, fs, args, dir, x.sent, y.sent)
          && RightTree(tmp, disk, fs, x.result.tree) && RemotePath(tmp, dir) == Some(x.result.dir))
  }

  lemma {:induction false} WithoutUpload(json: Json, digest: Bytes -> Hash, disk: map<string, Bytes>, files: Files,
                                         tmp: Path, fs: seq<File>, args: seq<string>, dir: string, x: ServerRun,
                                         y: ClientRun)
    requires JsonLaws(json) && Honest(digest, disk, fs) && NoCollisions(digest) && Sound(digest, files)
    requires Needed(files, fs) == [] && args != []
    requires var setup := Ask(json, SetupOf(fs, args, dir), []);
             && |setup.js| <= MAX_JSON && [setup] <= y.sent
             && x == Install(json, files, tmp, SetupOf(fs, args, dir), [], y.sent[1..])
             && y == Answers(json, disk, fs, [setup], x.sent)
    ensures Concluded(json, digest, disk, files, tmp, fs, args, dir, x, y)
  {
    InstallOnlyTalk(json, digest, disk, files, tmp, fs, args, dir, [Ask(json, SetupOf(fs, args, dir), [])], x, y);
  }

  lemma {:induction false} WithUpload(json: Json, digest: Bytes -> Hash, disk: map<string, Bytes>, files: Files,
                                      tmp: Path, fs: seq<File>, args: seq<string>, dir: string, x: ServerRun,
                                      y: ClientRun)
    requires JsonLaws(json) && Honest(digest, disk, fs) && NoCollisions(digest) && Sound(digest, files)
    requires Needed(files, fs) != [] && args != [] && WellFormed(fs)
    requires var setup := Ask(json, SetupOf(fs, args, dir), []);
             && |setup.js| <= MAX_JSON && [setup] <= y.sent
             && x == FetchThenInstall(json, digest, files, tmp, SetupOf(fs, args, dir), y.sent[1..])
             && y == Answers(json, disk, fs, [setup], x.sent)
    ensures Concluded(json, digest, disk, files, tmp, fs, args, dir, x, y)
  {
    FetchTalk(json, digest, disk, files, tmp, fs, args, dir, [Ask(json, SetupOf(fs, args, dir), [])], x, y);
  }

  /** Main result: when the programs of an honest client and of a server with a sound cache
      have come to rest, the command has been started, and the client knows, exactly when the
      request is acceptable; then each missing hash was asked for once, in one packet, one
      upload answered it, and every path of the tree holds its own file. The cache is sound
      in any case. */
  lemma {:induction false} HonestSession(c: Setting, x: ServerRun, y: ClientRun)
    requires JsonLaws(c.json) && Honest(c.digest, c.disk, c.fs) && NoCollisions(c.digest) && Sound(c.digest, c.files)
    requires AtRest(c, x, y)
    ensures Concluded(c.json, c.digest, c.disk, c.files, c.tmp, c.fs, c.args, c.dir, x, y)
    ensures NoDuplicates(Needed(c.files, c.fs))
  {
    var Setting(json, digest, files, tmp, disk, fs, args, dir) := c;
    var setup := Ask(json, SetupOf(fs, args, dir), []);
    NeededOnce(files, fs);
    HonestUpload(digest, disk, files, fs);
    SentGrows(json, disk, fs, [setup], x.sent);
    assert y.sent == [setup] + y.sent[1..];
    ServerOnSetup(json, digest, files, tmp, fs, args, dir, y.sent[1..]);
    if |setup.js| > MAX_JSON || args == [] {
      Refused(json, disk, fs, [setup], files, x, y);
    } else if Needed(files, fs) == [] {
      WithoutUpload(json, digest, disk, files, tmp, fs, args, dir, x, y);
    } else {
      WithUpload(json, digest, disk, files, tmp, fs, args, dir, x, y);
    }
  }

  // ----- any client at all -----

  /** The packet with number k is a request of that kind. */
  predicate Says(json: Json, inbox: seq<Packet>, k: nat, kind: string) {
    k < |inbox| && ReadRequest(json, inbox[k]).Some? && ReadRequest(json, inbox[k]).value.kind == kind
  }

  /** The server answers each packet once: when it has started the command, the first was Setup,
      the one in between, if there was one, Upload, and the last, behind Ready, Start; when it has
      failed it has said so, unless it could not read the packet; else it has read all. */
  ghost predicate Conversed(json: Json, tmp: Path, inbox: seq<Packet>, r: ServerRun) {
    var n := |r.sent|;
    match r.result
    case Awaiting => n == |inbox|
    case Failed =>
      (n > 0 && r.sent[n - 1] == Reply(json, FAILED)) || (n < |inbox| && ReadRequest(json, inbox[n]).None?)
    case Launched(tree, dir) =>
      && 1 <= n <= 2 && Says(json, inbox, 0, "Setup") && Says(json, inbox, n, "Start")
      && r.sent[n - 1] == Reply(json, READY) && (n == 2 ==> Says(json, inbox, 1, "Upload"))
      && var req := ReadRequest(json, inbox[0]).value;
         req.args != [] && Built(tmp, r.files, req.files, req.dir) == Some((tree, dir))
  }

  lemma {:induction false} InstallConverses(json: Json, files: Files, tmp: Path, inbox: seq<Packet>,
                                            sent: seq<Packet>)
    requires Says(json, inbox, 0, "Setup") && ReadRequest(json, inbox[0]).value.args != []
    requires |sent| <= 1 && |sent| < |inbox| && (|sent| == 1 ==> Says(json, inbox, 1, "Upload"))
    ensures Conversed(json, tmp, inbox,
                      Install(json, files, tmp, ReadRequest(json, inbox[0]).value, sent, inbox[1 + |sent|..]))
  {
  }

  lemma {:induction false} FetchConverses(json: Json, digest: Bytes -> Hash, files: Files, tmp: Path,
                                          inbox: seq<Packet>)
    requires Says(json, inbox, 0, "Setup") && ReadRequest(json, inbox[0]).value.args != []
    requires WellFormed(ReadRequest(json, inbox[0]).value.files)
    ensures Conversed(json, tmp, inbox,
                      FetchThenInstall(json, digest, files, tmp, ReadRequest(json, inbox[0]).value, inbox[1..]))
  {
    var req := ReadRequest(json, inbox[0]).value;
    var need := Needed(files, req.files);
    NeededSized(files, req.files);
    var f := Fetch(json, digest, files, Sizes(req.files), need, inbox[1..]);
    if f.Have? {
      assert f.rest == inbox[2..] && Says(json, inbox, 1, "Upload");
      InstallConverses(json, f.files, tmp, inbox, [Reply(json, NeedOf(need))]);
    }
  }

  /** Main result for a client that may send anything. */
  lemma {:induction false} ServerConverses(json: Json, digest: Bytes -> Hash, files: Files, tmp: Path,
                                           inbox: seq<Packet>)
    ensures Conversed(json, tmp, inbox, Server(json, digest, files, tmp, inbox))
  {
    if Says(json, inbox, 0, "Setup") {
      var req := ReadRequest(json, inbox[0]).value;
      if req.args != [] && WellFormed(req.files) {
        InstallConverses(json, files, tmp, inbox, []);
        FetchConverses(json, digest, files, tmp, inbox);
      }
    }
  }

  /** The client's k-th packet behind Setup answers the server's: Upload with what was asked
      for, or Start, the last. */
  ghost predicate Answering(json: Json, disk: map<string, Bytes>, fs: seq<File>, p: Packet, q: Packet, last: bool) {
    && ReadResponse(json, p).Some?
    && var r := ReadResponse(json, p).value;
       if r.kind == "Need" then !last && Some(q.data) == Answer(disk, fs, r.need) && q.js == json.encReq(UPLOAD)
       else r.kind == "Ready" && last && q == Ask(json, START, [])
  }

  /** Where the client stops: it cannot read the packet, or not answer it. */
  ghost predicate Refuses(json: Json, disk: map<string, Bytes>, fs: seq<File>, p: Packet) {
    var r := ReadResponse(json, p);
    r.None? || (r.value.kind != "Ready" && (r.value.kind == "Need" ==> Answer(disk, fs, r.value.need).None?))
  }

  /** From some packets sent on. */
  ghost predicate AnswersEach(json: Json, disk: map<string, Bytes>, fs: seq<File>, sent: seq<Packet>,
                              inbox: seq<Packet>, r: ClientRun) {
    var n := |r.sent| - |sent|;
    && 0 <= n <= |inbox| && sent <= r.sent
    && (forall k :: 0 <= k < n ==>
          Answering(json, disk, fs, inbox[k], r.sent[|sent| + k], r.result == Begun && k == n - 1))
    && match r.result
       case Waiting => n == |inbox|
       case GaveUp => n < |inbox| && Refuses(json, disk, fs, inbox[n])
       case Begun => n > 0
  }

  lemma {:induction false} AnswersInTurn(json: Json, disk: map<string, Bytes>, fs: seq<File>, sent: seq<Packet>,
                                         inbox: seq<Packet>)
    ensures AnswersEach(json, disk, fs, sent, inbox, Answers(json, disk, fs, sent, inbox))
    decreases |inbox|
  {
    if inbox != [] {
      var resp := ReadResponse(json, inbox[0]);
      if resp.Some? && resp.value.kind == "Need" && Answer(disk, fs, resp.value.need).Some? {
        var q := Ask(json, UPLOAD, Answer(disk, fs, resp.value.need).value);
        AnswersInTurn(json, disk, fs, sent + [q], inbox[1..]);
        AnsweredFirst(json, disk, fs, sent, q, inbox, Answers(json, disk, fs, sent + [q], inbox[1..]));
      }
    }
  }

  lemma {:induction false} AnsweredFirst(json: Json, disk: map<string, Bytes>, fs: seq<File>, sent: seq<Packet>,
                                         q: Packet, inbox: seq<Packet>, r: ClientRun)
    requires inbox != [] && AnswersEach(json, disk, fs, sent + [q], inbox[1..], r)
    requires Answering(json, disk, fs, inbox[0], q, false)
    ensures AnswersEach(json, disk, fs, sent, inbox, r)
  {
    var n := |r.sent| - |sent|;
    assert r.sent[|sent|] == (sent + [q])[|sent|];
    forall k | 0 <= k < n
      ensures Answering(json, disk, fs, inbox[k], r.sent[|sent| + k], r.result == Begun && k == n - 1)
    {
      if k > 0 {
        assert inbox[k] == inbox[1..][k - 1] && r.sent[|sent| + k] == r.sent[|sent + [q]| + (k - 1)];
      }
    }
  }

  /** Main result for a server that may send anything: the client announces its files, answers
      each Need with announced files, and asks to start only when the server is ready. */
  lemma {:induction false} ClientConverses(json: Json, disk: map<string, Bytes>, fs: seq<File>, args: seq<string>,
                                           dir: string, inbox: seq<Packet>)
    ensures var setup := Ask(json, SetupOf(fs, args, dir), []);
            AnswersEach(json, disk, fs, [setup], inbox, Client(json, disk, fs, args, dir, inbox))
  {
    AnswersInTurn(json, disk, fs, [Ask(json, SetupOf(fs, args, dir), [])], inbox);
  }

  /** Whatever a client sends, the cache stays sound. */
  lemma {:induction false} ServerKeepsSound(json: Json, digest: Bytes -> Hash, files: Files, tmp: Path,
                                            inbox: seq<Packet>)
    requires Sound(digest, files)
    ensures Sound(digest, Server(json, digest, files, tmp, inbox).files)
  {
    if inbox != [] && ReadRequest(json, inbox[0]).Some? {
      var req := ReadRequest(json, inbox[0]).value;
      if WellFormed(req.files) {
        NeededSized(files, req.files);
        FetchKeepsSound(json, digest, files, Sizes(req.files), Needed(files, req.files), inbox[1..]);
        var f := Fetch(json, digest, files, Sizes(req.files), Needed(files, req.files), inbox[1..]);
        if f.Have? {
          InstallKeepsFiles(json, f.files, tmp, req, [Reply(json, NeedOf(Needed(files, req.files)))], f.rest);
        }
        InstallKeepsFiles(json, files, tmp, req, [], inbox[1..]);
      }
    }
  }

  lemma {:induction false} InstallKeepsFiles(json: Json, files: Files, tmp: Path, req: Request, sent: seq<Packet>,
                                             inbox: seq<Packet>)
    ensures Install(json, files, tmp, req, sent, inbox).files == files
  {
  }

  lemma {:induction false} FetchKeepsSound(json: Json, digest: Bytes -> Hash, files: Files, sizes: map<Hash, int>,
                                           need: seq<Hash>, inbox: seq<Packet>)
    requires Sound(digest, files) && forall h :: h in need ==> h in sizes && sizes[h] >= 0
    ensures var f := Fetch(json, digest, files, sizes, need, inbox);
            Sound(digest, if f.Over? then f.run.files else f.files)
  {
    if inbox != [] {
      CacheStaysSound(digest, files, sizes, need, inbox[0].data);
    }
  }

  // ----- a conversation comes to rest -----

  /** Given more, the server does not take back what it has sent. */
  lemma {:induction false} ServerGrows(json: Json, digest: Bytes -> Hash, files: Files, tmp: Path, a: seq<Packet>,
                                       b: seq<Packet>)
    requires a <= b
    ensures Server(json, digest, files, tmp, a).sent <= Server(json, digest, files, tmp, b).sent
    ensures |Server(json, digest, files, tmp, b).sent| <= 3
  {
    if b != [] && ReadRequest(json, b[0]).Some? {
      var req := ReadRequest(json, b[0]).value;
      InstallExtends(json, files, tmp, req, [], if a == [] then [] else a[1..], b[1..]);
      if WellFormed(req.files) {
        FetchExtends(json, digest, files, tmp, req, if a == [] then [] else a[1..], b[1..]);
      }
    }
  }

  lemma {:induction false} InstallExtends(json: Json, files: Files, tmp: Path, req: Request, sent: seq<Packet>,
                                          a: seq<Packet>, b: seq<Packet>)
    requires a <= b
    ensures Install(json, files, tmp, req, sent, a).sent <= Install(json, files, tmp, req, sent, b).sent
    ensures |Install(json, files, tmp, req, sent, b).sent| <= |sent| + 2
  {
    assert a != [] ==> b != [] && a[0] == b[0];
    var ready, failed := [Reply(json, READY)], [Reply(json, FAILED)];
    assert sent <= sent + failed && sent <= sent + ready && sent + ready <= sent + ready + failed;
  }

  lemma {:induction false} FetchExtends(json: Json, digest: Bytes -> Hash, files: Files, tmp: Path, req: Request,
                                        a: seq<Packet>, b: seq<Packet>)
    requires a <= b && WellFormed(req.files)
    ensures FetchThenInstall(json, digest, files, tmp, req, a).sent <=
            FetchThenInstall(json, digest, files, tmp, req, b).sent
    ensures |FetchThenInstall(json, digest, files, tmp, req, b).sent| <= 3
  {
    var need := Needed(files, req.files);
    NeededSized(files, req.files);
    FetchAsks(json, digest, files, tmp, req, a);
    FetchAsks(json, digest, files, tmp, req, b);
    FetchShort(json, digest, files, Sizes(req.files), need, b);
    var g := Fetch(json, digest, files, Sizes(req.files), need, b);
    if a != [] {
      FetchSame(json, digest, files, Sizes(req.files), need, a, b);
    }
    if g.Have? {
      InstallExtends(json, g.files, tmp, req, [Reply(json, NeedOf(need))], if a == [] then [] else a[1..], g.rest);
    }
  }

  lemma {:induction false} FetchShort(json: Json, digest: Bytes -> Hash, files: Files, sizes: map<Hash, int>,
                                      need: seq<Hash>, b: seq<Packet>)
    requires forall h :: h in need ==> h in sizes && sizes[h] >= 0
    ensures var g := Fetch(json, digest, files, sizes, need, b);
            if g.Over? then |g.run.sent| <= 2 else b != [] && g.rest == b[1..]
  {
  }

  lemma {:induction false} FetchSame(json: Json, digest: Bytes -> Hash, files: Files, sizes: map<Hash, int>,
                                     need: seq<Hash>, a: seq<Packet>, b: seq<Packet>)
    requires forall h :: h in need ==> h in sizes && sizes[h] >= 0
    requires a <= b && a != []
    ensures var f, g := Fetch(json, digest, files, sizes, need, a), Fetch(json, digest, files, sizes, need, b);
            if f.Over? then g == f else g.Have? && g.files == f.files && f.rest == a[1..] && g.rest == b[1..]
  {
    assert a[0] == b[0];
  }

  lemma {:induction false} ClientGrows(json: Json, disk: map<string, Bytes>, fs: seq<File>, sent: seq<Packet>,
                                       a: seq<Packet>, b: seq<Packet>)
    requires a <= b
    ensures Answers(json, disk, fs, sent, a).sent <= Answers(json, disk, fs, sent, b).sent
    ensures |Answers(json, disk, fs, sent, b).sent| <= |sent| + |b|
    decreases |b|
  {
    SentGrows(json, disk, fs, sent, b);
    if b != [] && ReadResponse(json, b[0]).Some? {
      var resp := ReadResponse(json, b[0]).value;
      if resp.kind == "Need" && Answer(disk, fs, resp.need).Some? {
        var more := sent + [Ask(json, UPLOAD, Answer(disk, fs, resp.need).value)];
        ClientGrows(json, disk, fs, more, if a == [] then [] else a[1..], b[1..]);
      }
    }
  }

  /** After n rounds, in each of which both sides are given what the other had sent before. */
  ghost function Talk(f: seq<Packet> -> ServerRun, g: seq<Packet> -> ClientRun, n: nat): (ServerRun, ClientRun) {
    if n == 0 then (f([]), g([])) else (f(Talk(f, g, n - 1).1.sent), g(Talk(f, g, n - 1).0.sent))
  }

  /** Given more, neither side takes back what it has sent, and they do not send much. */
  ghost predicate SteadyAt(f: seq<Packet> -> ServerRun, g: seq<Packet> -> ClientRun, a: seq<Packet>, b: seq<Packet>) {
    a <= b ==>
      && f(a).sent <= f(b).sent && |f(b).sent| <= 3
      && g(a).sent <= g(b).sent && |g(b).sent| <= 1 + |b|
  }

  ghost predicate Steady(f: seq<Packet> -> ServerRun, g: seq<Packet> -> ClientRun) {
    forall a, b :: SteadyAt(f, g, a, b)
  }

  /** In each round both sides have said what they had, perhaps more, and not much. */
  ghost predicate Grown(p: (ServerRun, ClientRun), q: (ServerRun, ClientRun)) {
    p.0.sent <= q.0.sent && p.1.sent <= q.1.sent && |q.0.sent| <= 3 && |q.1.sent| <= 4
  }

  lemma {:induction false} TalkGrows(f: seq<Packet> -> ServerRun, g: seq<Packet> -> ClientRun, n: nat)
    requires Steady(f, g)
    ensures Grown(Talk(f, g, n), Talk(f, g, n + 1)) && |Talk(f, g, n).0.sent| <= 3
  {
    var r := Talk(f, g, n);
    if n == 0 {
      assert SteadyAt(f, g, [], r.1.sent) && SteadyAt(f, g, [], r.0.sent) && SteadyAt(f, g, [], []);
    } else {
      TalkGrows(f, g, n - 1);
      var p := Talk(f, g, n - 1);
      assert SteadyAt(f, g, p.1.sent, r.1.sent) && SteadyAt(f, g, p.0.sent, r.0.sent);
    }
  }

  /** How much both sides have said. */
  ghost function Said(r: (ServerRun, ClientRun)): nat {
    |r.0.sent| + |r.1.sent|
  }

  /** Every conversation comes to rest: n rounds that each said something are at most seven. */
  lemma {:induction false} RestFrom(f: seq<Packet> -> ServerRun, g: seq<Packet> -> ClientRun, n: nat) returns (m: nat)
    requires Steady(f, g) && n <= Said(Talk(f, g, n)) && n <= 7
    ensures m <= 8 && Talk(f, g, m) == (f(Talk(f, g, m).1.sent), g(Talk(f, g, m).0.sent))
    decreases 8 - n
  {
    var p, q := Talk(f, g, n), Talk(f, g, n + 1);
    TalkGrows(f, g, n);
    if Said(q) > Said(p) {
      m := RestFrom(f, g, n + 1);
    } else {
      assert p.0.sent == q.0.sent && p.1.sent == q.1.sent;
      m := n + 1;
    }
  }

  /** Every conversation of the two programs comes to rest within eight rounds. */
  lemma {:induction false} Settles(c: Setting) returns (n: nat)
    ensures n <= 8 && AtRest(c, Talk(c.Serves, c.Asks, n).0, Talk(c.Serves, c.Asks, n).1)
  {
    forall a, b ensures SteadyAt(c.Serves, c.Asks, a, b) {
      if a <= b {
        ServerGrows(c.json, c.digest, c.files, c.tmp, a, b);
        ClientGrows(c.json, c.disk, c.fs, [Ask(c.json, SetupOf(c.fs, c.args, c.dir), [])], a, b);
      }
    }
    n := RestFrom(c.Serves, c.Asks, 0);
  }
}
