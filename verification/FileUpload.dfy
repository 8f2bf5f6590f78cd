/**
 The multipart upload engine (api4/file.go).

 A request body is a sequence of form parts. The first pass reads it through a tee that copies what was read,
 until it meets either the `channel_id` value, and then replays the whole body in stream mode, or a file, and
 then replays the whole body through the buffered legacy form. Client ids are paired with files on the fly.

 `Scan` and `Legacy` say what each route does, step by step; the lemmas relate them to the plain specification
 "zip the files with the client ids" (`Zip`). Strings are byte strings.
 */
module FileUpload {
  import opened Wrappers

  /** A part of the body (RFC 7578, sections 4.2, 4.3 and 5.2), or the point where reading fails: at the next
      part's header, or inside the value of a form field. */
  datatype Part =
    | Part(formName: string, fileName: string, content: string)
    | BrokenPart
    | BrokenValue(formName: string)

  datatype Error =
    | ReadRequest
    | ReadFormValue(formName: string)
    | MultipleChannelIds
    | InvalidParam(name: string)
    | InvalidUrlParam(name: string)
    | PermissionDenied
    | UploadRefused
    | WrongNumberOfClientIds(ids: nat, files: nat)

  /** The arguments of one upload call that differ between the calls of one request. */
  datatype Upload = Upload(channelId: string, fileName: string, content: string, clientId: string)

  type FileInfo = nat

  /** What the request is handled against: `store(k, u)` is the answer to its k-th upload call, and `opens(i)` says
      whether the i-th file of a parsed form can be opened. */
  datatype Env = Env(
    mayUpload: string -> bool,
    store: (nat, Upload) -> Option<FileInfo>,
    opens: nat -> bool,
    maxFileSize: nat)

  datatype Response = Response(infos: seq<FileInfo>, clientIds: seq<string>)

  /** The reply, the channel id left in the request's parameters, and every upload call made, in order. */
  datatype Outcome = Outcome(reply: Result<Response, Error>, channelId: string, log: seq<Upload>)

  const MAX_MULTIPART_FORM_DATA_BYTES := 10 * 1024
  const FORM_OVERHEAD_BYTES := 10 * 1024 * 1024
  const ID_LENGTH := 26

  /** A form value is read up to a limit; what exceeds it is dropped without an error. */
  function Clip(v: string): string {
    if |v| <= MAX_MULTIPART_FORM_DATA_BYTES then v else v[..MAX_MULTIPART_FORM_DATA_BYTES]
  }

  predicate IsValue(p: Part) {
    p.Part? && p.formName != "" && p.fileName == ""
  }

  /** A named file part: both the form name and the file name are given. */
  predicate IsFile(p: Part) {
    p.Part? && p.formName != "" && p.fileName != ""
  }

  type FilePart = p: Part | IsFile(p) witness Part("files", "name", "")

  predicate IsValueOf(p: Part, name: string) {
    IsValue(p) && p.formName == name
  }

  predicate IsChannelId(p: Part) {
    IsValueOf(p, "channel_id")
  }

  predicate IsClientId(p: Part) {
    IsValueOf(p, "client_ids")
  }

  // ---------------------------------------------------------------------------------------------------------
  // The streaming route

  /** The local variables of the scanning loop. */
  datatype Acc = Acc(
    channelId: string,
    clientIds: seq<string>,
    nFiles: nat,
    expectClientIds: bool,
    resp: Response,
    log: seq<Upload>)
  {
    function Fail(e: Error): Outcome {
      Outcome(Err(e), channelId, log)
    }
  }

  function Start(channelId: string, log: seq<Upload>): Acc {
    Acc(channelId, [], 0, true, Response([], []), log)
  }

  /** What one part makes the loop do: go on with new variables, stop, replay the body in stream mode, or replay
      it through the buffered form. */
  datatype Move = Continue(next: Acc) | Stop(out: Outcome) | Replay(channelId: string) | Buffer

  function Advance(env: Env, p: Part, streaming: bool, acc: Acc): Move {
    match p
    case BrokenPart => Stop(acc.Fail(ReadRequest))
    case BrokenValue(name) => if name == "" then Continue(acc) else Stop(acc.Fail(ReadFormValue(name)))
    case Part(_, _, _) =>
      if p.formName == "" then Continue(acc)
      else if p.fileName == "" then TakeValue(p, streaming, acc)
      else if acc.channelId == "" && !streaming then Buffer
      else TakeFile(env, p, acc)
  }

  function TakeValue(p: Part, streaming: bool, acc: Acc): Move
    requires IsValue(p)
  {
    var v := Clip(p.content);
    if p.formName == "channel_id" then
      if acc.channelId != "" && acc.channelId != v then Stop(acc.Fail(MultipleChannelIds))
      else
        var channelId := if v != "" then v else acc.channelId;
        if streaming then Continue(acc.(channelId := channelId)) else Replay(channelId)
    else if p.formName == "client_ids" then
      if !acc.expectClientIds then Stop(acc.Fail(InvalidParam("client_ids")))
      else Continue(acc.(clientIds := acc.clientIds + [v]))
    else Stop(acc.Fail(InvalidParam(p.formName)))
  }

  function TakeFile(env: Env, p: FilePart, acc: Acc): Move {
    if |acc.channelId| != ID_LENGTH then Stop(acc.Fail(InvalidUrlParam("channel_id")))
    else if !env.mayUpload(acc.channelId) then Stop(acc.Fail(PermissionDenied))
    else
      var expecting := acc.expectClientIds && !(acc.nFiles == 0 && |acc.clientIds| == 0);
      if expecting && acc.nFiles >= |acc.clientIds| then Stop(acc.Fail(InvalidParam("client_ids")))
      else
        var clientId := if expecting then acc.clientIds[acc.nFiles] else "";
        var u := Upload(acc.channelId, p.fileName, p.content, clientId);
        var info := env.store(|acc.log|, u);
        if info.None? then Stop(Outcome(Err(UploadRefused), acc.channelId, acc.log + [u]))
        else
          Continue(Acc(acc.channelId, acc.clientIds, acc.nFiles + 1, expecting,
                       Response(acc.resp.infos + [info.value],
                                if expecting then acc.resp.clientIds + [clientId] else acc.resp.clientIds),
                       acc.log + [u]))
  }

  /** What is left to do with `rest`, the unread tail of the body `whole`. */
  function Scan(env: Env, whole: seq<Part>, rest: seq<Part>, streaming: bool, acc: Acc): Outcome
    decreases !streaming, |rest|
  {
    if rest == [] then Finish(acc)
    else
      match Advance(env, rest[0], streaming, acc)
      case Continue(next) => Scan(env, whole, rest[1..], streaming, next)
      case Stop(out) => out
      case Replay(channelId) => Scan(env, whole, whole, true, Start(channelId, acc.log))
      case Buffer => Legacy(env, whole, acc.log)
  }

  function Finish(acc: Acc): Outcome {
    if acc.expectClientIds && |acc.clientIds| != acc.nFiles
    then acc.Fail(WrongNumberOfClientIds(|acc.clientIds|, acc.nFiles))
    else Outcome(Ok(acc.resp), acc.channelId, acc.log)
  }

  // ---------------------------------------------------------------------------------------------------------
  // The buffered route

  predicate Readable(parts: seq<Part>) {
    forall p | p in parts :: p.Part?
  }

  /** Everything the form keeps in memory as values. */
  function ValueBytes(parts: seq<Part>): nat {
    if parts == [] then 0 else (if IsValue(parts[0]) then |parts[0].content| else 0) + ValueBytes(parts[1..])
  }

  /** The values of one form field, in body order. */
  function Values(parts: seq<Part>, name: string): seq<string> {
    if parts == [] then []
    else if IsValueOf(parts[0], name) then [parts[0].content] + Values(parts[1..], name)
    else Values(parts[1..], name)
  }

  /** The named file parts, in body order. */
  function Files(parts: seq<Part>): seq<FilePart> {
    if parts == [] then []
    else if IsFile(parts[0]) then [parts[0]] + Files(parts[1..])
    else Files(parts[1..])
  }

  /** The files of one form field, in body order. */
  function FilesOf(parts: seq<Part>, name: string): seq<FilePart> {
    if parts == [] then []
    else if IsFile(parts[0]) && parts[0].formName == name then [parts[0]] + FilesOf(parts[1..], name)
    else FilesOf(parts[1..], name)
  }

  function Legacy(env: Env, whole: seq<Part>, log: seq<Upload>): Outcome {
    if !Readable(whole) || ValueBytes(whole) > env.maxFileSize + FORM_OVERHEAD_BYTES then
      Outcome(Err(ReadRequest), "", log)
    else
      var channelIds, clientIds := Values(whole, "channel_id"), Values(whole, "client_ids");
      var files := FilesOf(whole, "files");
      if channelIds == [] then Outcome(Err(InvalidParam("channel_id")), "", log)
      else
        var channelId := channelIds[0];
        if |channelId| != ID_LENGTH then Outcome(Err(InvalidUrlParam("channel_id")), channelId, log)
        else if !env.mayUpload(channelId) then Outcome(Err(PermissionDenied), channelId, log)
        else if clientIds != [] && |clientIds| != |files| then
          Outcome(Err(WrongNumberOfClientIds(|clientIds|, |files|)), channelId, log)
        else
          UploadRest(env, channelId, files, clientIds, 0, Response([], []), log)
  }

  /** The loop over the file headers, from index `i` on. */
  function UploadRest(env: Env, channelId: string, files: seq<FilePart>, clientIds: seq<string>, i: nat,
                      resp: Response, log: seq<Upload>): Outcome
    requires clientIds == [] || |clientIds| == |files|
    requires i <= |files|
    decreases |files| - i
  {
    if i == |files| then Outcome(Ok(resp), channelId, log)
    else if !env.opens(i) then Outcome(Err(ReadRequest), channelId, log)
    else
      var clientId := if clientIds != [] then clientIds[i] else "";
      var u := Upload(channelId, files[i].fileName, files[i].content, clientId);
      var info := env.store(|log|, u);
      if info.None? then Outcome(Err(UploadRefused), channelId, log + [u])
      else
        UploadRest(env, channelId, files, clientIds, i + 1,
                   Response(resp.infos + [info.value],
                            if clientId != "" then resp.clientIds + [clientId] else resp.clientIds),
                   log + [u])
  }

  /** One request, from the empty upload log. */
  function Handle(env: Env, body: seq<Part>, channelId: string): Outcome {
    Scan(env, body, body, false, Start(channelId, []))
  }

  // ---------------------------------------------------------------------------------------------------------
  // The plain specification

  /** File i goes to the channel with client id i, or with no client id if there are none at all. */
  function Zip(channelId: string, files: seq<FilePart>, ids: seq<string>): (us: seq<Upload>)
    requires ids == [] || |ids| == |files|
    ensures |us| == |files|
  {
    seq(|files|, i requires 0 <= i < |files| =>
      Upload(channelId, files[i].fileName, files[i].content, if ids == [] then "" else ids[i]))
  }

  /** The client ids as the streaming route sees them. */
  function ClippedIds(parts: seq<Part>): seq<string> {
    if parts == [] then []
    else if IsClientId(parts[0]) then [Clip(parts[0].content)] + ClippedIds(parts[1..])
    else ClippedIds(parts[1..])
  }

  /** The upload calls carry these files, in this order. */
  ghost predicate Carries(log: seq<Upload>, files: seq<FilePart>)
  {
    |log| == |files| && forall k | 0 <= k < |log| :: log[k].fileName == files[k].fileName && log[k].content == files[k].content
  }

  /** `infos` are the answers to the upload calls from `first` on. */
  ghost predicate Answers(env: Env, log: seq<Upload>, first: nat, infos: seq<FileInfo>) {
    && |log| == first + |infos|
    && forall k | 0 <= k < |infos| :: env.store(first + k, log[first + k]) == Some(infos[k])
  }

  /** The j-th upload call of a run that began with the calls `before`: file, client id and answer belong together. */
  ghost predicate CallFits(env: Env, before: seq<Upload>, files: seq<FilePart>, acc: Acc, j: nat)
    requires |before| <= j < |acc.log| && acc.nFiles <= |files| && |acc.resp.infos| == acc.nFiles
    requires |acc.log| == |before| + acc.nFiles && (acc.expectClientIds ==> acc.nFiles <= |acc.clientIds|)
  {
    var k := j - |before|;
    && acc.log[j] == Upload(acc.channelId, files[k].fileName, files[k].content,
                            if acc.expectClientIds then acc.clientIds[k] else "")
    && env.store(j, acc.log[j]) == Some(acc.resp.infos[k])
  }

  /** What the loop's local variables satisfy whenever a part is about to be read: the first `nFiles` of `files`
      have been uploaded. */
  ghost predicate Inv(env: Env, before: seq<Upload>, files: seq<FilePart>, acc: Acc) {
    && acc.nFiles == |acc.resp.infos| <= |files| && |acc.log| == |before| + acc.nFiles && before <= acc.log
    && (acc.expectClientIds ==> acc.nFiles <= |acc.clientIds| && acc.resp.clientIds == acc.clientIds[..acc.nFiles])
    && (!acc.expectClientIds ==> acc.clientIds == [] && acc.resp.clientIds == [] && acc.nFiles > 0)
    && (acc.nFiles > 0 ==> |acc.channelId| == ID_LENGTH && env.mayUpload(acc.channelId))
    && forall j | |before| <= j < |acc.log| :: CallFits(env, before, files, acc, j)
  }

  lemma TakeFileKeepsInv(env: Env, before: seq<Upload>, files: seq<FilePart>, acc: Acc)
    requires Inv(env, before, files, acc) && acc.nFiles < |files|
    requires TakeFile(env, files[acc.nFiles], acc).Continue?
    ensures Inv(env, before, files, TakeFile(env, files[acc.nFiles], acc).next)
  {
    var next := TakeFile(env, files[acc.nFiles], acc).next;
    assert next.expectClientIds ==> next.resp.clientIds == next.clientIds[..next.nFiles];
    forall j | |before| <= j < |next.log| ensures CallFits(env, before, files, next, j) {
      if j < |acc.log| {
        assert CallFits(env, before, files, acc, j);
      }
    }
  }

  lemma AdvanceKeepsInv(env: Env, before: seq<Upload>, files: seq<FilePart>, p: Part, streaming: bool, acc: Acc)
    requires Inv(env, before, files, acc) && Advance(env, p, streaming, acc).Continue?
    requires IsFile(p) ==> acc.nFiles < |files| && files[acc.nFiles] == p
    ensures Inv(env, before, files, Advance(env, p, streaming, acc).next)
  {
    var next := Advance(env, p, streaming, acc).next;
    if IsFile(p) {
      TakeFileKeepsInv(env, before, files, acc);
    } else {
      assert next.nFiles == acc.nFiles && next.log == acc.log && next.resp == acc.resp;
      forall j | |before| <= j < |next.log| ensures CallFits(env, before, files, next, j) {
        assert CallFits(env, before, files, acc, j);
      }
    }
  }

  /** What a successful streaming run has done after the upload calls `before`. */
  ghost predicate Paired(env: Env, before: seq<Upload>, files: seq<FilePart>, ids: seq<string>, out: Outcome)
    requires out.reply.Ok?
  {
    && (ids == [] || |ids| == |files|)
    && out.log == before + Zip(out.channelId, files, ids)
    && Answers(env, out.log, |before|, out.reply.value.infos)
    && out.reply.value.clientIds == ids
    && (files != [] ==> |out.channelId| == ID_LENGTH && env.mayUpload(out.channelId))
  }

  lemma FinishPairs(env: Env, before: seq<Upload>, files: seq<FilePart>, acc: Acc)
    requires Inv(env, before, files, acc) && acc.nFiles == |files| && Finish(acc).reply.Ok?
    ensures Paired(env, before, files, acc.clientIds, Finish(acc))
  {
    var plan := Zip(acc.channelId, files, acc.clientIds);
    forall j | |before| <= j < |acc.log|
      ensures acc.log[j] == plan[j - |before|] && env.store(j, acc.log[j]) == Some(acc.resp.infos[j - |before|])
    {
      assert CallFits(env, before, files, acc, j);
    }
    assert acc.log == before + plan;
  }

  lemma {:induction false} StreamPairs(env: Env, whole: seq<Part>, rest: seq<Part>, acc: Acc,
                                       before: seq<Upload>, files: seq<FilePart>, ids: seq<string>)
    requires Inv(env, before, files, acc)
    requires files[acc.nFiles..] == Files(rest) && ids == acc.clientIds + ClippedIds(rest)
    requires Scan(env, whole, rest, true, acc).reply.Ok?
    ensures Paired(env, before, files, ids, Scan(env, whole, rest, true, acc))
    decreases |rest|
  {
    if rest == [] {
      assert ids == acc.clientIds;
      FinishPairs(env, before, files, acc);
    } else {
      var next := Advance(env, rest[0], true, acc).next;
      RemainingFiles(files, acc.nFiles, rest);
      AdvanceKeepsInv(env, before, files, rest[0], true, acc);
      AdvanceKeepsIds(env, rest, acc, ids);
      StreamPairs(env, whole, rest[1..], next, before, files, ids);
    }
  }

  lemma RemainingFiles(files: seq<FilePart>, n: nat, rest: seq<Part>)
    requires n <= |files| && files[n..] == Files(rest) && rest != []
    ensures IsFile(rest[0]) ==> n < |files| && files[n] == rest[0] && files[n + 1..] == Files(rest[1..])
    ensures !IsFile(rest[0]) ==> files[n..] == Files(rest[1..])
  {
    if IsFile(rest[0]) {
      assert files[n] == Files(rest)[0];
      assert files[n + 1..] == Files(rest)[1..];
    }
  }

  lemma AdvanceKeepsIds(env: Env, rest: seq<Part>, acc: Acc, ids: seq<string>)
    requires rest != [] && Advance(env, rest[0], true, acc).Continue?
    requires ids == acc.clientIds + ClippedIds(rest)
    ensures ids == Advance(env, rest[0], true, acc).next.clientIds + ClippedIds(rest[1..])
  {}

  /** The whole body in stream mode, after the upload calls `before`. */
  lemma StreamAll(env: Env, body: seq<Part>, channelId: string, before: seq<Upload>)
    requires Scan(env, body, body, true, Start(channelId, before)).reply.Ok?
    ensures Paired(env, before, Files(body), ClippedIds(body), Scan(env, body, body, true, Start(channelId, before)))
  {
    assert Files(body)[0..] == Files(body) && [] + ClippedIds(body) == ClippedIds(body);
    StreamPairs(env, body, body, Start(channelId, before), before, Files(body), ClippedIds(body));
  }

  // ---------------------------------------------------------------------------------------------------------
  // Which route a request without a channel id takes

  datatype Route = Streams(channelId: string) | Buffers | Ends | Fails(e: Error)

  /** Decided by the first part that is not a client id or nameless. */
  function RouteOf(parts: seq<Part>): Route {
    if parts == [] then Ends
    else
      var p := parts[0];
      match p
      case BrokenPart => Fails(ReadRequest)
      case BrokenValue(name) => if name == "" then RouteOf(parts[1..]) else Fails(ReadFormValue(name))
      case Part(_, _, _) =>
        if p.formName == "" || IsClientId(p) then RouteOf(parts[1..])
        else if IsChannelId(p) then Streams(Clip(p.content))
        else if IsFile(p) then Buffers
        else Fails(InvalidParam(p.formName))
  }

  /** How a request without a channel id ends, by its route: `before` are the upload calls made so far, `ids` all
      client ids of the body. The first pass itself uploads nothing, and the body it hands over is whole. */
  ghost predicate FollowsRoute(env: Env, whole: seq<Part>, route: Route, before: seq<Upload>, ids: seq<string>, out: Outcome) {
    match route
    case Streams(v) => out == Scan(env, whole, whole, true, Start(v, before))
    case Buffers => out == Legacy(env, whole, before)
    case Fails(e) => out == Outcome(Err(e), "", before)
    case Ends =>
      out == Outcome(if ids == [] then Ok(Response([], [])) else Err(WrongNumberOfClientIds(|ids|, 0)), "", before)
  }

  lemma {:induction false} FirstPass(env: Env, whole: seq<Part>, rest: seq<Part>, acc: Acc, ids: seq<string>)
    requires acc.channelId == "" && acc.expectClientIds && acc.nFiles == 0 && acc.resp == Response([], [])
    requires ids == acc.clientIds + ClippedIds(rest)
    ensures FollowsRoute(env, whole, RouteOf(rest), acc.log, ids, Scan(env, whole, rest, false, acc))
    decreases |rest|
  {
    if rest != [] && !rest[0].BrokenPart? && (rest[0].formName == "" || IsClientId(rest[0])) {
      var next := Advance(env, rest[0], false, acc).next;
      FirstPass(env, whole, rest[1..], next, ids);
    }
  }

  lemma RouteDecides(env: Env, body: seq<Part>)
    ensures FollowsRoute(env, body, RouteOf(body), [], ClippedIds(body), Handle(env, body, ""))
  {
    assert [] + ClippedIds(body) == ClippedIds(body);
    FirstPass(env, body, body, Start("", []), ClippedIds(body));
  }

  /** Exactly once: a successful request that went through stream mode has uploaded every named file part once, in
      body order, although a prefix of the body was parsed twice. File i went with client id i, or with none when
      there are none; all went to one channel the user may upload to; the reply lists the files and the ids. */
  lemma StreamUploadsExactlyOnce(env: Env, body: seq<Part>)
    requires RouteOf(body).Streams? && Handle(env, body, "").reply.Ok?
    ensures var out, files, ids := Handle(env, body, ""), Files(body), ClippedIds(body);
      && (ids == [] || |ids| == |files|)
      && out.log == Zip(out.channelId, files, ids)
      && out.reply.value.clientIds == ids
      && Answers(env, out.log, 0, out.reply.value.infos)
      && (files != [] ==> |out.channelId| == ID_LENGTH && env.mayUpload(out.channelId))
  {
    RouteDecides(env, body);
    StreamAll(env, body, RouteOf(body).channelId, []);
  }

  // ---------------------------------------------------------------------------------------------------------
  // Failing runs

  /** After the calls `before`, the calls in `log` carry `files[..n]`, all to one channel. */
  ghost predicate UploadedPrefix(files: seq<FilePart>, n: nat, before: seq<Upload>, log: seq<Upload>, channelId: string) {
    && n <= |files| && |log| == |before| + n && before <= log
    && Carries(log[|before|..], files[..n])
    && forall u | u in log[|before|..] :: u.channelId == channelId
  }

  lemma UploadedOneMore(p: FilePart, files: seq<FilePart>, n: nat, before: seq<Upload>, u: Upload,
                        log: seq<Upload>, channelId: string)
    requires UploadedPrefix(files, n, before + [u], log, channelId)
    requires u.fileName == p.fileName && u.content == p.content && u.channelId == channelId
    ensures UploadedPrefix([p] + files, n + 1, before, log, channelId)
  {
    assert log[|before|] == (before + [u])[|before|] == u;
    assert log[|before|..] == [u] + log[|before| + 1..];
    assert ([p] + files)[..n + 1] == [p] + files[..n];
  }

  lemma NothingMore(files: seq<FilePart>, log: seq<Upload>, channelId: string)
    ensures UploadedPrefix(files, 0, log, log, channelId)
  {}

  lemma {:induction false} StreamUploadsPrefix(env: Env, whole: seq<Part>, rest: seq<Part>, acc: Acc) returns (n: nat)
    ensures var out := Scan(env, whole, rest, true, acc);
      UploadedPrefix(Files(rest), n, acc.log, out.log, out.channelId)
    ensures acc.channelId != "" ==> Scan(env, whole, rest, true, acc).channelId == acc.channelId
    decreases |rest|
  {
    var out := Scan(env, whole, rest, true, acc);
    n := 0;
    if rest == [] {
      NothingMore([], out.log, out.channelId);
    } else {
      var p, tail, move := rest[0], rest[1..], Advance(env, rest[0], true, acc);
      if move.Continue? {
        n := StreamUploadsPrefix(env, whole, tail, move.next);
        if IsFile(p) {
          var u := move.next.log[|acc.log|];
          assert move.next.log == acc.log + [u];
          UploadedOneMore(p, Files(tail), n, acc.log, u, out.log, out.channelId);
          n := n + 1;
        }
      } else if out.log == acc.log {
        NothingMore(Files(rest), out.log, out.channelId);
      } else {
        var u := out.log[|acc.log|];
        assert out.log == acc.log + [u];
        NothingMore(Files(tail), out.log, out.channelId);
        UploadedOneMore(p, Files(tail), 0, acc.log, u, out.log, out.channelId);
        n := 1;
      }
    }
  }

  lemma {:induction false} LegacyUploadsPrefix(env: Env, channelId: string, files: seq<FilePart>, clientIds: seq<string>,
                                               i: nat, resp: Response, log: seq<Upload>) returns (n: nat)
    requires (clientIds == [] || |clientIds| == |files|) && i <= |files|
    ensures UploadedPrefix(files[i..], n, log, UploadRest(env, channelId, files, clientIds, i, resp, log).log, channelId)
    ensures UploadRest(env, channelId, files, clientIds, i, resp, log).channelId == channelId
    decreases |files| - i
  {
    var out := UploadRest(env, channelId, files, clientIds, i, resp, log);
    n := 0;
    if i == |files| || !env.opens(i) {
      NothingMore(files[i..], out.log, out.channelId);
    } else {
      var clientId := if clientIds != [] then clientIds[i] else "";
      var u := Upload(channelId, files[i].fileName, files[i].content, clientId);
      var info := env.store(|log|, u);
      if info.None? {
        NothingMore(files[i + 1..], out.log, out.channelId);
      } else {
        n := LegacyUploadsPrefix(env, channelId, files, clientIds, i + 1,
          Response(resp.infos + [info.value], if clientId != "" then resp.clientIds + [clientId] else resp.clientIds),
          log + [u]);
      }
      UploadedOneMore(files[i], files[i + 1..], n, log, u, out.log, out.channelId);
      assert [files[i]] + files[i + 1..] == files[i..];
      n := n + 1;
    }
  }

  /** At most once: however a request without a preset channel id ends, each named file part was handed to at most
      one upload call, in body order, all to one channel. The buffered route only looks at the field `files`. */
  lemma UploadsAtMostOnce(env: Env, body: seq<Part>) returns (n: nat)
    ensures var out := Handle(env, body, "");
      UploadedPrefix(if RouteOf(body).Buffers? then FilesOf(body, "files") else Files(body), n, [], out.log, out.channelId)
  {
    var start := Start("", []);
    RouteDecides(env, body);
    match RouteOf(body)
    case Streams(v) => n := StreamUploadsPrefix(env, body, body, Start(v, []));
    case Buffers =>
      var out := Legacy(env, body, []);
      NothingMore(FilesOf(body, "files"), out.log, out.channelId);
      n := 0;
      if out.log != [] {
        var ids, files := Values(body, "client_ids"), FilesOf(body, "files");
        n := LegacyUploadsPrefix(env, Values(body, "channel_id")[0], files, ids, 0, Response([], []), []);
        assert files[0..] == files;
      }
    case _ =>
      NothingMore(Files(body), [], "");
      n := 0;
  }

  // ---------------------------------------------------------------------------------------------------------
  // The two routes agree

  ghost predicate Accepted(env: Env, us: seq<Upload>) {
    forall k | 0 <= k < |us| :: env.store(k, us[k]).Some?
  }

  /** The buffered loop, when every planned upload is accepted: the first `i` of them have been made. */
  lemma {:induction false} LegacyLoop(env: Env, channelId: string, files: seq<FilePart>, ids: seq<string>, plan: seq<Upload>,
                                      i: nat, resp: Response)
    requires (ids == [] || |ids| == |files|) && forall id | id in ids :: id != ""
    requires plan == Zip(channelId, files, ids) && Accepted(env, plan) && i <= |files|
    requires forall k | 0 <= k < |files| :: env.opens(k)
    requires resp.clientIds == if ids == [] then [] else ids[..i]
    requires Answers(env, plan[..i], 0, resp.infos)
    ensures var out := UploadRest(env, channelId, files, ids, i, resp, plan[..i]);
      && out.reply.Ok? && out.channelId == channelId && out.log == plan
      && out.reply.value.clientIds == ids
      && Answers(env, plan, 0, out.reply.value.infos)
    decreases |files| - i
  {
    if i == |files| {
      assert plan[..i] == plan;
    } else {
      var u, info := plan[i], env.store(i, plan[i]);
      assert plan[..i] + [u] == plan[..i + 1];
      assert ids != [] ==> ids[i] in ids && ids[..i] + [ids[i]] == ids[..i + 1];
      LegacyLoop(env, channelId, files, ids, plan, i + 1,
        Response(resp.infos + [info.value], if u.clientId != "" then resp.clientIds + [u.clientId] else resp.clientIds));
    }
  }

  lemma {:induction false} ShortIdsAreNotClipped(parts: seq<Part>)
    requires forall v | v in Values(parts, "client_ids") :: |v| <= MAX_MULTIPART_FORM_DATA_BYTES
    ensures ClippedIds(parts) == Values(parts, "client_ids")
  {
    if parts != [] {
      assert IsClientId(parts[0]) ==> Values(parts, "client_ids")[0] == parts[0].content;
      ShortIdsAreNotClipped(parts[1..]);
    }
  }

  lemma {:induction false} AllFilesInOneField(parts: seq<Part>, name: string)
    requires forall f | f in Files(parts) :: f.formName == name
    ensures FilesOf(parts, name) == Files(parts)
  {
    if parts != [] {
      assert IsFile(parts[0]) ==> Files(parts)[0].formName == name;
      AllFilesInOneField(parts[1..], name);
    }
  }

  lemma {:induction false} BufferingNeedsAFile(parts: seq<Part>)
    requires RouteOf(parts).Buffers?
    ensures Files(parts) != []
  {
    if !IsFile(parts[0]) {
      BufferingNeedsAFile(parts[1..]);
    }
  }

  /** The channel id a streaming run ends with is the one it began with or a `channel_id` value of the body. */
  lemma {:induction false} ChannelIdOrigin(env: Env, whole: seq<Part>, rest: seq<Part>, acc: Acc)
    ensures var id := Scan(env, whole, rest, true, acc).channelId;
      id == acc.channelId || exists v :: v in Values(rest, "channel_id") && id == Clip(v)
    decreases |rest|
  {
    if rest != [] && Advance(env, rest[0], true, acc).Continue? {
      var next := Advance(env, rest[0], true, acc).next;
      ChannelIdOrigin(env, whole, rest[1..], next);
      if IsChannelId(rest[0]) && next.channelId != acc.channelId {
        assert rest[0].content in Values(rest, "channel_id");
      }
    }
  }

  lemma {:induction false} StreamsTheFirstChannelId(parts: seq<Part>)
    requires RouteOf(parts).Streams?
    ensures Values(parts, "channel_id") != [] && RouteOf(parts).channelId == Clip(Values(parts, "channel_id")[0])
  {
    if !IsChannelId(parts[0]) {
      StreamsTheFirstChannelId(parts[1..]);
    }
  }

  lemma StreamedChannelId(env: Env, body: seq<Part>, channelId: string)
    requires RouteOf(body).Streams? && Handle(env, body, "").reply.Ok?
    requires Values(body, "channel_id") == [channelId] && Files(body) != []
    ensures Handle(env, body, "").channelId == channelId
  {
    RouteDecides(env, body);
    StreamUploadsExactlyOnce(env, body);
    StreamsTheFirstChannelId(body);
    ChannelIdOrigin(env, body, body, Start(Clip(channelId), []));
  }

  /** If stream mode accepts a body, the buffered route accepts every body that has a file before its channel id
      but the same files, client ids and channel id in their own orders, and ends the same way: same reply, same
      upload calls in the same order, same channel. Client ids are non-empty and not clipped, files are in the
      field `files` and can be opened, and the values fit in the form. */
  lemma TwoRoutesAgree(env: Env, streamed: seq<Part>, buffered: seq<Part>, channelId: string)
    requires RouteOf(streamed).Streams? && Handle(env, streamed, "").reply.Ok?
    requires RouteOf(buffered).Buffers? && Readable(buffered)
    requires ValueBytes(buffered) <= env.maxFileSize + FORM_OVERHEAD_BYTES
    requires Values(streamed, "channel_id") == Values(buffered, "channel_id") == [channelId]
    requires Values(streamed, "client_ids") == Values(buffered, "client_ids")
    requires forall v | v in Values(streamed, "client_ids") :: 0 < |v| <= MAX_MULTIPART_FORM_DATA_BYTES
    requires Files(streamed) == Files(buffered)
    requires forall f | f in Files(streamed) :: f.formName == "files"
    requires forall k | 0 <= k < |Files(buffered)| :: env.opens(k)
    ensures Handle(env, buffered, "") == Handle(env, streamed, "")
  {
    var ids, files := Values(buffered, "client_ids"), Files(buffered);
    BufferingNeedsAFile(buffered);
    AllFilesInOneField(buffered, "files");
    ShortIdsAreNotClipped(streamed);
    StreamUploadsExactlyOnce(env, streamed);
    StreamedChannelId(env, streamed, channelId);
    RouteDecides(env, buffered);
    var s, b := Handle(env, streamed, ""), Handle(env, buffered, "");
    var plan := Zip(channelId, files, ids);
    assert plan[..0] == [];
    forall k | 0 <= k < |plan| ensures env.store(k, plan[k]).Some? {
      assert env.store(0 + k, s.log[0 + k]) == Some(s.reply.value.infos[k]);
    }
    LegacyLoop(env, channelId, files, ids, plan, 0, Response([], []));
    assert b == UploadRest(env, channelId, files, ids, 0, Response([], []), []);
    AnswersAreDetermined(env, s.log, s.reply.value.infos, b.reply.value.infos);
  }

  lemma AnswersAreDetermined(env: Env, log: seq<Upload>, infos1: seq<FileInfo>, infos2: seq<FileInfo>)
    requires Answers(env, log, 0, infos1) && Answers(env, log, 0, infos2)
    ensures infos1 == infos2
  {
    forall k | 0 <= k < |log| ensures infos1[k] == infos2[k] {
      assert env.store(0 + k, log[0 + k]) == Some(infos1[k]);
      assert env.store(0 + k, log[0 + k]) == Some(infos2[k]);
    }
  }

  // ---------------------------------------------------------------------------------------------------------
  // A channel id that is set before the body is read

  predicate HasChannelId(parts: seq<Part>) {
    parts != [] && (IsChannelId(parts[0]) || HasChannelId(parts[1..]))
  }

  /** The parts before the first `channel_id` value. */
  function Before(parts: seq<Part>): seq<Part> {
    if parts == [] || IsChannelId(parts[0]) then [] else [parts[0]] + Before(parts[1..])
  }

  /** Without a `channel_id` part, the first pass with a preset id is stream mode itself. */
  lemma {:induction false} PresetWithoutPart(env: Env, whole: seq<Part>, rest: seq<Part>, acc: Acc)
    requires acc.channelId != "" && !HasChannelId(rest)
    ensures Scan(env, whole, rest, false, acc) == Scan(env, whole, rest, true, acc)
    decreases |rest|
  {
    if rest != [] && Advance(env, rest[0], true, acc).Continue? {
      PresetWithoutPart(env, whole, rest[1..], Advance(env, rest[0], true, acc).next);
    }
  }

  lemma FirstPassKeepsChannel(env: Env, p: Part, acc: Acc)
    requires acc.channelId != "" && !IsChannelId(p) && Advance(env, p, false, acc).Continue?
    ensures var next := Advance(env, p, false, acc).next;
      && next.channelId == acc.channelId
      && (!IsFile(p) ==> next.log == acc.log)
      && (IsFile(p) ==>
            && |next.log| == |acc.log| + 1 && next.log == acc.log + [next.log[|acc.log|]]
            && next.log[|acc.log|].fileName == p.fileName && next.log[|acc.log|].content == p.content)
  {}

  /** With one, the first pass uploads the files before it (calls `log`), and then all files are replayed. */
  lemma {:induction false} PresetWithPart(env: Env, whole: seq<Part>, rest: seq<Part>, acc: Acc) returns (log: seq<Upload>)
    requires acc.channelId != "" && HasChannelId(rest) && Scan(env, whole, rest, false, acc).reply.Ok?
    ensures UploadedPrefix(Files(Before(rest)), |Files(Before(rest))|, acc.log, log, acc.channelId)
    ensures Scan(env, whole, rest, false, acc) == Scan(env, whole, whole, true, Start(acc.channelId, log))
    decreases |rest|
  {
    if IsChannelId(rest[0]) {
      log := acc.log;
      NothingMore([], log, acc.channelId);
    } else {
      var p, tail, next := rest[0], rest[1..], Advance(env, rest[0], false, acc).next;
      FirstPassKeepsChannel(env, p, acc);
      log := PresetWithPart(env, whole, tail, next);
      assert Before(rest)[0] == p && Before(rest)[1..] == Before(tail);
      if IsFile(p) {
        var early := Files(Before(tail));
        UploadedOneMore(p, early, |early|, acc.log, next.log[|acc.log|], log, acc.channelId);
      }
    }
  }

  /** What a successful request uploads, for every initial channel id. */
  function UploadedFiles(body: seq<Part>, channelId: string): seq<FilePart> {
    if channelId == "" then (if RouteOf(body).Buffers? then FilesOf(body, "files") else Files(body))
    else (if HasChannelId(body) then Files(Before(body)) else []) + Files(body)
  }

  lemma ZipCarries(channelId: string, files: seq<FilePart>, ids: seq<string>, before: seq<Upload>, early: seq<FilePart>)
    requires (ids == [] || |ids| == |files|) && Carries(before, early)
    ensures Carries(before + Zip(channelId, files, ids), early + files)
  {}

  lemma SuccessUploads(env: Env, body: seq<Part>, channelId: string)
    requires Handle(env, body, channelId).reply.Ok?
    ensures Carries(Handle(env, body, channelId).log, UploadedFiles(body, channelId))
  {
    var start, out := Start(channelId, []), Handle(env, body, channelId);
    if channelId != "" {
      if HasChannelId(body) {
        var early := PresetWithPart(env, body, body, start);
        assert early[0..] == early && Files(Before(body))[..|early|] == Files(Before(body));
        StreamAll(env, body, channelId, early);
        ZipCarries(out.channelId, Files(body), ClippedIds(body), early, Files(Before(body)));
      } else {
        PresetWithoutPart(env, body, body, start);
        StreamAll(env, body, channelId, []);
        ZipCarries(out.channelId, Files(body), ClippedIds(body), [], []);
        assert [] + Files(body) == Files(body);
      }
    } else {
      RouteDecides(env, body);
      match RouteOf(body)
      case Streams(_) =>
        StreamUploadsExactlyOnce(env, body);
      case Buffers =>
        LegacySuccessCarries(env, body);
      case _ =>
        NoFilesWithoutRoute(body);
    }
  }

  lemma LegacySuccessCarries(env: Env, body: seq<Part>)
    requires Legacy(env, body, []).reply.Ok?
    ensures Carries(Legacy(env, body, []).log, FilesOf(body, "files"))
  {
    var files := FilesOf(body, "files");
    var channelId, ids := Values(body, "channel_id")[0], Values(body, "client_ids");
    var n := LegacyUploadsPrefix(env, channelId, files, ids, 0, Response([], []), []);
    LegacyOkMeansAll(env, channelId, files, ids, 0, Response([], []), []);
    var log := Legacy(env, body, []).log;
    assert log[0..] == log && files[0..] == files && files[..|files|] == files;
  }

  lemma {:induction false} LegacyOkMeansAll(env: Env, channelId: string, files: seq<FilePart>, ids: seq<string>,
                                            i: nat, resp: Response, log: seq<Upload>)
    requires (ids == [] || |ids| == |files|) && i <= |files|
    requires UploadRest(env, channelId, files, ids, i, resp, log).reply.Ok?
    ensures |UploadRest(env, channelId, files, ids, i, resp, log).log| == |log| + |files| - i
    decreases |files| - i
  {
    if i < |files| {
      var clientId := if ids != [] then ids[i] else "";
      var u := Upload(channelId, files[i].fileName, files[i].content, clientId);
      LegacyOkMeansAll(env, channelId, files, ids, i + 1,
        Response(resp.infos + [env.store(|log|, u).value], if clientId != "" then resp.clientIds + [clientId] else resp.clientIds),
        log + [u]);
    }
  }

  lemma {:induction false} NoFilesWithoutRoute(parts: seq<Part>)
    requires RouteOf(parts).Ends?
    ensures Files(parts) == []
  {
    if parts != [] {
      NoFilesWithoutRoute(parts[1..]);
    }
  }

  lemma {:induction false} FilesOfAtMost(parts: seq<Part>, name: string)
    ensures |FilesOf(parts, name)| <= |Files(parts)|
    ensures |FilesOf(parts, name)| == |Files(parts)| ==> forall f | f in Files(parts) :: f.formName == name
  {
    if parts != [] {
      FilesOfAtMost(parts[1..], name);
    }
  }

  /** Exactly once, for every request: a successful request uploads each named file part exactly once, in body
      order, if and only if
      - it came without a channel id and is not buffered, or is and has all its files in the field `files`; or
      - it came with one and no file precedes a `channel_id` part (otherwise that file is uploaded again). */
  lemma ExactlyOnceIff(env: Env, body: seq<Part>, channelId: string)
    requires Handle(env, body, channelId).reply.Ok?
    ensures Carries(Handle(env, body, channelId).log, Files(body)) <==>
      if channelId == "" then RouteOf(body).Buffers? ==> forall f | f in Files(body) :: f.formName == "files"
      else HasChannelId(body) ==> Files(Before(body)) == []
  {
    SuccessUploads(env, body, channelId);
    FilesOfAtMost(body, "files");
    if forall f | f in Files(body) :: f.formName == "files" {
      AllFilesInOneField(body, "files");
    }
    if channelId != "" && !(HasChannelId(body) && Files(Before(body)) != []) {
      assert UploadedFiles(body, channelId) == Files(body);
    }
  }

  /** With the channel id set beforehand, a body with a file and then that channel id uploads the file twice. */
  lemma UploadedTwice(env: Env, channelId: string, name: string, content: string)
    requires |channelId| == ID_LENGTH && env.mayUpload(channelId) && name != ""
    requires forall k, u :: env.store(k, u).Some?
    ensures var body := [Part("files", name, content), Part("channel_id", "", channelId)];
      var out, u := Handle(env, body, channelId), Upload(channelId, name, content, "");
      out.reply.Ok? && out.log == [u, u]
  {
    var file, id := Part("files", name, content), Part("channel_id", "", channelId);
    var body, u := [file, id], Upload(channelId, name, content, "");
    assert body[1..] == [id] && [id][1..] == [];
    var first := Advance(env, file, false, Start(channelId, [])).next;
    assert first.log == [u];
    assert Advance(env, id, false, first) == Replay(channelId);
    assert Handle(env, body, channelId) == Scan(env, body, [id], false, first);
    assert Scan(env, body, [id], false, first) == Scan(env, body, body, true, Start(channelId, [u]));
    var second := Advance(env, file, true, Start(channelId, [u])).next;
    assert second.log == [u, u];
    assert Advance(env, id, true, second) == Continue(second);
    assert Scan(env, body, body, true, Start(channelId, [u])) == Scan(env, body, [id], true, second);
    assert Scan(env, body, [id], true, second) == Finish(second);
  }

  // ---------------------------------------------------------------------------------------------------------
  // Only to permitted channels

  ghost predicate Permitted(env: Env, u: Upload) {
    |u.channelId| == ID_LENGTH && env.mayUpload(u.channelId)
  }

  /** Calls have been added, all of them to channels that the session may upload to. */
  ghost predicate PermittedSince(env: Env, before: seq<Upload>, log: seq<Upload>) {
    before <= log && forall k | |before| <= k < |log| :: Permitted(env, log[k])
  }

  lemma {:induction false} RestPermitted(env: Env, channelId: string, files: seq<FilePart>, ids: seq<string>, i: nat,
                                         resp: Response, log: seq<Upload>)
    requires (ids == [] || |ids| == |files|) && i <= |files| && |channelId| == ID_LENGTH && env.mayUpload(channelId)
    ensures PermittedSince(env, log, UploadRest(env, channelId, files, ids, i, resp, log).log)
    decreases |files| - i
  {
    if i < |files| && env.opens(i) {
      var clientId := if ids != [] then ids[i] else "";
      var u := Upload(channelId, files[i].fileName, files[i].content, clientId);
      var info := env.store(|log|, u);
      if info.Some? {
        RestPermitted(env, channelId, files, ids, i + 1,
          Response(resp.infos + [info.value], if clientId != "" then resp.clientIds + [clientId] else resp.clientIds),
          log + [u]);
      }
    }
  }

  lemma LegacyPermitted(env: Env, whole: seq<Part>, log: seq<Upload>)
    ensures PermittedSince(env, log, Legacy(env, whole, log).log)
  {
    var channelIds, ids, files := Values(whole, "channel_id"), Values(whole, "client_ids"), FilesOf(whole, "files");
    if channelIds != [] && |channelIds[0]| == ID_LENGTH && env.mayUpload(channelIds[0]) && (ids == [] || |ids| == |files|) {
      RestPermitted(env, channelIds[0], files, ids, 0, Response([], []), log);
    }
  }

  lemma {:induction false} ScanPermitted(env: Env, whole: seq<Part>, rest: seq<Part>, streaming: bool, acc: Acc)
    ensures PermittedSince(env, acc.log, Scan(env, whole, rest, streaming, acc).log)
    decreases !streaming, |rest|
  {
    if rest != [] {
      match Advance(env, rest[0], streaming, acc)
      case Continue(next) => ScanPermitted(env, whole, rest[1..], streaming, next);
      case Replay(channelId) => ScanPermitted(env, whole, whole, true, Start(channelId, acc.log));
      case Buffer => LegacyPermitted(env, whole, acc.log);
      case Stop(_) =>
    }
  }

  /** Whatever the body, the initial channel id and the outcome, every upload call is to a channel with a proper id that
      the session may upload to. */
  lemma UploadsArePermitted(env: Env, body: seq<Part>, channelId: string)
    ensures forall u | u in Handle(env, body, channelId).log :: |u.channelId| == ID_LENGTH && env.mayUpload(u.channelId)
  {
    ScanPermitted(env, body, body, false, Start(channelId, []));
  }

  /** What each error tells: about the channel id the request ended with, its last upload call, or its body. */
  ghost predicate HasReason(env: Env, body: seq<Part>, out: Outcome)
    requires out.reply.Err?
  {
    match out.reply.error
    case PermissionDenied => |out.channelId| == ID_LENGTH && !env.mayUpload(out.channelId)
    case InvalidUrlParam(name) => name == "channel_id" && |out.channelId| != ID_LENGTH
    case MultipleChannelIds =>
      out.channelId != "" && exists p :: p in body && IsChannelId(p) && Clip(p.content) != out.channelId
    case UploadRefused => out.log != [] && env.store(|out.log| - 1, out.log[|out.log| - 1]).None?
    case WrongNumberOfClientIds(ids, files) => ids != files
    case InvalidParam(name) =>
      || (name == "client_ids" && exists p :: p in body && IsFile(p))
      || (name == "client_ids" && exists p :: p in body && IsClientId(p))
      || (name == "channel_id" && Values(body, "channel_id") == [])
      || (name != "client_ids" && name != "channel_id" && exists p :: p in body && IsValueOf(p, name))
    case ReadFormValue(name) => BrokenValue(name) in body
    case ReadRequest =>
      || !Readable(body) || ValueBytes(body) > env.maxFileSize + FORM_OVERHEAD_BYTES
      || exists i: nat :: !env.opens(i)
  }

  lemma AdvanceHasReason(env: Env, body: seq<Part>, p: Part, streaming: bool, acc: Acc)
    requires p in body && Advance(env, p, streaming, acc).Stop?
    ensures var out := Advance(env, p, streaming, acc).out;
      out.reply.Err? && HasReason(env, body, out)
  {}

  lemma {:induction false} UploadRestHasReason(env: Env, body: seq<Part>, channelId: string, files: seq<FilePart>,
                                               clientIds: seq<string>, i: nat, resp: Response, log: seq<Upload>)
    requires (clientIds == [] || |clientIds| == |files|) && i <= |files|
    ensures var out := UploadRest(env, channelId, files, clientIds, i, resp, log);
      out.reply.Err? ==> HasReason(env, body, out)
    decreases |files| - i
  {
    if i < |files| && env.opens(i) {
      var clientId := if clientIds != [] then clientIds[i] else "";
      var u := Upload(channelId, files[i].fileName, files[i].content, clientId);
      var info := env.store(|log|, u);
      if info.Some? {
        UploadRestHasReason(env, body, channelId, files, clientIds, i + 1,
                            Response(resp.infos + [info.value],
                                     if clientId != "" then resp.clientIds + [clientId] else resp.clientIds),
                            log + [u]);
      }
    }
  }

  lemma LegacyHasReason(env: Env, body: seq<Part>, log: seq<Upload>)
    ensures Legacy(env, body, log).reply.Err? ==> HasReason(env, body, Legacy(env, body, log))
  {
    var channelIds, clientIds := Values(body, "channel_id"), Values(body, "client_ids");
    var files := FilesOf(body, "files");
    if channelIds != [] && (clientIds == [] || |clientIds| == |files|) {
      UploadRestHasReason(env, body, channelIds[0], files, clientIds, 0, Response([], []), log);
    }
  }

  lemma {:induction false} ScanHasReason(env: Env, whole: seq<Part>, rest: seq<Part>, streaming: bool, acc: Acc)
    requires forall p | p in rest :: p in whole
    ensures var out := Scan(env, whole, rest, streaming, acc);
      out.reply.Err? ==> HasReason(env, whole, out)
    decreases !streaming, |rest|
  {
    hide HasReason, Advance, Legacy;
    if rest == [] {
      FinishHasReason(env, whole, acc);
    } else {
      assert rest[0] in whole;
      match Advance(env, rest[0], streaming, acc)
      case Continue(next) => ScanHasReason(env, whole, rest[1..], streaming, next);
      case Replay(channelId) =>
        ReplayedOnce(env, rest[0], streaming, acc);
        ScanHasReason(env, whole, whole, true, Start(channelId, acc.log));
      case Buffer => LegacyHasReason(env, whole, acc.log);
      case Stop(_) => AdvanceHasReason(env, whole, rest[0], streaming, acc);
    }
  }

  lemma ReplayedOnce(env: Env, p: Part, streaming: bool, acc: Acc)
    requires Advance(env, p, streaming, acc).Replay?
    ensures !streaming
  {}

  lemma FinishHasReason(env: Env, body: seq<Part>, acc: Acc)
    ensures Finish(acc).reply.Err? ==> HasReason(env, body, Finish(acc))
  {}

  /** A refused request is refused for the reason its error gives. */
  lemma RefusalsHaveReasons(env: Env, body: seq<Part>, channelId: string)
    ensures Handle(env, body, channelId).reply.Err? ==> HasReason(env, body, Handle(env, body, channelId))
  {
    ScanHasReason(env, body, body, false, Start(channelId, []));
  }

  // ---------------------------------------------------------------------------------------------------------
  // Which requests are accepted

  /** Nothing in these parts makes stream mode fail on its own: no broken part, no form values but client ids and the
      one channel id. */
  ghost predicate Clean(parts: seq<Part>, channelId: string) {
    && (forall p | p in parts :: p.Part? || (p.BrokenValue? && p.formName == ""))
    && (forall p | p in parts && IsValue(p) ::
          p.formName == "client_ids" || (p.formName == "channel_id" && Clip(p.content) == channelId))
  }

  /** After `ids` client ids and `files` files: each further file comes after its client id, and in the end there are as
      many of them. */
  predicate IdsAhead(parts: seq<Part>, ids: nat, files: nat) {
    if parts == [] then ids == files
    else if IsClientId(parts[0]) then IdsAhead(parts[1..], ids + 1, files)
    else if IsFile(parts[0]) then ids > files && IdsAhead(parts[1..], ids, files + 1)
    else IdsAhead(parts[1..], ids, files)
  }

  /** The upload calls for these files, from the `calls`-th call on, with the client ids from the `first`-th on, are all
      accepted. */
  ghost predicate StoreTakes(env: Env, calls: nat, channelId: string, files: seq<FilePart>, ids: seq<string>, first: nat) {
    forall j | 0 <= j < |files| ::
      env.store(calls + j, Upload(channelId, files[j].fileName, files[j].content,
                                  if first + j < |ids| then ids[first + j] else "")).Some?
  }

  ghost predicate StreamTakes(env: Env, rest: seq<Part>, acc: Acc) {
    var files, ids := Files(rest), acc.clientIds + ClippedIds(rest);
    && Clean(rest, acc.channelId)
    && (files != [] ==> |acc.channelId| == ID_LENGTH && env.mayUpload(acc.channelId))
    && (ids == [] || (acc.expectClientIds && IdsAhead(rest, |acc.clientIds|, acc.nFiles)))
    && StoreTakes(env, |acc.log|, acc.channelId, files, ids, acc.nFiles)
  }

  ghost predicate LoopState(acc: Acc) {
    && acc.channelId != ""
    && if acc.expectClientIds then acc.nFiles <= |acc.clientIds| else acc.clientIds == [] && acc.nFiles > 0
  }

  lemma CleanHead(p: Part, rest: seq<Part>, channelId: string)
    ensures Clean([p] + rest, channelId) <==> Clean([p], channelId) && Clean(rest, channelId)
  {}

  lemma StoreTakesHead(env: Env, calls: nat, channelId: string, files: seq<FilePart>, ids: seq<string>, first: nat)
    requires files != []
    ensures StoreTakes(env, calls, channelId, files, ids, first) <==>
      && env.store(calls, Upload(channelId, files[0].fileName, files[0].content, if first < |ids| then ids[first] else "")).Some?
      && StoreTakes(env, calls + 1, channelId, files[1..], ids, first + 1)
  {
    if StoreTakes(env, calls, channelId, files, ids, first) {
      forall j | 0 <= j < |files[1..]|
        ensures env.store(calls + 1 + j, Upload(channelId, files[1..][j].fileName, files[1..][j].content,
                  if first + 1 + j < |ids| then ids[first + 1 + j] else "")).Some?
      {
        assert files[1..][j] == files[j + 1] && calls + 1 + j == calls + (j + 1) && first + 1 + j == first + (j + 1);
      }
    } else {
      var j :| 0 <= j < |files| && env.store(calls + j, Upload(channelId, files[j].fileName, files[j].content,
                 if first + j < |ids| then ids[first + j] else "")).None?;
      if j > 0 {
        assert files[1..][j - 1] == files[j] && calls + 1 + (j - 1) == calls + j && first + 1 + (j - 1) == first + j;
      }
    }
  }

  /** One part that is no file. */
  lemma ValueTaken(env: Env, p: Part, rest: seq<Part>, acc: Acc)
    requires LoopState(acc) && !IsFile(p)
    ensures StreamTakes(env, [p] + rest, acc) <==>
      Advance(env, p, true, acc).Continue? && StreamTakes(env, rest, Advance(env, p, true, acc).next)
    ensures Advance(env, p, true, acc).Continue? ==> LoopState(Advance(env, p, true, acc).next)
  {
    hide StoreTakes, Clean;
    CleanHead(p, rest, acc.channelId);
    CleanPart(p, acc.channelId);
    assert ([p] + rest)[1..] == rest;
    if IsClientId(p) {
      var id := Clip(p.content);
      assert acc.clientIds + ([id] + ClippedIds(rest)) == acc.clientIds + [id] + ClippedIds(rest);
    }
  }

  lemma CleanPart(p: Part, channelId: string)
    ensures Clean([p], channelId) <==>
      && (p.Part? || (p.BrokenValue? && p.formName == ""))
      && (IsValue(p) ==> p.formName == "client_ids" || (p.formName == "channel_id" && Clip(p.content) == channelId))
  {
    assert p in [p];
  }

  /** One file. */
  lemma FileTaken(env: Env, p: FilePart, rest: seq<Part>, acc: Acc)
    requires LoopState(acc)
    ensures StreamTakes(env, [p] + rest, acc) <==>
      Advance(env, p, true, acc).Continue? && StreamTakes(env, rest, Advance(env, p, true, acc).next)
    ensures Advance(env, p, true, acc).Continue? ==> LoopState(Advance(env, p, true, acc).next)
  {
    hide StoreTakes, Clean;
    CleanHead(p, rest, acc.channelId);
    CleanPart(p, acc.channelId);
    assert ([p] + rest)[1..] == rest;
    var files, ids := Files([p] + rest), acc.clientIds + ClippedIds(rest);
    assert files == [p] + Files(rest) && files[1..] == Files(rest) && ClippedIds([p] + rest) == ClippedIds(rest);
    StoreTakesHead(env, |acc.log|, acc.channelId, files, ids, acc.nFiles);
    if acc.nFiles < |acc.clientIds| {
      assert ids[acc.nFiles] == acc.clientIds[acc.nFiles];
    }
  }

  /** From any state of the scanning loop in stream mode. */
  lemma {:induction false} ScanTakesIff(env: Env, whole: seq<Part>, rest: seq<Part>, acc: Acc)
    requires LoopState(acc)
    ensures Scan(env, whole, rest, true, acc).reply.Ok? <==> StreamTakes(env, rest, acc)
    decreases |rest|
  {
    if rest == [] {
      assert acc.clientIds + [] == acc.clientIds;
    } else {
      hide StreamTakes, LoopState;
      var p, tail := rest[0], rest[1..];
      assert rest == [p] + tail;
      if IsFile(p) {
        FileTaken(env, p, tail, acc);
      } else {
        ValueTaken(env, p, tail, acc);
      }
      if Advance(env, p, true, acc).Continue? {
        ScanTakesIff(env, whole, tail, Advance(env, p, true, acc).next);
      }
    }
  }

  /** Which streamed requests are accepted, on the body alone: those without broken parts or other form values, with one
      channel id, permitted if there are files, with no client ids or each before its file and one per file, if the
      store takes each file. */
  lemma StreamAcceptsIff(env: Env, body: seq<Part>, channelId: string)
    requires RouteOf(body) == Streams(channelId) && channelId != ""
    ensures Handle(env, body, "").reply.Ok? <==>
      var files, ids := Files(body), ClippedIds(body);
      && Clean(body, channelId)
      && (files != [] ==> |channelId| == ID_LENGTH && env.mayUpload(channelId))
      && (ids == [] || IdsAhead(body, 0, 0))
      && StoreTakes(env, 0, channelId, files, ids, 0)
  {
    RouteDecides(env, body);
    ScanTakesIff(env, body, body, Start(channelId, []));
    assert [] + ClippedIds(body) == ClippedIds(body);
  }

  /** Where the first channel id that is not empty stands. */
  function Lead(parts: seq<Part>): (k: nat)
    ensures k <= |parts| && (k < |parts| ==> IsChannelId(parts[k]) && Clip(parts[k].content) != "")
  {
    if parts == [] || (IsChannelId(parts[0]) && Clip(parts[0].content) != "") then 0 else 1 + Lead(parts[1..])
  }

  /** Before it no file may come; without it there may be no client id either. */
  ghost predicate UnsetTakes(env: Env, rest: seq<Part>, ids: seq<string>) {
    var k := Lead(rest);
    var all := ids + ClippedIds(rest[..k]);
    && Files(rest[..k]) == [] && Clean(rest[..k], "")
    && if k == |rest| then all == []
       else StreamTakes(env, rest[k..], Start(Clip(rest[k].content), []).(clientIds := all))
  }

  lemma UnsetOneMore(env: Env, p: Part, rest: seq<Part>, ids: seq<string>)
    requires !IsFile(p) && !(IsChannelId(p) && Clip(p.content) != "")
    ensures UnsetTakes(env, [p] + rest, ids) <==>
      Clean([p], "") && UnsetTakes(env, rest, if IsClientId(p) then ids + [Clip(p.content)] else ids)
  {
    hide StreamTakes, Clean, Clip;
    var k, whole := Lead(rest), [p] + rest;
    assert whole[1..] == rest && Lead(whole) == 1 + k;
    assert whole[..1 + k] == [p] + rest[..k] && whole[1 + k..] == rest[k..];
    assert ([p] + rest[..k])[1..] == rest[..k];
    CleanHead(p, rest[..k], "");
    if IsClientId(p) {
      var id := Clip(p.content);
      assert ids + ([id] + ClippedIds(rest[..k])) == ids + [id] + ClippedIds(rest[..k]);
    }
  }

  lemma UnsetStopsAtFile(env: Env, p: FilePart, rest: seq<Part>, ids: seq<string>)
    ensures !UnsetTakes(env, [p] + rest, ids)
  {
    assert ([p] + rest)[..Lead([p] + rest)][0] == p;
  }

  lemma {:induction false} UnsetTakesIff(env: Env, whole: seq<Part>, rest: seq<Part>, ids: seq<string>)
    ensures Scan(env, whole, rest, true, Start("", []).(clientIds := ids)).reply.Ok? <==> UnsetTakes(env, rest, ids)
    decreases |rest|
  {
    var acc := Start("", []).(clientIds := ids);
    if rest == [] {
      assert ids + [] == ids;
      return;
    }
    var p, tail := rest[0], rest[1..];
    assert rest == [p] + tail;
    if IsChannelId(p) && Clip(p.content) != "" {
      var chosen := acc.(channelId := Clip(p.content));
      assert Advance(env, p, true, acc) == Continue(chosen) && Advance(env, p, true, chosen) == Continue(chosen);
      ScanTakesIff(env, whole, rest, chosen);
      assert ids + [] == ids && rest[..0] == [] && rest[0..] == rest;
    } else if IsFile(p) {
      UnsetStopsAtFile(env, p, tail, ids);
    } else {
      UnsetOneMore(env, p, tail, ids);
      CleanPart(p, "");
      hide UnsetTakes, Clean;
      UnsetTakesIff(env, whole, tail, if IsClientId(p) then ids + [Clip(p.content)] else ids);
    }
  }

  /** The same where the first channel id is empty: the first one that is not takes its place. */
  lemma EmptyIdAcceptsIff(env: Env, body: seq<Part>)
    requires RouteOf(body) == Streams("")
    ensures Handle(env, body, "").reply.Ok? <==> UnsetTakes(env, body, [])
  {
    RouteDecides(env, body);
    UnsetTakesIff(env, body, body, []);
  }

  lemma {:induction false} RestTakesIff(env: Env, channelId: string, files: seq<FilePart>, ids: seq<string>, i: nat,
                                        resp: Response, log: seq<Upload>)
    requires (ids == [] || |ids| == |files|) && i <= |files|
    ensures UploadRest(env, channelId, files, ids, i, resp, log).reply.Ok? <==>
      && (forall k | i <= k < |files| :: env.opens(k))
      && StoreTakes(env, |log|, channelId, files[i..], ids, i)
    decreases |files| - i
  {
    hide StoreTakes;
    if i == |files| {
      StoreTakesNothing(env, |log|, channelId, ids, i);
      assert files[i..] == [];
    } else {
      var clientId := if ids != [] then ids[i] else "";
      var u := Upload(channelId, files[i].fileName, files[i].content, clientId);
      StoreTakesHead(env, |log|, channelId, files[i..], ids, i);
      assert files[i..][1..] == files[i + 1..];
      var info := env.store(|log|, u);
      if env.opens(i) && info.Some? {
        RestTakesIff(env, channelId, files, ids, i + 1,
          Response(resp.infos + [info.value], if clientId != "" then resp.clientIds + [clientId] else resp.clientIds),
          log + [u]);
      }
    }
  }

  lemma StoreTakesNothing(env: Env, calls: nat, channelId: string, ids: seq<string>, first: nat)
    ensures StoreTakes(env, calls, channelId, [], ids, first)
  {}

  /** Which buffered requests are accepted: those that can be read and fit in the form, whose first channel id is proper
      and permitted, with no client ids or one per file of the field `files`, if these open and the store takes them;
      and what they upload. */
  lemma BufferAcceptsIff(env: Env, body: seq<Part>)
    requires RouteOf(body).Buffers?
    ensures var out, channelIds, ids, files :=
        Handle(env, body, ""), Values(body, "channel_id"), Values(body, "client_ids"), FilesOf(body, "files");
      (out.reply.Ok? <==>
        && (forall p | p in body :: p.Part?) && ValueBytes(body) <= env.maxFileSize + FORM_OVERHEAD_BYTES
        && channelIds != [] && |channelIds[0]| == ID_LENGTH && env.mayUpload(channelIds[0])
        && (ids == [] || |ids| == |files|) && (forall k | 0 <= k < |files| :: env.opens(k))
        && StoreTakes(env, 0, channelIds[0], files, ids, 0))
    ensures var out, ids, files := Handle(env, body, ""), Values(body, "client_ids"), FilesOf(body, "files");
      out.reply.Ok? && (forall id | id in ids :: id != "") ==>
        && (ids == [] || |ids| == |files|) && out.log == Zip(out.channelId, files, ids)
        && out.reply.value.clientIds == ids && Answers(env, out.log, 0, out.reply.value.infos)
  {
    RouteDecides(env, body);
    var channelIds, ids, files := Values(body, "channel_id"), Values(body, "client_ids"), FilesOf(body, "files");
    assert Handle(env, body, "") == Legacy(env, body, []);
    if channelIds != [] && (ids == [] || |ids| == |files|) {
      RestTakesIff(env, channelIds[0], files, ids, 0, Response([], []), []);
      assert files[0..] == files;
      if Handle(env, body, "").reply.Ok? && forall id | id in ids :: id != "" {
        BufferedAll(env, channelIds[0], files, ids);
      }
    }
  }

  lemma BufferedAll(env: Env, channelId: string, files: seq<FilePart>, ids: seq<string>)
    requires (ids == [] || |ids| == |files|) && (forall id | id in ids :: id != "")
    requires (forall k | 0 <= k < |files| :: env.opens(k)) && StoreTakes(env, 0, channelId, files, ids, 0)
    ensures var out, plan := UploadRest(env, channelId, files, ids, 0, Response([], []), []), Zip(channelId, files, ids);
      && out.reply.Ok? && out.channelId == channelId && out.log == plan
      && out.reply.value.clientIds == ids && Answers(env, plan, 0, out.reply.value.infos)
  {
    var plan := Zip(channelId, files, ids);
    forall k | 0 <= k < |plan| ensures env.store(k, plan[k]).Some? {
      assert env.store(0 + k, Upload(channelId, files[k].fileName, files[k].content, if 0 + k < |ids| then ids[0 + k] else "")).Some?;
    }
    assert plan[..0] == [];
    LegacyLoop(env, channelId, files, ids, plan, 0, Response([], []));
  }

  // ---------------------------------------------------------------------------------------------------------
  // The code: request body, reader, context and the two handlers

  /** The request; `unread` is what is left of its body. */
  class Request {
    var unread: seq<Part>

    constructor (body: seq<Part>)
      ensures unread == body
    {
      unread := body;
    }
  }

  /** A multipart reader over the body, possibly preceded by replayed parts (MultiReader) or copying what it reads
      (TeeReader). It may read ahead of the parts it has returned, by any amount. */
  class PartReader {
    const request: Request
    const tee: bool
    var replay: seq<Part>
    var ahead: seq<Part>
    var buf: seq<Part>

    constructor (r: Request, tee: bool, replay: seq<Part>)
      ensures this.request == r && this.tee == tee && this.replay == replay && ahead == [] && buf == []
    {
      this.request, this.tee, this.replay, this.ahead, this.buf := r, tee, replay, [], [];
    }

    ghost function Remaining(): seq<Part>
      reads this, request
    {
      ahead + replay + request.unread
    }

    /** The next part, or None at the end of the body. What was copied plus what is unread never changes. */
    method NextPart() returns (part: Option<Part>)
      modifies this, request
      ensures old(Remaining()) == [] ==> part.None? && Remaining() == []
      ensures old(Remaining()) != [] ==> part == Some(old(Remaining())[0]) && Remaining() == old(Remaining())[1..]
      ensures tee ==> buf + request.unread == old(buf + request.unread)
    {
      if ahead == [] {
        Fetch();
      }
      if ahead == [] {
        return None;
      }
      part := Some(ahead[0]);
      ahead := ahead[1..];
    }

    /** Reads a chunk of arbitrary size, at least one part unless the body is exhausted. */
    method Fetch()
      requires ahead == []
      modifies this, request
      ensures Remaining() == old(Remaining())
      ensures ahead == [] ==> Remaining() == []
      ensures tee ==> buf + request.unread == old(buf + request.unread)
    {
      if replay != [] {
        var n :| 1 <= n <= |replay|;
        ahead, replay := replay[..n], replay[n..];
        assert ahead + replay == old(replay);
      } else if request.unread != [] {
        var n :| 1 <= n <= |request.unread|;
        ahead := request.unread[..n];
        if tee {
          buf := buf + ahead;
        }
        request.unread := request.unread[n..];
        assert ahead + request.unread == old(request.unread);
      }
    }

    /** Buffers everything that is left, as the form parser does. */
    method ReadForm(maxMemory: nat) returns (form: Option<Form>)
      modifies this, request
      ensures var parts := old(Remaining());
        form == if Readable(parts) && ValueBytes(parts) <= maxMemory + FORM_OVERHEAD_BYTES then Some(Form(parts)) else None
    {
      var parts := [];
      ghost var whole := Remaining();
      while true
        invariant parts + Remaining() == whole
        decreases |Remaining()|
      {
        var part := NextPart();
        if part.None? {
          break;
        }
        parts := parts + [part.value];
      }
      assert parts == whole;
      if (forall p | p in parts :: p.Part?) && ValueBytes(parts) <= maxMemory + FORM_OVERHEAD_BYTES {
        return Some(Form(parts));
      }
      return None;
    }
  }

  /** A parsed form: values and file headers by field name, each in body order. */
  datatype Form = Form(parts: seq<Part>) {
    function Value(name: string): seq<string> {
      Values(parts, name)
    }

    function File(name: string): seq<FilePart> {
      FilesOf(parts, name)
    }
  }

  /** The request context: its channel id parameter, its error, and the upload calls made on its behalf. */
  class Context {
    const env: Env
    var channelId: string
    var err: Option<Error>
    var log: seq<Upload>

    constructor (env: Env, channelId: string)
      ensures this.env == env && this.channelId == channelId && err.None? && log == []
    {
      this.env, this.channelId, this.err, this.log := env, channelId, None, [];
    }

    /** The context and the returned response are as the outcome says. */
    ghost predicate Ended(resp: Option<Response>, out: Outcome)
      reads this
    {
      && channelId == out.channelId && log == out.log
      && match out.reply
         case Ok(r) => err.None? && resp == Some(r)
         case Err(e) => err == Some(e) && resp.None?
    }

    method UploadFileX(u: Upload) returns (info: Option<FileInfo>)
      modifies this`log
      ensures log == old(log) + [u] && info == env.store(|old(log)|, u)
    {
      info := env.store(|log|, u);
      log := log + [u];
    }
  }

  /** What the loop has to do after a part: read the next one, return, replay in stream mode, or fall back. */
  datatype Verdict = NextPart | Failed | InStreamMode | InLegacyMode

  /** The handler. Called with `asStream` absent it is the first pass; with the copied prefix it is stream mode. */
  method UploadFileMultipart(c: Context, r: Request, asStream: Option<seq<Part>>) returns (response: Option<Response>)
    requires c.err.None?
    modifies c, r
    ensures var whole := (if asStream.Some? then asStream.value else []) + old(r.unread);
      c.Ended(response, Scan(c.env, whole, whole, asStream.Some?, Start(old(c.channelId), old(c.log))))
    ensures PermittedSince(c.env, old(c.log), c.log)
    decreases asStream.None?
  {
    var loop := Loop([], 0, true, Response([], []));
    var mr := new PartReader(r, asStream.None?, if asStream.Some? then asStream.value else []);
    ghost var whole := (if asStream.Some? then asStream.value else []) + r.unread;
    ghost var out := Scan(c.env, whole, whole, asStream.Some?, Start(c.channelId, c.log));
    ScanPermitted(c.env, whole, whole, asStream.Some?, Start(c.channelId, c.log));
    assert mr.Remaining() == whole && [] + r.unread == r.unread;
    while true
      invariant c.err.None? && mr.request == r && mr.tee == asStream.None? && fresh(mr)
      invariant mr.tee ==> mr.buf + r.unread == whole
      invariant out == Scan(c.env, whole, mr.Remaining(), asStream.Some?, loop.With(c.channelId, c.log))
      decreases |mr.Remaining()|
    {
      var part := mr.NextPart();
      if part.None? {
        break;
      }
      var verdict;
      verdict, loop := HandlePart(c, part.value, asStream.Some?, loop);
      match verdict {
        case NextPart =>
        case Failed =>
          return None;
        case InStreamMode =>
          response := UploadFileMultipart(c, r, Some(mr.buf));
          return;
        case InLegacyMode =>
          response := FallBack(c, r, mr.buf);
          return;
      }
    }
    if loop.expectClientIds && |loop.clientIds| != loop.nFiles {
      c.err := Some(WrongNumberOfClientIds(|loop.clientIds|, loop.nFiles));
      return None;
    }
    return Some(loop.resp);
  }

  /** The local variables of the loop; the channel id and the upload calls live in the context. */
  datatype Loop = Loop(clientIds: seq<string>, nFiles: nat, expectClientIds: bool, resp: Response) {
    function With(channelId: string, log: seq<Upload>): Acc {
      Acc(channelId, clientIds, nFiles, expectClientIds, resp, log)
    }
  }

  /** The loop body, lines 306-422. */
  method HandlePart(c: Context, part: Part, streaming: bool, loop: Loop) returns (verdict: Verdict, next: Loop)
    requires c.err.None?
    modifies c
    ensures match Advance(c.env, part, streaming, loop.With(old(c.channelId), old(c.log)))
      case Continue(acc) => verdict.NextPart? && c.err.None? && acc == next.With(c.channelId, c.log)
      case Stop(out) => verdict.Failed? && c.Ended(None, out)
      case Replay(id) => verdict.InStreamMode? && c.err.None? && c.channelId == id && c.log == old(c.log)
      case Buffer => verdict.InLegacyMode? && c.err.None? && c.channelId == "" && c.log == old(c.log)
  {
    next := loop;
    if part.BrokenPart? {
      c.err := Some(ReadRequest);
      return Failed, next;
    }
    if part.formName == "" {
      return NextPart, next;
    }
    if part.BrokenValue? {
      c.err := Some(ReadFormValue(part.formName));
      return Failed, next;
    }
    var ok;
    if part.fileName == "" {
      ok, next := AcceptValue(c, part, loop);
      verdict := if !ok then Failed else if part.formName == "channel_id" && !streaming then InStreamMode else NextPart;
    } else if c.channelId == "" && !streaming {
      verdict := InLegacyMode;
    } else {
      ok, next := AcceptFile(c, part, loop);
      verdict := if ok then NextPart else Failed;
    }
  }

  /** Lines 319-359: a form value; `ok` is false when the request has failed. */
  method AcceptValue(c: Context, part: Part, loop: Loop) returns (ok: bool, next: Loop)
    requires c.err.None? && IsValue(part)
    modifies c
    ensures match TakeValue(part, true, loop.With(old(c.channelId), old(c.log)))
      case Continue(acc) => ok && c.err.None? && acc == next.With(c.channelId, c.log)
      case Stop(out) => !ok && c.Ended(None, out)
      case _ => false
  {
    ok, next := true, loop;
    var v := Clip(part.content);
    match part.formName {
      case "channel_id" =>
        if c.channelId != "" && c.channelId != v {
          c.err, ok := Some(MultipleChannelIds), false;
        } else if v != "" {
          c.channelId := v;
        }
      case "client_ids" =>
        if !loop.expectClientIds {
          c.err, ok := Some(InvalidParam("client_ids")), false;
        } else {
          next := loop.(clientIds := loop.clientIds + [v]);
        }
      case _ =>
        c.err, ok := Some(InvalidParam(part.formName)), false;
    }
  }

  /** Lines 379-422: a file part in stream mode; `ok` is false when the request has failed. */
  method AcceptFile(c: Context, part: FilePart, loop: Loop) returns (ok: bool, next: Loop)
    requires c.err.None?
    modifies c
    ensures match TakeFile(c.env, part, loop.With(old(c.channelId), old(c.log)))
      case Continue(acc) => ok && c.err.None? && acc == next.With(c.channelId, c.log)
      case Stop(out) => !ok && c.Ended(None, out)
      case _ => false
    ensures PermittedSince(c.env, old(c.log), c.log)
  {
    ok, next := false, loop;
    if |c.channelId| != ID_LENGTH {
      c.err := Some(InvalidUrlParam("channel_id"));
      return;
    }
    if !c.env.mayUpload(c.channelId) {
      c.err := Some(PermissionDenied);
      return;
    }
    if next.nFiles == 0 && |next.clientIds| == 0 {
      next := next.(expectClientIds := false);
    }
    var clientId := "";
    if next.expectClientIds {
      if next.nFiles >= |next.clientIds| {
        c.err := Some(InvalidParam("client_ids"));
        return;
      }
      clientId := next.clientIds[next.nFiles];
    }
    var info := c.UploadFileX(Upload(c.channelId, part.fileName, part.content, clientId));
    if info.None? {
      c.err := Some(UploadRefused);
      return;
    }
    next := next.(resp := next.resp.(infos := next.resp.infos + [info.value]));
    if next.expectClientIds {
      next := next.(resp := next.resp.(clientIds := next.resp.clientIds + [clientId]));
    }
    next := next.(nFiles := next.nFiles + 1);
    ok := true;
  }

  /** Lines 366-377: the buffered handler reads the copied prefix and then the rest of the body. */
  method FallBack(c: Context, r: Request, buf: seq<Part>) returns (response: Option<Response>)
    requires c.err.None? && c.channelId == ""
    modifies c, r
    ensures c.Ended(response, Legacy(c.env, buf + old(r.unread), old(c.log)))
    ensures PermittedSince(c.env, old(c.log), c.log)
  {
    var mr := new PartReader(r, false, buf);
    assert mr.Remaining() == buf + r.unread;
    response := UploadFileMultipartLegacy(c, mr);
  }

  /** The buffered handler, given a reader that replays the whole body. */
  method UploadFileMultipartLegacy(c: Context, mr: PartReader) returns (response: Option<Response>)
    requires c.err.None? && c.channelId == ""
    modifies c, mr, mr.request
    ensures c.Ended(response, Legacy(c.env, old(mr.Remaining()), old(c.log)))
    ensures PermittedSince(c.env, old(c.log), c.log)
  {
    NothingSince(c.env, c.log);
    var form := mr.ReadForm(c.env.maxFileSize);
    if form.None? {
      c.err := Some(ReadRequest);
      return None;
    }
    if form.value.Value("channel_id") == [] {
      c.err := Some(InvalidParam("channel_id"));
      return None;
    }
    c.channelId := form.value.Value("channel_id")[0];
    if |c.channelId| != ID_LENGTH {
      c.err := Some(InvalidUrlParam("channel_id"));
      return None;
    }
    if !c.env.mayUpload(c.channelId) {
      c.err := Some(PermissionDenied);
      return None;
    }
    var clientIds, fileHeaders := form.value.Value("client_ids"), form.value.File("files");
    if clientIds != [] && |clientIds| != |fileHeaders| {
      c.err := Some(WrongNumberOfClientIds(|clientIds|, |fileHeaders|));
      return None;
    }
    response := UploadForm(c, clientIds, fileHeaders);
  }

  /** Lines 479-516: the files of the form. */
  method UploadForm(c: Context, clientIds: seq<string>, fileHeaders: seq<FilePart>) returns (response: Option<Response>)
    requires c.err.None? && (clientIds == [] || |clientIds| == |fileHeaders|)
    requires |c.channelId| == ID_LENGTH && c.env.mayUpload(c.channelId)
    modifies c
    ensures c.Ended(response, UploadRest(c.env, old(c.channelId), fileHeaders, clientIds, 0, Response([], []), old(c.log)))
    ensures PermittedSince(c.env, old(c.log), c.log)
  {
    hide PermittedSince;
    ghost var out := UploadRest(c.env, c.channelId, fileHeaders, clientIds, 0, Response([], []), c.log);
    var resp := Response([], []);
    NothingSince(c.env, c.log);
    for i := 0 to |fileHeaders|
      invariant c.err.None? && c.channelId == old(c.channelId)
      invariant out == UploadRest(c.env, c.channelId, fileHeaders, clientIds, i, resp, c.log)
      invariant PermittedSince(c.env, old(c.log), c.log)
    {
      if !c.env.opens(i) {
        c.err := Some(ReadRequest);
        return None;
      }
      var clientId := if |clientIds| > 0 then clientIds[i] else "";
      ghost var log := c.log;
      var u := Upload(c.channelId, fileHeaders[i].fileName, fileHeaders[i].content, clientId);
      var info := c.UploadFileX(u);
      OneMoreSince(c.env, old(c.log), log, u);
      if info.None? {
        c.err := Some(UploadRefused);
        return None;
      }
      resp := resp.(infos := resp.infos + [info.value]);
      if clientId != "" {
        resp := resp.(clientIds := resp.clientIds + [clientId]);
      }
    }
    return Some(resp);
  }

  lemma NothingSince(env: Env, log: seq<Upload>)
    ensures PermittedSince(env, log, log)
  {}

  lemma OneMoreSince(env: Env, before: seq<Upload>, log: seq<Upload>, u: Upload)
    requires PermittedSince(env, before, log) && Permitted(env, u)
    ensures PermittedSince(env, before, log + [u])
  {}
}
