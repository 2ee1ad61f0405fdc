/** The launcher's self-update (src/launcher/launcher_update.rs): whether an
    update is needed, and the chunked download of a new executable that
    then replaces the running one. */
module LauncherUpdate {
  import opened Ints
  import opened Wrappers
  import opened Http
  import opened RangeIter
  import opened Transfer

  /** The messages the update thread sends to the update screen. */
  datatype UpdateCommand = Data(downloaded: nat, size: nat) | Completed | Abort

  /** Bytes per ranged request: 100 KiB. */
  const CHUNK_SIZE: U32 := 100 * 1024

  /** Why an update attempt stopped. */
  datatype UpdateError =
    | RequestFailed                 // the HTTP client could not send the request
    | ServerError(status: nat)      // "Server error: <status>"
    | ContentLengthMissing          // "Content length is empty."
    | DownloadDirMissing            // "Download dir not found."
    | CreateFailed                  // the download file could not be created
    | ExePathUnknown                // env::current_exe() failed
    | RenameFailed                  // the executable could not be replaced
    | ReadFailed                    // the body could not be read as text

  /** Everything outside the program that `download_launcher` depends on. */
  datatype Env = Env(
    head: Reply<Response>,   // the plain GET of the update package
    server: Server,          // the reply to each ranged GET, by its Range header
    downloadDir: bool,       // the platform download directory is known
    canCreate: bool,         // the download file can be created
    exePath: bool,           // the running executable's path can be found
    canRename: bool,         // the download can be renamed over the executable
    relaunchExe: bool)       // `relaunch` finds the executable's path again

  /** The checks before the first range is requested, in the order the
      source makes them; on success, the content length. */
  function Preflight(env: Env): (r: Result<U64, UpdateError>)
    ensures env.head.TransportError? ==> r == Err(RequestFailed)
    ensures env.head.Delivered? ==>
      var resp := env.head.response;
      && (!IsSuccess(resp.status) ==> r == Err(ServerError(resp.status)))
      && (IsSuccess(resp.status) && resp.contentLength.None? ==> r == Err(ContentLengthMissing))
      && (IsSuccess(resp.status) && resp.contentLength.Some? && !env.downloadDir ==> r == Err(DownloadDirMissing))
      && (IsSuccess(resp.status) && resp.contentLength.Some? && env.downloadDir && !env.canCreate ==> r == Err(CreateFailed))
    ensures r.Ok? <==> Accepted(env.head) && env.head.response.contentLength.Some? && env.downloadDir && env.canCreate
    ensures r.Ok? ==> env.head.response.contentLength == Some(r.value)
  {
    match env.head
    case TransportError => Err(RequestFailed)
    case Delivered(resp) =>
      if !IsSuccess(resp.status) then Err(ServerError(resp.status))
      else if resp.contentLength.None? then Err(ContentLengthMissing)
      else if !env.downloadDir then Err(DownloadDirMissing)
      else if !env.canCreate then Err(CreateFailed)
      else Ok(resp.contentLength.value)
  }

  /** A ranged reply the loop accepts: delivered with a 2xx status. */
  predicate Accepted(r: Reply<Response>) {
    r.Delivered? && IsSuccess(r.response.status)
  }

  /** The position of the first range whose reply is not accepted, or `|rs|`. */
  function FirstRejected(rs: seq<Range>, server: Server): (k: nat)
    ensures k <= |rs|
    ensures forall j :: 0 <= j < k ==> Accepted(server(Header(rs[j])))
    ensures k < |rs| ==> !Accepted(server(Header(rs[k])))
  {
    if rs == [] then 0
    else if !Accepted(server(Header(rs[0]))) then 0
    else 1 + FirstRejected(rs[1..], server)
  }

  /** One progress message per range, carrying the range's first offset. */
  function DataTrace(rs: seq<Range>, size: nat): (t: seq<UpdateCommand>)
    ensures |t| == |rs|
    ensures forall i :: 0 <= i < |rs| ==> t[i] == Data(rs[i].first, size)
  {
    seq(|rs|, i requires 0 <= i < |rs| => Data(rs[i].first, size))
  }

  /** The error a rejected ranged reply produces. */
  function RejectError(r: Reply<Response>): UpdateError
    requires !Accepted(r)
  {
    if r.TransportError? then RequestFailed else ServerError(r.response.status)
  }

  /** What a run of `download_launcher` produces: the result, the
      messages sent to the update screen, the download file (`None` while
      not created) and whether the executable was replaced. */
  datatype Outcome = Outcome(res: Result<(), UpdateError>, sent: seq<UpdateCommand>, file: Option<seq<byte>>, replaced: bool)

  /** The outcome, range by range. `size - 1` would underflow for an empty
      package, so that case is excluded. */
  function Expected(env: Env): Outcome
    requires Preflight(env).Ok? ==> Preflight(env).value >= 1
  {
    match Preflight(env)
    case Err(e) => Outcome(Err(e), [], None, false)
    case Ok(size) => Fetch(env, size)
  }

  /** The outcome once the checks have passed and the size is known: the
      trace up to and including the first rejected range, or the whole
      trace and the replacement of the executable. */
  function Fetch(env: Env, size: nat): Outcome
    requires size >= 1
  {
    var rs := Ranges(0, size - 1, CHUNK_SIZE);
    var k := FirstRejected(rs, env.server);
    if k < |rs| then
      Outcome(Err(RejectError(env.server(Header(rs[k])))), DataTrace(rs[..k + 1], size), Some(Concat(rs[..k], env.server)), false)
    else if !env.exePath then
      Outcome(Err(ExePathUnknown), DataTrace(rs, size), Some(Concat(rs, env.server)), false)
    else if !env.canRename then
      Outcome(Err(RenameFailed), DataTrace(rs, size), Some(Concat(rs, env.server)), false)
    else if !env.relaunchExe then
      Outcome(Err(ExePathUnknown), DataTrace(rs, size), Some(Concat(rs, env.server)), true)
    else
      Outcome(Ok(()), DataTrace(rs, size) + [Completed], Some(Concat(rs, env.server)), true)
  }

  /** `download_launcher`, step by step. */
  method DownloadLauncher(env: Env) returns (res: Result<(), UpdateError>, sent: seq<UpdateCommand>, file: Option<seq<byte>>, replaced: bool)
    requires Preflight(env).Ok? ==> Preflight(env).value >= 1
    ensures Outcome(res, sent, file, replaced) == Expected(env)
  {
    var pre := Preflight(env);
    if pre.Err? {
      return Err(pre.error), [], None, false;
    }
    res, sent, file, replaced := FetchAndReplace(env, pre.value);
  }

  /** `download_launcher` from the creation of the range iterator on. */
  method FetchAndReplace(env: Env, size: U64) returns (res: Result<(), UpdateError>, sent: seq<UpdateCommand>, file: Option<seq<byte>>, replaced: bool)
    requires size >= 1
    ensures Outcome(res, sent, file, replaced) == Fetch(env, size)
  {
    replaced := false;
    var created := PartialRangeIter.New(0, size - 1, CHUNK_SIZE);
    if created.Err? {
      assert false; // CHUNK_SIZE is positive
    }
    var rejected, buffer;
    rejected, sent, buffer := FetchRanges(created.value, env.server, size, Ranges(0, size - 1, CHUNK_SIZE));
    file := Some(buffer);
    if rejected.Some? {
      return Err(rejected.value), sent, file, false;
    }
    if !env.exePath {
      return Err(ExePathUnknown), sent, file, false;
    }
    if !env.canRename {
      return Err(RenameFailed), sent, file, false;
    }
    replaced := true;
    // `relaunch` looks up the executable's path once more
    if !env.relaunchExe {
      return Err(ExePathUnknown), sent, file, replaced;
    }
    sent := sent + [Completed];
    res := Ok(());
  }

  /** Nothing happens before the checks pass; a rejected range ends the
      trace with its own progress message and leaves the earlier bodies in
      the file; when every range is accepted the file holds all bodies in
      range order, and the later steps decide the result. */
  lemma ExpectedCases(env: Env)
    requires Preflight(env).Ok? ==> Preflight(env).value >= 1
    ensures var o := Expected(env);
      && (Preflight(env).Err? ==> o.res == Err(Preflight(env).error) && o.sent == [] && o.file.None? && !o.replaced)
      && (Preflight(env).Ok? ==>
            var size := Preflight(env).value;
            var rs := Ranges(0, size - 1, CHUNK_SIZE);
            var k := FirstRejected(rs, env.server);
            && (k < |rs| ==>
                  && o.res == Err(RejectError(env.server(Header(rs[k]))))
                  && o.sent == DataTrace(rs[..k + 1], size)
                  && o.file == Some(Concat(rs[..k], env.server))
                  && !o.replaced)
            && (k == |rs| ==>
                  && o.file == Some(Concat(rs, env.server))
                  && (!env.exePath ==> o.res == Err(ExePathUnknown))
                  && (env.exePath && !env.canRename ==> o.res == Err(RenameFailed))
                  && (env.exePath && env.canRename && !env.relaunchExe ==> o.res == Err(ExePathUnknown))
                  && (env.exePath && env.canRename && env.relaunchExe ==> o.res == Ok(()))
                  && o.sent == DataTrace(rs, size) + (if o.res.Ok? then [Completed] else [])
                  && o.replaced == (env.exePath && env.canRename)))
  {
  }

  /** `Completed` is sent exactly on success, and last. The executable is
      replaced on success, and also when `relaunch` then fails to find it:
      that is the one error that leaves it replaced. */
  lemma {:induction false} CompletedOnlyOnSuccess(env: Env)
    requires Preflight(env).Ok? ==> Preflight(env).value >= 1
    ensures var o := Expected(env);
      && (o.res.Ok? <==> Completed in o.sent)
      && (o.res.Ok? ==> o.sent[|o.sent| - 1] == Completed)
      && (o.res.Ok? <==> o.replaced && env.relaunchExe)
  {
    if Preflight(env).Ok? {
      var size := Preflight(env).value;
      assert Expected(env) == Fetch(env, size);
      var rs := Ranges(0, size - 1, CHUNK_SIZE);
      var k := FirstRejected(rs, env.server);
      if k < |rs| {
        NoCompletedInTrace(rs[..k + 1], size);
      } else {
        NoCompletedInTrace(rs, size);
      }
    }
  }

  /** The progress messages are all `Data`. */
  lemma NoCompletedInTrace(rs: seq<Range>, size: nat)
    ensures Completed !in DataTrace(rs, size)
  {
  }

  /** The loop's invariant: the ranges taken from `it` so far are a prefix
      of `rs`, all accepted, announced in `sent` and written to `buffer`. */
  ghost predicate Fetching(it: PartialRangeIter, server: Server, size: nat, rs: seq<Range>, sent: seq<UpdateCommand>, buffer: seq<byte>)
    reads it
  {
    && it.Valid() && it.end < U64_MAX
    && it.Produced + it.Remaining() == rs
    && (forall j :: 0 <= j < |it.Produced| ==> Accepted(server(Header(it.Produced[j]))))
    && sent == DataTrace(it.Produced, size)
    && buffer == Concat(it.Produced, server)
  }

  /** What the loop leaves behind, as a function of the ranges alone. */
  ghost predicate Fetched(rs: seq<Range>, server: Server, size: nat, rejected: Option<UpdateError>, sent: seq<UpdateCommand>, buffer: seq<byte>) {
    var k := FirstRejected(rs, server);
    && (k < |rs| ==>
          && rejected == Some(RejectError(server(Header(rs[k]))))
          && sent == DataTrace(rs[..k + 1], size)
          && buffer == Concat(rs[..k], server))
    && (k == |rs| ==> rejected.None? && sent == DataTrace(rs, size) && buffer == Concat(rs, server))
  }

  /** The `for` loop of `download_launcher` over the iterator `it`, whose
      ranges are `rs`: a progress message, then the ranged GET, then the
      body appended, range after range, until a reply is not accepted. */
  method FetchRanges(it: PartialRangeIter, server: Server, size: nat, ghost rs: seq<Range>)
    returns (rejected: Option<UpdateError>, sent: seq<UpdateCommand>, buffer: seq<byte>)
    requires it.Valid() && it.end < U64_MAX && it.Produced == [] && it.Remaining() == rs
    modifies it
    ensures Fetched(rs, server, size, rejected, sent, buffer)
  {
    sent, buffer, rejected := [], [], None;
    var stop := false;
    while !stop
      invariant !stop ==> Fetching(it, server, size, rs, sent, buffer)
      invariant stop ==> Fetched(rs, server, size, rejected, sent, buffer)
      decreases !stop, if stop then 0 else |it.Remaining()|
    {
      stop, rejected, sent, buffer := FetchNext(it, server, size, rs, sent, buffer);
    }
  }

  /** One turn of the loop: the next range, or the end of the ranges. */
  method FetchNext(it: PartialRangeIter, server: Server, size: nat, ghost rs: seq<Range>, sent0: seq<UpdateCommand>, buffer0: seq<byte>)
    returns (stop: bool, rejected: Option<UpdateError>, sent: seq<UpdateCommand>, buffer: seq<byte>)
    requires Fetching(it, server, size, rs, sent0, buffer0)
    modifies it
    ensures !stop ==> Fetching(it, server, size, rs, sent, buffer) && |it.Remaining()| < old(|it.Remaining()|)
    ensures stop ==> Fetched(rs, server, size, rejected, sent, buffer)
  {
    sent, buffer, rejected := sent0, buffer0, None;
    ghost var before := it.Produced;
    var item := it.Next();
    if item.None? {
      assert it.Remaining() == [] && before == rs;
      return true, None, sent, buffer;
    }
    var (range, downloaded) := item.value;
    ghost var r := it.Produced[|it.Produced| - 1];
    assert rs[..|it.Produced|] == it.Produced;
    DataTraceSnoc(before, r, size);
    sent := sent + [Data(downloaded, size)];
    var reply := server(range);
    if !Accepted(reply) {
      FirstRejectedAt(rs, |before|, server);
      assert rs[..|before|] == before;
      return true, Some(RejectError(reply)), sent, buffer;
    }
    ConcatSnoc(before, r, server);
    buffer := buffer + reply.response.body;
    stop := false;
  }

  /** The trace grows by one message per range. */
  lemma DataTraceSnoc(rs: seq<Range>, r: Range, size: nat)
    ensures DataTrace(rs + [r], size) == DataTrace(rs, size) + [Data(r.first, size)]
  {
  }

  /** A rejection at `k` after `k` accepted ranges is the first. */
  lemma {:induction false} FirstRejectedAt(rs: seq<Range>, k: nat, server: Server)
    requires k < |rs| && !Accepted(server(Header(rs[k])))
    requires forall j :: 0 <= j < k ==> Accepted(server(Header(rs[j])))
    ensures FirstRejected(rs, server) == k
  {
    if k > 0 {
      FirstRejectedAt(rs[1..], k - 1, server);
    }
  }

  /** `need_update`: asks the server for the current version and compares
      it with the running one. */
  function NeedUpdate(reply: Reply<TextResponse>, version: string): (r: Result<bool, UpdateError>)
    ensures r == Ok(true) <==>
      reply.Delivered? && IsSuccess(reply.response.status) && reply.response.text.Some? && reply.response.text.value != version
    ensures r == Ok(false) <==>
      reply.Delivered? && IsSuccess(reply.response.status) && reply.response.text == Some(version)
    ensures reply.TransportError? ==> r == Err(RequestFailed)
    ensures reply.Delivered? && !IsSuccess(reply.response.status) ==> r == Err(ServerError(reply.response.status))
    ensures reply.Delivered? && IsSuccess(reply.response.status) && reply.response.text.None? ==> r == Err(ReadFailed)
  {
    match reply
    case TransportError => Err(RequestFailed)
    case Delivered(resp) =>
      if !IsSuccess(resp.status) then Err(ServerError(resp.status))
      else match resp.text
        case None => Err(ReadFailed)
        case Some(value) => Ok(value != version)
  }

  // ---------------------------------------------------------------------
  // Properties of a whole update

  /** The progress offsets are 0, 100 KiB, 200 KiB, ..., all below the size,
      one per chunk of the package. */
  lemma LauncherOffsets(size: nat)
    requires size >= 1
    ensures |Ranges(0, size - 1, CHUNK_SIZE)| == CeilDiv(size, CHUNK_SIZE)
    ensures forall i :: 0 <= i < |DataTrace(Ranges(0, size - 1, CHUNK_SIZE), size)| ==>
      DataTrace(Ranges(0, size - 1, CHUNK_SIZE), size)[i] == Data(i * CHUNK_SIZE, size) && i * CHUNK_SIZE < size
  {
    var rs := Ranges(0, size - 1, CHUNK_SIZE);
    RangesCount(0, size - 1, CHUNK_SIZE);
    RangesOffsets(0, size - 1, CHUNK_SIZE);
    RangesSizes(0, size - 1, CHUNK_SIZE);
    forall i | 0 <= i < |rs|
      ensures rs[i].first < size
    {
      RangesLastBound(0, size - 1, CHUNK_SIZE, i);
    }
  }

  /** When the server answers every range with a 2xx reply holding exactly
      the requested bytes, the downloaded file is the package. */
  lemma LauncherFileIsPackage(env: Env, package: seq<byte>)
    requires Preflight(env).Ok? && Preflight(env).value == |package| >= 1
    requires forall r :: r in Ranges(0, |package| - 1, CHUNK_SIZE) ==>
      Accepted(env.server(Header(r))) && Exact(env.server, package, r)
    ensures FirstRejected(Ranges(0, |package| - 1, CHUNK_SIZE), env.server) == |Ranges(0, |package| - 1, CHUNK_SIZE)|
    ensures Concat(Ranges(0, |package| - 1, CHUNK_SIZE), env.server) == package
  {
    var rs := Ranges(0, |package| - 1, CHUNK_SIZE);
    ConcatWhole(package, CHUNK_SIZE, env.server);
  }
}
