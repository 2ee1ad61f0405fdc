/** The game download (`download_minecraft`, src/minecraft/downloader.rs):
    the game archive fetched in ranged chunks, then extracted. */
module Downloader {
  import opened Ints
  import opened Wrappers
  import opened Http
  import opened RangeIter
  import opened Transfer
  import Commands

  /** Bytes per ranged request: 1000 KiB. */
  const CHUNK_SIZE: U32 := 1000 * 1024

  /** Why the game download stopped. */
  datatype DownloadError =
    | RequestFailed          // the HTTP client could not send a request
    | ContentLengthMissing   // "Couldn't get content length."
    | DownloadDirMissing     // "Couldn't get download dir."
    | CreateFailed           // the archive file could not be created
    | DataDirMissing         // "Couldn't get data dir."
    | ExtractFailed          // the archive could not be extracted

  /** Everything outside the program that `download_minecraft` depends on. */
  datatype Env = Env(
    head: Reply<Response>,   // the plain GET of the game archive
    server: Server,          // the reply to each ranged GET, by its Range header
    downloadDir: bool,       // the platform download directory is known
    canCreate: bool,         // the archive file can be created
    dataDir: bool,           // the platform data directory is known
    canExtract: bool)        // extracting the archive succeeds

  /** The checks before the first range is requested; on success, the
      content length. The status of the first reply is not looked at. */
  function Preflight(env: Env): (r: Result<U64, DownloadError>)
    ensures env.head.TransportError? ==> r == Err(RequestFailed)
    ensures env.head.Delivered? ==>
      var resp := env.head.response;
      && (resp.contentLength.None? ==> r == Err(ContentLengthMissing))
      && (resp.contentLength.Some? && !env.downloadDir ==> r == Err(DownloadDirMissing))
      && (resp.contentLength.Some? && env.downloadDir && !env.canCreate ==> r == Err(CreateFailed))
    ensures r.Ok? <==> env.head.Delivered? && env.head.response.contentLength.Some? && env.downloadDir && env.canCreate
    ensures r.Ok? ==> env.head.response.contentLength == Some(r.value)
  {
    match env.head
    case TransportError => Err(RequestFailed)
    case Delivered(resp) =>
      if resp.contentLength.None? then Err(ContentLengthMissing)
      else if !env.downloadDir then Err(DownloadDirMissing)
      else if !env.canCreate then Err(CreateFailed)
      else Ok(resp.contentLength.value)
  }

  /** The position of the first range whose request fails in transport, or
      `|rs|`. Statuses play no part. */
  function FirstUndelivered(rs: seq<Range>, server: Server): (k: nat)
    ensures k <= |rs|
    ensures forall j :: 0 <= j < k ==> server(Header(rs[j])).Delivered?
    ensures k < |rs| ==> server(Header(rs[k])).TransportError?
  {
    if rs == [] then 0
    else if server(Header(rs[0])).TransportError? then 0
    else 1 + FirstUndelivered(rs[1..], server)
  }

  /** One `DOWNLOAD((offset, size))` per range. */
  function DownloadTrace(rs: seq<Range>, size: nat): (t: seq<Commands.Command>)
    ensures |t| == |rs|
    ensures forall i :: 0 <= i < |rs| ==> t[i] == Commands.Download(rs[i].first, size)
  {
    seq(|rs|, i requires 0 <= i < |rs| => Commands.Download(rs[i].first, size))
  }

  /** The download runs to the end: every check passes, every ranged
      request is delivered, and the archive is extracted. */
  predicate Succeeds(env: Env) {
    && Preflight(env).Ok? && Preflight(env).value >= 1
    && var rs := Ranges(0, Preflight(env).value - 1, CHUNK_SIZE);
       FirstUndelivered(rs, env.server) == |rs| && env.dataDir && env.canExtract
  }

  /** What a run of `download_minecraft` produces: the result, the
      commands sent towards the interface, the archive file (`None` while
      not created) and whether the game was extracted. */
  datatype Outcome = Outcome(res: Result<(), DownloadError>, sent: seq<Commands.Command>, file: Option<seq<byte>>, extracted: bool)

  /** The outcome, range by range: the trace up to and including the first
      range whose request fails, or the whole trace followed by the
      extraction steps. */
  function Expected(env: Env): Outcome
    requires Preflight(env).Ok? ==> Preflight(env).value >= 1
  {
    match Preflight(env)
    case Err(e) => Outcome(Err(e), [], None, false)
    case Ok(size) => Fetch(env, size)
  }

  /** The outcome once the checks have passed and the size is known. */
  function Fetch(env: Env, size: nat): Outcome
    requires size >= 1
  {
    var rs := Ranges(0, size - 1, CHUNK_SIZE);
    var k := FirstUndelivered(rs, env.server);
    if k < |rs| then
      Outcome(Err(RequestFailed), DownloadTrace(rs[..k + 1], size), Some(Concat(rs[..k], env.server)), false)
    else
      var x := Extraction(env.dataDir, env.canExtract);
      Outcome(x.0, DownloadTrace(rs, size) + x.1, Some(Concat(rs, env.server)), x.2)
  }

  /** The end of a complete download: the result, the commands sent after
      the last `DOWNLOAD`, and whether the game was extracted. */
  function Extraction(dataDir: bool, canExtract: bool): (Result<(), DownloadError>, seq<Commands.Command>, bool) {
    if !dataDir then (Err(DataDirMissing), [], false)
    else if !canExtract then (Err(ExtractFailed), [Commands.Unziping], false)
    else (Ok(()), [Commands.Unziping, Commands.Play], true)
  }

  /** `download_minecraft`, step by step. */
  method DownloadMinecraft(env: Env) returns (res: Result<(), DownloadError>, sent: seq<Commands.Command>, file: Option<seq<byte>>, extracted: bool)
    requires Preflight(env).Ok? ==> Preflight(env).value >= 1
    ensures Outcome(res, sent, file, extracted) == Expected(env)
  {
    var pre := Preflight(env);
    if pre.Err? {
      return Err(pre.error), [], None, false;
    }
    res, sent, file, extracted := FetchAndUnpack(env, pre.value);
  }

  /** `download_minecraft` from the creation of the range iterator on. */
  method FetchAndUnpack(env: Env, size: U64) returns (res: Result<(), DownloadError>, sent: seq<Commands.Command>, file: Option<seq<byte>>, extracted: bool)
    requires size >= 1
    ensures Outcome(res, sent, file, extracted) == Fetch(env, size)
  {
    var created := PartialRangeIter.New(0, size - 1, CHUNK_SIZE);
    if created.Err? {
      assert false; // CHUNK_SIZE is positive
    }
    ghost var rs := Ranges(0, size - 1, CHUNK_SIZE);
    var failed, buffer;
    failed, sent, buffer := FetchRanges(created.value, env.server, size, rs);
    file := Some(buffer);
    if failed {
      return Err(RequestFailed), sent, file, false;
    }
    res, sent, extracted := Unpack(env.dataDir, env.canExtract, sent);
  }

  /** The outcome case by case: a failed check leaves no trace; a failed
      request ends the trace with its own `DOWNLOAD`; otherwise every body is
      written in range order and the extraction steps follow. */
  lemma ExpectedCases(env: Env)
    requires Preflight(env).Ok? ==> Preflight(env).value >= 1
    ensures var o := Expected(env);
      && (Preflight(env).Err? ==> o.res == Err(Preflight(env).error) && o.sent == [] && o.file.None? && !o.extracted)
      && (Preflight(env).Ok? ==>
            var size := Preflight(env).value;
            var rs := Ranges(0, size - 1, CHUNK_SIZE);
            var k := FirstUndelivered(rs, env.server);
            && (k < |rs| ==>
                  && o.res == Err(RequestFailed) && o.sent == DownloadTrace(rs[..k + 1], size)
                  && o.file == Some(Concat(rs[..k], env.server)) && !o.extracted)
            && (k == |rs| ==>
                  && o.file == Some(Concat(rs, env.server))
                  && (!env.dataDir ==> o.res == Err(DataDirMissing) && o.sent == DownloadTrace(rs, size))
                  && (env.dataDir && !env.canExtract ==>
                        o.res == Err(ExtractFailed) && o.sent == DownloadTrace(rs, size) + [Commands.Unziping])
                  && (env.dataDir && env.canExtract ==>
                        o.res == Ok(()) && o.sent == DownloadTrace(rs, size) + [Commands.Unziping, Commands.Play])
                  && o.extracted == (env.dataDir && env.canExtract)
                  && (o.extracted <==> o.res.Ok?)))
  {
  }

  /** `PLAY` is sent exactly on success, and last; the game is extracted
      exactly on success. */
  lemma {:induction false} PlayOnlyOnSuccess(env: Env)
    requires Preflight(env).Ok? ==> Preflight(env).value >= 1
    ensures var o := Expected(env);
      && (o.res.Ok? <==> Commands.Play in o.sent)
      && (o.res.Ok? ==> o.sent[|o.sent| - 1] == Commands.Play)
      && (o.res.Ok? <==> o.extracted)
  {
    if Preflight(env).Ok? {
      var size := Preflight(env).value;
      assert Expected(env) == Fetch(env, size);
      var rs := Ranges(0, size - 1, CHUNK_SIZE);
      var k := FirstUndelivered(rs, env.server);
      if k < |rs| {
        NoPlayInTrace(rs[..k + 1], size);
      } else {
        NoPlayInTrace(rs, size);
      }
    }
  }

  /** A download succeeds exactly when it runs to the end. */
  lemma SuccessIffSucceeds(env: Env)
    requires Preflight(env).Ok? ==> Preflight(env).value >= 1
    ensures Expected(env).res.Ok? <==> Succeeds(env)
  {
    if Preflight(env).Ok? {
      assert Expected(env) == Fetch(env, Preflight(env).value);
    }
  }

  /** The end of `download_minecraft`: `UNZIPING` once the data directory
      is known, then the extraction, then `PLAY`. */
  method Unpack(dataDir: bool, canExtract: bool, trace: seq<Commands.Command>)
    returns (res: Result<(), DownloadError>, sent: seq<Commands.Command>, extracted: bool)
    ensures var x := Extraction(dataDir, canExtract);
      res == x.0 && sent == trace + x.1 && extracted == x.2
  {
    sent, extracted := trace, false;
    if !dataDir {
      return Err(DataDirMissing), sent, extracted;
    }
    sent := sent + [Commands.Unziping];
    if !canExtract {
      return Err(ExtractFailed), sent, extracted;
    }
    extracted := true;
    sent := sent + [Commands.Play];
    res := Ok(());
  }

  /** The loop's invariant: the ranges taken from `it` so far are a prefix
      of `rs`, all delivered, announced in `sent` and written to `buffer`. */
  ghost predicate Fetching(it: PartialRangeIter, server: Server, size: nat, rs: seq<Range>, sent: seq<Commands.Command>, buffer: seq<byte>)
    reads it
  {
    && it.Valid() && it.end < U64_MAX
    && it.Produced + it.Remaining() == rs
    && (forall j :: 0 <= j < |it.Produced| ==> server(Header(it.Produced[j])).Delivered?)
    && sent == DownloadTrace(it.Produced, size)
    && buffer == Concat(it.Produced, server)
  }

  /** The `for` loop of `download_minecraft`: `DOWNLOAD`, then the ranged
      GET, then whatever body arrived appended, until a request fails. */
  method FetchRanges(it: PartialRangeIter, server: Server, size: nat, ghost rs: seq<Range>)
    returns (failed: bool, sent: seq<Commands.Command>, buffer: seq<byte>)
    requires it.Valid() && it.end < U64_MAX && it.Produced == [] && it.Remaining() == rs
    modifies it
    ensures Fetched(rs, server, size, failed, sent, buffer)
  {
    sent, buffer := [], [];
    var stop := false;
    failed := false;
    while !stop
      invariant !stop ==> Fetching(it, server, size, rs, sent, buffer)
      invariant stop ==> Fetched(rs, server, size, failed, sent, buffer)
      decreases !stop, if stop then 0 else |it.Remaining()|
    {
      stop, failed, sent, buffer := FetchNext(it, server, size, rs, sent, buffer);
    }
  }

  /** What the loop leaves behind, as a function of the ranges alone. */
  ghost predicate Fetched(rs: seq<Range>, server: Server, size: nat, failed: bool, sent: seq<Commands.Command>, buffer: seq<byte>) {
    var k := FirstUndelivered(rs, server);
    && (k < |rs| ==> failed && sent == DownloadTrace(rs[..k + 1], size) && buffer == Concat(rs[..k], server))
    && (k == |rs| ==> !failed && sent == DownloadTrace(rs, size) && buffer == Concat(rs, server))
  }

  /** One turn of the loop: the next range, or the end of the ranges. */
  method FetchNext(it: PartialRangeIter, server: Server, size: nat, ghost rs: seq<Range>, sent0: seq<Commands.Command>, buffer0: seq<byte>)
    returns (stop: bool, failed: bool, sent: seq<Commands.Command>, buffer: seq<byte>)
    requires Fetching(it, server, size, rs, sent0, buffer0)
    modifies it
    ensures !stop ==> Fetching(it, server, size, rs, sent, buffer) && |it.Remaining()| < old(|it.Remaining()|)
    ensures stop ==> Fetched(rs, server, size, failed, sent, buffer)
  {
    sent, buffer, failed := sent0, buffer0, false;
    ghost var before := it.Produced;
    var item := it.Next();
    if item.None? {
      assert it.Remaining() == [] && before == rs;
      return true, false, sent, buffer;
    }
    var (range, downloaded) := item.value;
    ghost var r := it.Produced[|it.Produced| - 1];
    assert rs[..|it.Produced|] == it.Produced;
    DownloadTraceSnoc(before, r, size);
    sent := sent + [Commands.Download(downloaded, size)];
    var reply := server(range);
    if reply.TransportError? {
      FirstUndeliveredAt(rs, |before|, server);
      assert rs[..|before|] == before;
      return true, true, sent, buffer;
    }
    ConcatSnoc(before, r, server);
    buffer := buffer + reply.response.body;
    stop := false;
  }

  /** The download messages are all `DOWNLOAD`s. */
  lemma NoPlayInTrace(rs: seq<Range>, size: nat)
    ensures Commands.Play !in DownloadTrace(rs, size)
  {
  }

  /** The trace grows by one message per range. */
  lemma DownloadTraceSnoc(rs: seq<Range>, r: Range, size: nat)
    ensures DownloadTrace(rs + [r], size) == DownloadTrace(rs, size) + [Commands.Download(r.first, size)]
  {
  }

  /** A transport failure at `k` after `k` delivered ranges is the first. */
  lemma {:induction false} FirstUndeliveredAt(rs: seq<Range>, k: nat, server: Server)
    requires k < |rs| && server(Header(rs[k])).TransportError?
    requires forall j :: 0 <= j < k ==> server(Header(rs[j])).Delivered?
    ensures FirstUndelivered(rs, server) == k
  {
    if k > 0 {
      FirstUndeliveredAt(rs[1..], k - 1, server);
    }
  }

  // ---------------------------------------------------------------------
  // Properties of a whole download

  /** The download commands are `DOWNLOAD` once per 1000 KiB chunk with
      offsets 0, 1000 KiB, ..., all below the size (`ExpectedCases` gives
      what follows them). */
  lemma MinecraftTrace(size: nat)
    requires size >= 1
    ensures var t := DownloadTrace(Ranges(0, size - 1, CHUNK_SIZE), size);
      && |t| == CeilDiv(size, CHUNK_SIZE)
      && forall i :: 0 <= i < |t| ==> t[i] == Commands.Download(i * CHUNK_SIZE, size) && i * CHUNK_SIZE < size
  {
    var rs := Ranges(0, size - 1, CHUNK_SIZE);
    RangesCount(0, size - 1, CHUNK_SIZE);
    RangesOffsets(0, size - 1, CHUNK_SIZE);
    forall i | 0 <= i < |rs|
      ensures rs[i].first < size
    {
      RangesSizes(0, size - 1, CHUNK_SIZE);
      RangesLastBound(0, size - 1, CHUNK_SIZE, i);
    }
  }

  /** Whatever status a delivered ranged reply has, its body is written:
      a server that answers every range with exactly the requested bytes
      yields the archive, error statuses included. */
  lemma MinecraftFileIsArchive(env: Env, archive: seq<byte>)
    requires Preflight(env).Ok? && Preflight(env).value == |archive| >= 1
    requires forall r :: r in Ranges(0, |archive| - 1, CHUNK_SIZE) ==>
      env.server(Header(r)).Delivered? && Exact(env.server, archive, r)
    ensures FirstUndelivered(Ranges(0, |archive| - 1, CHUNK_SIZE), env.server) == |Ranges(0, |archive| - 1, CHUNK_SIZE)|
    ensures Concat(Ranges(0, |archive| - 1, CHUNK_SIZE), env.server) == archive
  {
    var rs := Ranges(0, |archive| - 1, CHUNK_SIZE);
    ConcatWhole(archive, CHUNK_SIZE, env.server);
  }
}
