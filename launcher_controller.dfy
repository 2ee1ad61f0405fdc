/** The control loop of the launcher and the worker it starts for each
    `RUN` (src/launcher/launcher_controller.rs). The loop and the workers
    run on threads in the source; here the loop consumes the commands it
    would receive, in order, and a worker is run on its own. */
module LauncherController {
  import opened Wrappers
  import opened Commands
  import Http
  import Validate
  import Downloader
  import RangeIter

  /** The `in_game` flag after one command: `RUN` raises it, `CONTINUE`
      lowers it, anything else leaves it. */
  function Step(inGame: bool, c: Command): bool {
    match c
    case Run => true
    case Continue => false
    case _ => inGame
  }

  /** The flag after a sequence of commands. */
  function FlagAfter(inGame: bool, cs: seq<Command>): bool
    decreases |cs|
  {
    if cs == [] then inGame else FlagAfter(Step(inGame, cs[0]), cs[1..])
  }

  /** The part of the inbox the loop handles: everything up to and including
      the first `EXIT`. */
  function Handled(cs: seq<Command>): seq<Command>
    decreases |cs|
  {
    if cs == [] then []
    else if cs[0] == Exit then [Exit]
    else [cs[0]] + Handled(cs[1..])
  }

  /** How many workers a sequence of commands starts: one per `RUN`. */
  function RunCount(cs: seq<Command>): nat
    decreases |cs|
  {
    if cs == [] then 0 else (if cs[0] == Run then 1 else 0) + RunCount(cs[1..])
  }

  /** The last flag-changing command, if any. */
  function LastToggle(cs: seq<Command>): (t: Option<bool>)
    ensures t.None? <==> forall i :: 0 <= i < |cs| ==> cs[i] != Run && cs[i] != Continue
    decreases |cs|
  {
    if cs == [] then Option.None
    else match cs[|cs| - 1]
      case Run => Some(true)
      case Continue => Some(false)
      case _ => LastToggle(cs[..|cs| - 1])
  }

  /** The shared state of the control loop. */
  class Controller {
    var inGame: bool
    /** The workers started so far. */
    var workers: nat

    constructor ()
      ensures !inGame && workers == 0
    {
      inGame := false;
      workers := 0;
    }

    /** One match arm of the loop: `RUN` raises the flag and starts a
        worker, `CONTINUE` lowers the flag, the rest changes nothing. */
    method Handle(c: Command)
      modifies this
      ensures inGame == Step(old(inGame), c)
      ensures workers == old(workers) + (if c == Run then 1 else 0)
    {
      if c == Run {
        inGame := true;
        workers := workers + 1;
      } else if c == Continue {
        inGame := false;
      }
    }

    /** The receive loop over `inbox`: handles commands until `EXIT` (which
        is handled, and ends the loop) or until the inbox is used up.
        `handled` is how many commands were taken. */
    method Serve(inbox: seq<Command>) returns (handled: nat)
      modifies this
      ensures handled <= |inbox| && inbox[..handled] == Handled(inbox)
      ensures inGame == FlagAfter(old(inGame), Handled(inbox))
      ensures workers == old(workers) + RunCount(Handled(inbox))
    {
      var i := 0;
      while i < |inbox|
        invariant 0 <= i <= |inbox|
        invariant Exit !in inbox[..i]
        invariant inGame == FlagAfter(old(inGame), inbox[..i])
        invariant workers == old(workers) + RunCount(inbox[..i])
      {
        var c := inbox[i];
        ServeStep(old(inGame), inbox[..i], c);
        assert inbox[..i + 1] == inbox[..i] + [c];
        if c == Exit {
          HandledUpTo(inbox, i);
          HandledStep(inbox, i);
          return i + 1;
        }
        Handle(c);
        i := i + 1;
      }
      HandledUpTo(inbox, i);
      assert inbox[i..] == [] && inbox[..i] == inbox;
      handled := i;
    }
  }

  // ---------------------------------------------------------------------
  // Properties of the loop

  lemma {:induction false} FlagAfterAppend(inGame: bool, a: seq<Command>, b: seq<Command>)
    ensures FlagAfter(inGame, a + b) == FlagAfter(FlagAfter(inGame, a), b)
    decreases |a|
  {
    if a == [] {
      assert a + b == b;
    } else {
      assert (a + b)[1..] == a[1..] + b;
      FlagAfterAppend(Step(inGame, a[0]), a[1..], b);
    }
  }

  lemma {:induction false} RunCountAppend(a: seq<Command>, b: seq<Command>)
    ensures RunCount(a + b) == RunCount(a) + RunCount(b)
    decreases |a|
  {
    if a == [] {
      assert a + b == b;
    } else {
      assert (a + b)[1..] == a[1..] + b;
      RunCountAppend(a[1..], b);
    }
  }

  /** One more command: one more step of the flag and of the count. */
  lemma ServeStep(inGame: bool, pre: seq<Command>, c: Command)
    ensures FlagAfter(inGame, pre + [c]) == Step(FlagAfter(inGame, pre), c)
    ensures RunCount(pre + [c]) == RunCount(pre) + (if c == Run then 1 else 0)
  {
    FlagAfterAppend(inGame, pre, [c]);
    RunCountAppend(pre, [c]);
  }

  /** The handled part of a suffix, one command at a time. */
  lemma HandledStep(cs: seq<Command>, i: nat)
    requires i < |cs|
    ensures Handled(cs[i..]) == if cs[i] == Exit then [Exit] else [cs[i]] + Handled(cs[i + 1..])
  {
    assert cs[i..][0] == cs[i] && cs[i..][1..] == cs[i + 1..];
  }

  /** Before the first `EXIT`, everything is handled. */
  lemma {:induction false} HandledUpTo(cs: seq<Command>, i: nat)
    requires i <= |cs| && Exit !in cs[..i]
    ensures Handled(cs) == cs[..i] + Handled(cs[i..])
  {
    if i == 0 {
      assert cs[..0] == [] && cs[0..] == cs;
    } else {
      var pre, c := cs[..i - 1], cs[i - 1];
      assert cs[..i] == pre + [c];
      assert c != Exit && Exit !in pre;
      HandledUpTo(cs, i - 1);
      HandledStep(cs, i - 1);
      calc {
        Handled(cs);
        pre + Handled(cs[i - 1..]);
        pre + ([c] + Handled(cs[i..]));
        (pre + [c]) + Handled(cs[i..]);
      }
    }
  }

  /** Whatever came before, `RUN` then `CONTINUE` leaves the flag down. */
  lemma RunThenContinue(inGame: bool, cs: seq<Command>)
    ensures FlagAfter(inGame, cs + [Run, Continue]) == false
  {
    FlagAfterAppend(inGame, cs, [Run, Continue]);
  }

  /** The flag is set by the last `RUN` or `CONTINUE`, and keeps its
      starting value when there is none. */
  lemma {:induction false} FlagIsLastToggle(inGame: bool, cs: seq<Command>)
    ensures FlagAfter(inGame, cs) == LastToggle(cs).GetOr(inGame)
    decreases |cs|
  {
    if cs != [] {
      var init, last := cs[..|cs| - 1], cs[|cs| - 1];
      assert cs == init + [last];
      FlagAfterAppend(inGame, init, [last]);
      FlagIsLastToggle(inGame, init);
    }
  }

  /** The handled part is a prefix of the inbox with no `EXIT` before its
      end; it is shorter than the inbox only by stopping at an `EXIT`. */
  lemma {:induction false} HandledIsExitPrefix(cs: seq<Command>)
    ensures var h := Handled(cs);
      && |h| <= |cs| && h == cs[..|h|]
      && (forall i :: 0 <= i < |h| - 1 ==> h[i] != Exit)
      && (|h| < |cs| ==> h != [] && h[|h| - 1] == Exit)
      && (Exit !in cs ==> h == cs)
    decreases |cs|
  {
    if cs != [] && cs[0] != Exit {
      HandledIsExitPrefix(cs[1..]);
      var t := Handled(cs[1..]);
      assert Handled(cs) == [cs[0]] + t;
      assert forall i :: 0 <= i < |t| ==> cs[1..][i] == cs[i + 1];
      assert Exit !in cs ==> Exit !in cs[1..];
    }
  }

  /** Nothing after the first `EXIT` is handled. */
  lemma {:induction false} NothingAfterExit(before: seq<Command>, after: seq<Command>)
    requires Exit !in before
    ensures Handled(before + [Exit] + after) == before + [Exit]
    decreases |before|
  {
    if before == [] {
      assert (before + [Exit] + after)[0] == Exit;
    } else {
      assert (before + [Exit] + after)[1..] == before[1..] + [Exit] + after;
      NothingAfterExit(before[1..], after);
    }
  }

  /** A second `RUN` starts a second worker: nothing checks that a game is
      already running. */
  lemma EveryRunStartsWorker(cs: seq<Command>)
    ensures RunCount(cs + [Run]) == RunCount(cs) + 1
  {
    RunCountAppend(cs, [Run]);
  }

  // ---------------------------------------------------------------------
  // The worker

  /** What the worker depends on: the inputs of the file check, of the
      download, and whether the game could be set up, started and waited
      for (`Minecraft::new`, `run`, `wait`, each unwrapped). */
  datatype WorkerEnv = WorkerEnv(
    checksum: Option<string>,
    checksumReply: Http.Reply<Http.TextResponse>,
    download: Downloader.Env,
    gameExits: bool)

  /** How a worker ends: after sending `CONTINUE`, or in a panic. */
  datatype WorkerEnd = Finished | Panicked

  /** The worker thread of a `RUN`: `toUi` is what it sends to the
      interface, `toControl` what it sends back to the control loop. */
  method Worker(env: WorkerEnv) returns (toUi: seq<Command>, toControl: seq<Command>, end: WorkerEnd)
    requires Validate.RequestMade(env.checksum) ==> env.checksumReply.Delivered?
    requires Downloader.Preflight(env.download).Ok? ==> Downloader.Preflight(env.download).value >= 1
    ensures |toUi| >= 1 && toUi[0] == Validate
    // valid files: only VALIDATE reaches the interface, nothing is downloaded
    ensures Validate.IsValidFiles(env.checksum, env.checksumReply) ==> toUi == [Validate]
    // invalid files that download and unpack: the full download trace
    ensures !Validate.IsValidFiles(env.checksum, env.checksumReply) && Downloader.Succeeds(env.download) ==>
      var size := Downloader.Preflight(env.download).value;
      toUi == [Validate] + Downloader.DownloadTrace(RangeIter.Ranges(0, size - 1, Downloader.CHUNK_SIZE), size)
              + [Unziping, Play]
    // invalid files: VALIDATE, then whatever the download sent, failed or not
    ensures !Validate.IsValidFiles(env.checksum, env.checksumReply) ==>
      toUi == [Validate] + Downloader.Expected(env.download).sent
    // CONTINUE goes back only after the game has run and exited
    ensures end == Finished <==>
      (Validate.IsValidFiles(env.checksum, env.checksumReply) || Downloader.Succeeds(env.download)) && env.gameExits
    ensures toControl == (if end == Finished then [Continue] else [])
  {
    toUi, toControl := [Validate], [];
    var valid := Validate.IsValidFiles(env.checksum, env.checksumReply);
    if !valid {
      var sent, ok := Repair(env.download);
      toUi := toUi + sent;
      if !ok {
        // `download_minecraft(..).unwrap()` panics
        return toUi, toControl, Panicked;
      }
    }
    if !env.gameExits {
      return toUi, toControl, Panicked;
    }
    toControl := [Continue];
    end := Finished;
  }

  /** The download a worker runs when the files are not valid: `ok` is
      whether it returns `Ok`, which is exactly when it runs to the end. */
  method Repair(d: Downloader.Env) returns (sent: seq<Command>, ok: bool)
    requires Downloader.Preflight(d).Ok? ==> Downloader.Preflight(d).value >= 1
    ensures ok <==> Downloader.Succeeds(d)
    ensures ok ==>
      var size := Downloader.Preflight(d).value;
      sent == Downloader.DownloadTrace(RangeIter.Ranges(0, size - 1, Downloader.CHUNK_SIZE), size) + [Unziping, Play]
    // whether or not it succeeds, the messages are those of `download_minecraft`
    ensures sent == Downloader.Expected(d).sent
  {
    var res, file, extracted;
    res, sent, file, extracted := Downloader.DownloadMinecraft(d);
    Downloader.PlayOnlyOnSuccess(d);
    Downloader.SuccessIffSucceeds(d);
    ok := res.Ok?;
  }

  /** A worker that panics never sends `CONTINUE`, so once its `RUN` has
      raised the flag, the flag stays up for good unless another worker
      finishes. */
  lemma PanickedWorkerKeepsFlag(cs: seq<Command>)
    requires forall i :: 0 <= i < |cs| ==> cs[i] != Continue
    ensures FlagAfter(false, [Run] + cs) == true
  {
    FlagAfterAppend(false, [Run], cs);
    assert FlagAfter(false, [Run]) == true;
    StaysUp(cs);
  }

  lemma {:induction false} StaysUp(cs: seq<Command>)
    requires forall i :: 0 <= i < |cs| ==> cs[i] != Continue
    ensures FlagAfter(true, cs) == true
    decreases |cs|
  {
    if cs != [] {
      StaysUp(cs[1..]);
    }
  }
}
