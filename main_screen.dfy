/** The main window's status line (src/gui/main_screen.rs): how the
    commands of the worker change what it shows, and when Play can be
    pressed. */
module MainScreen {
  import opened Wrappers
  import opened Commands
  import Decimal
  import Text
  import RangeIter
  import Downloader

  /** Whether a progress bar (Updating) or a plain label (Idle) is shown. */
  datatype State = Updating | Idle

  /** What the status line and the error box show. `error` is the message
      of the last error box, if one was opened. */
  datatype View = View(state: State, text: string, error: Option<string>)

  const READY := "Готов к запуску"
  const IN_GAME := "В игре"
  const CHECKING := "Проверка файлов"
  const UNPACKING := "Распаковка игры..."

  /** The screen as `MainScreen::new` builds it. */
  function Initial(): View {
    View(Idle, READY, Option.None)
  }

  /** Download progress: both numbers divided by 2048 (1024 * 2), each
      followed by `Mb`. */
  function ProgressText(downloaded: nat, size: nat): string {
    Decimal.NatToString(downloaded / 2048) + "Mb/" + Decimal.NatToString(size / 2048) + "Mb"
  }

  /** How a reader takes a progress text apart again. */
  function ParseProgress(t: string): Option<(nat, nat)> {
    match Text.IndexOf(t, 'M')
    case None => Option.None
    case Some(k) =>
      if k + 3 <= |t| && t[k..k + 3] == "Mb/" && |t| >= k + 5 && t[|t| - 2..] == "Mb" then
        match (Decimal.ParseNat(t[..k]), Decimal.ParseNat(t[k + 3..|t| - 2]))
        case (Some(a), Some(b)) => Some((a, b))
        case _ => Option.None
      else Option.None
  }

  /** The text shows the two quotients, and they can be read back. */
  lemma ProgressTextRoundTrip(downloaded: nat, size: nat)
    ensures ParseProgress(ProgressText(downloaded, size)) == Some((downloaded / 2048, size / 2048))
  {
    var a, b := Decimal.NatToString(downloaded / 2048), Decimal.NatToString(size / 2048);
    var t := ProgressText(downloaded, size);
    assert t == a + "Mb/" + b + "Mb";
    assert t[|a|] == 'M';
    assert forall j :: 0 <= j < |a| ==> t[j] == a[j] && Decimal.IsDigit(a[j]);
    assert Text.IndexOf(t, 'M') == Some(|a|);
    assert t[|a|..|a| + 3] == "Mb/";
    assert t[|t| - 2..] == "Mb";
    assert t[..|a|] == a;
    assert t[|a| + 3..|t| - 2] == b;
    Decimal.ParseNatToString(downloaded / 2048);
    Decimal.ParseNatToString(size / 2048);
  }

  /** One command's effect on the screen (a match arm of `handle_commands`). */
  function React(v: View, c: Command): View {
    match c
    case Run => v.(state := Idle, text := IN_GAME)
    case Continue => v.(state := Idle, text := READY)
    case Validate => v.(state := Updating, text := CHECKING)
    case Download(d, s) => v.(state := Updating, text := ProgressText(d, s))
    case Unziping => v.(state := Updating, text := UNPACKING)
    case Play => v.(state := Idle, text := IN_GAME)
    case Error(e) => v.(state := Idle, error := Some(e))
    case _ => v
  }

  /** The screen after several frames, one command each. */
  function ReactAll(v: View, cs: seq<Command>): View
    decreases |cs|
  {
    if cs == [] then v else ReactAll(React(v, cs[0]), cs[1..])
  }

  /** The commands of the update phase show the progress bar, the others
      the label; `NONE` and `EXIT` change nothing. */
  lemma ReactState(v: View, c: Command)
    ensures React(v, c).state == Updating <==>
      c.Validate? || c.Download? || c.Unziping? || ((c.None? || c.Exit?) && v.state == Updating)
    ensures c.None? || c.Exit? ==> React(v, c) == v
  {
  }

  /** An error opens the error box and leaves the status text alone; no
      other command touches the error box. */
  lemma ReactError(v: View, c: Command)
    ensures c.Error? ==> React(v, c).text == v.text && React(v, c).error == Some(c.message)
    ensures !c.Error? ==> React(v, c).error == v.error
  {
  }

  /** The texts the status line can show. */
  predicate KnownText(t: string) {
    t == READY || t == IN_GAME || t == CHECKING || t == UNPACKING || ParseProgress(t).Some?
  }

  /** Every command keeps the status line on a known text. */
  lemma ReactKeepsKnownText(v: View, c: Command)
    requires KnownText(v.text)
    ensures KnownText(React(v, c).text)
  {
    if c.Download? {
      ProgressTextRoundTrip(c.downloaded, c.size);
    }
  }

  lemma {:induction false} ReactAllAppend(v: View, a: seq<Command>, b: seq<Command>)
    ensures ReactAll(v, a + b) == ReactAll(ReactAll(v, a), b)
    decreases |a|
  {
    if a == [] {
      assert a + b == b;
    } else {
      assert (a + b)[1..] == a[1..] + b;
      ReactAllAppend(React(v, a[0]), a[1..], b);
    }
  }

  /** Download messages keep the progress bar up. */
  lemma {:induction false} ReactAllDownloads(v: View, rs: seq<RangeIter.Range>, size: nat)
    requires v.state == Updating
    ensures ReactAll(v, Downloader.DownloadTrace(rs, size)).state == Updating
    ensures ReactAll(v, Downloader.DownloadTrace(rs, size)).error == v.error
    decreases |rs|
  {
    if rs != [] {
      var t := Downloader.DownloadTrace(rs, size);
      assert t[1..] == Downloader.DownloadTrace(rs[1..], size);
      ReactAllDownloads(React(v, t[0]), rs[1..], size);
    }
  }

  /** The messages of a worker that downloads and starts the game end with
      the label "В игре", whatever the screen showed before. */
  lemma SuccessfulDownloadScreen(v: View, rs: seq<RangeIter.Range>, size: nat)
    ensures ReactAll(v, [Validate] + Downloader.DownloadTrace(rs, size) + [Unziping, Play]) == View(Idle, IN_GAME, v.error)
  {
    var t := Downloader.DownloadTrace(rs, size);
    var w := React(v, Validate);
    ReactAllAppend(v, [Validate] + t, [Unziping, Play]);
    ReactAllAppend(v, [Validate], t);
    ReactAllDownloads(w, rs, size);
  }

  /** The commands the Play button sends to the control loop in one frame:
      it is enabled only while no game is running. */
  function PlayButton(inGame: bool, clicked: bool): (sent: seq<Command>)
    ensures Run in sent <==> clicked && !inGame
    ensures sent == [] || sent == [Run]
  {
    if clicked && !inGame then [Run] else []
  }

  /** The screen's state: the pending commands from the worker and what
      is shown. */
  class Screen {
    var inbox: seq<Command>
    var state: State
    var text: string
    var error: Option<string>

    function Shown(): View
      reads this
    {
      View(state, text, error)
    }

    /** `MainScreen::new`. */
    constructor (inbox: seq<Command>)
      ensures Shown() == Initial() && this.inbox == inbox
    {
      this.inbox := inbox;
      state := Idle;
      text := READY;
      error := Option.None;
    }

    /** `handle_commands`: takes at most one pending command and applies it. */
    method HandleCommands()
      modifies this
      ensures old(inbox) == [] ==> inbox == [] && Shown() == old(Shown())
      ensures old(inbox) != [] ==> inbox == old(inbox)[1..] && Shown() == React(old(Shown()), old(inbox)[0])
    {
      if inbox == [] {
        return;
      }
      var c := inbox[0];
      inbox := inbox[1..];
      match c {
        case Run =>
          state := Idle;
          text := IN_GAME;
        case Continue =>
          state := Idle;
          text := READY;
        case Validate =>
          state := Updating;
          text := CHECKING;
        case Download(d, s) =>
          state := Updating;
          text := ProgressText(d, s);
        case Unziping =>
          state := Updating;
          text := UNPACKING;
        case Play =>
          state := Idle;
          text := IN_GAME;
        case Error(e) =>
          state := Idle;
          error := Some(e);
        case _ =>
      }
    }
  }
}
