/** Logging in and keeping the session token (src/api/auth.rs): the login
    request and its classification, and the token file under the launcher's
    data directory. */
module Auth {
  import opened Wrappers
  import Http

  const LP_ERROR := "login_error"
  const IS_ERROR := "login_is_error"

  // ---------------------------------------------------------------------
  // Auth::send

  /** The body of a login reply: unreadable (as text or as JSON, with the
      parser's message), or a JSON value whose `"token"` field is a string
      or is not. */
  datatype LoginBody = Unreadable(message: string) | Json(token: Option<string>)

  datatype LoginReply = LoginReply(status: nat, body: LoginBody)

  /** The serialised `Auth`: the token is skipped. */
  datatype LoginRequest = LoginRequest(login: string, password: string)

  /** Why `send` failed. */
  datatype SendError =
    | RequestFailed            // the request could not be sent
    | BadBody(message: string) // the reply body could not be read or parsed
    | NoTokenField             // the JSON has no string field "token"
    | LoginRejected            // a 4xx status
    | ServerFailed             // any other status that is not 2xx

  /** The message `send` fails with; for a failed request it is the HTTP
      client's own, which is not modelled. */
  function ErrorText(e: SendError): Option<string> {
    match e
    case RequestFailed => Option.None
    case BadBody(m) => Some(m)
    case NoTokenField => Some("no field: 'token'")
    case LoginRejected => Some(LP_ERROR)
    case ServerFailed => Some(IS_ERROR)
  }

  /** The token a login reply carries, or why there is none. The body is
      looked at only for a 2xx status. */
  function Classify(reply: Http.Reply<LoginReply>): (r: Result<string, SendError>)
    ensures r.Ok? <==>
      reply.Delivered? && Http.IsSuccess(reply.response.status)
      && reply.response.body.Json? && reply.response.body.token.Some?
    ensures r.Ok? ==> r.value == reply.response.body.token.value
    ensures reply.Delivered? && Http.IsClientError(reply.response.status) ==> r == Err(LoginRejected)
    ensures reply.Delivered? && !Http.IsSuccess(reply.response.status) && !Http.IsClientError(reply.response.status) ==>
      r == Err(ServerFailed)
  {
    match reply
    case TransportError => Err(RequestFailed)
    case Delivered(resp) =>
      if Http.IsSuccess(resp.status) then
        match resp.body
        case Unreadable(m) => Err(BadBody(m))
        case Json(token) => if token.Some? then Ok(token.value) else Err(NoTokenField)
      else if Http.IsClientError(resp.status) then Err(LoginRejected)
      else Err(ServerFailed)
  }

  /** The error texts the login screen tells apart. */
  lemma StatusErrorTexts(reply: Http.Reply<LoginReply>)
    requires reply.Delivered? && !Http.IsSuccess(reply.response.status)
    ensures Classify(reply).Err?
    ensures ErrorText(Classify(reply).error) == Some(if Http.IsClientError(reply.response.status) then LP_ERROR else IS_ERROR)
  {
  }

  /** A login session: `login` and `password` are typed in the login screen,
      `token` comes from the server or from the token file. */
  class Auth {
    var login: string
    var password: string
    var token: string

    /** `Auth::default`. */
    constructor ()
      ensures login == "" && password == "" && token == ""
    {
      login, password, token := "", "", "";
    }

    /** What is posted to the login URL. */
    function Request(): LoginRequest
      reads this
    {
      LoginRequest(login, password)
    }

    /** `send`. `server` answers a login request. On success only the token
        changes; on failure nothing does. */
    method Send(server: LoginRequest -> Http.Reply<LoginReply>) returns (r: Result<(), SendError>)
      modifies this
      ensures login == old(login) && password == old(password)
      ensures var c := Classify(server(old(Request())));
        && (r.Ok? <==> c.Ok?)
        && (c.Ok? ==> token == c.value)
        && (c.Err? ==> r == Err(c.error) && token == old(token))
    {
      var reply := server(Request());
      var c := Classify(reply);
      if c.Err? {
        return Err(c.error);
      }
      token := c.value;
      r := Ok(());
    }
  }

  /** The token is not part of the request: two sessions that differ only
      in their tokens post the same body. */
  lemma RequestIgnoresToken(a: Auth, b: Auth)
    requires a.login == b.login && a.password == b.password
    ensures a.Request() == b.Request()
  {
  }

  // ---------------------------------------------------------------------
  // Token sanitisation in `load`

  /** The characters `load` strips from the stored token. */
  predicate Junk(c: char) {
    c == '\n' || c == '\t' || c == '\0' || c == '\r'
  }

  predicate Clean(s: string) {
    forall i :: 0 <= i < |s| ==> !Junk(s[i])
  }

  /** The token without its junk characters, the others in their order. */
  function Sanitize(s: string): (r: string)
    ensures Clean(r) && |r| <= |s|
  {
    if s == [] then "" else (if Junk(s[0]) then "" else [s[0]]) + Sanitize(s[1..])
  }

  lemma {:induction false} SanitizeAppend(a: string, b: string)
    ensures Sanitize(a + b) == Sanitize(a) + Sanitize(b)
    decreases |a|
  {
    if a == [] {
      assert a + b == b;
    } else {
      var head := if Junk(a[0]) then "" else [a[0]];
      assert (a + b)[0] == a[0] && (a + b)[1..] == a[1..] + b;
      SanitizeAppend(a[1..], b);
      calc {
        Sanitize(a + b);
        head + Sanitize(a[1..] + b);
        head + (Sanitize(a[1..]) + Sanitize(b));
        (head + Sanitize(a[1..])) + Sanitize(b);
      }
    }
  }

  /** One character: dropped when it is junk, kept otherwise. Together
      with `SanitizeAppend` this says the other characters stay in order. */
  lemma SanitizeChar(c: char)
    ensures Sanitize([c]) == if Junk(c) then "" else [c]
  {
    assert [c][1..] == [];
  }

  /** A clean text is kept as it is, and only a clean one. */
  lemma {:induction false} SanitizeIdentity(s: string)
    ensures Sanitize(s) == s <==> Clean(s)
    decreases |s|
  {
    if s != [] {
      SanitizeIdentity(s[1..]);
      if Junk(s[0]) {
        assert |Sanitize(s)| < |s|;
      }
    }
  }

  /** Sanitising twice is sanitising once. */
  lemma SanitizeIdempotent(s: string)
    ensures Sanitize(Sanitize(s)) == Sanitize(s)
  {
    SanitizeIdentity(Sanitize(s));
  }

  /** `String::retain` with the junk test, one character at a time. */
  method Retain(s: string) returns (t: string)
    ensures t == Sanitize(s)
  {
    t := "";
    var i := 0;
    while i < |s|
      invariant 0 <= i <= |s|
      invariant t == Sanitize(s[..i])
    {
      assert s[..i + 1] == s[..i] + [s[i]];
      SanitizeAppend(s[..i], [s[i]]);
      if !Junk(s[i]) {
        t := t + [s[i]];
      }
      i := i + 1;
    }
    assert s[..i] == s;
  }

  // ---------------------------------------------------------------------
  // The token file: save, load, remove_token

  /** Which file-system steps succeed this time. */
  datatype Io = Io(dataDir: bool, createDir: bool, createFile: bool, write: bool, open: bool, read: bool)

  predicate Healthy(io: Io) {
    io.dataDir && io.createDir && io.createFile && io.write && io.open && io.read
  }

  /** Why a token-file operation failed. */
  datatype StoreError =
    | NoDataDir
    | CreateDirFailed
    | CreateFileFailed
    | WriteFailed
    | NotAuthorized
    | OpenFailed
    | ReadFailed

  /** The message of each failure; `reason` is the operating system's
      error text, which the source appends. */
  function StoreMessage(e: StoreError, reason: string): string {
    match e
    case NoDataDir => "Couldn't open data directory"
    case CreateDirFailed => "Couldn't create path: " + reason
    case CreateFileFailed => "Couldn't create file. Error: " + reason
    case WriteFailed => "Couldn't write token to file. Error: " + reason
    case NotAuthorized => "Not authorizated"
    case OpenFailed => "Couldn't open file. Error: " + reason
    case ReadFailed => "Couldn't read token from file. Error: " + reason
  }

  /** The launcher's directory and the `.auth` file in it. */
  class Store {
    var launcherDir: bool
    var authFile: Option<string>

    /** `.auth` lives inside the launcher's directory, so there is no file
        while the directory is missing. */
    predicate Valid()
      reads this
    {
      launcherDir || authFile.None?
    }

    constructor (launcherDir: bool, authFile: Option<string>)
      requires launcherDir || authFile.None?
      ensures Valid()
      ensures this.launcherDir == launcherDir && this.authFile == authFile
    {
      this.launcherDir := launcherDir;
      this.authFile := authFile;
    }

    /** The steps all three operations begin with: find the data directory,
        create the launcher directory when it is missing. */
    method OpenDir(io: Io) returns (r: Result<(), StoreError>)
      requires Valid()
      modifies this
      ensures Valid()
      ensures !io.dataDir ==> r == Err(NoDataDir) && launcherDir == old(launcherDir)
      ensures io.dataDir && !old(launcherDir) && !io.createDir ==> r == Err(CreateDirFailed) && !launcherDir
      ensures io.dataDir && (old(launcherDir) || io.createDir) ==> r == Ok(()) && launcherDir
      ensures authFile == old(authFile)
    {
      if !io.dataDir {
        return Err(NoDataDir);
      }
      if !launcherDir {
        if !io.createDir {
          return Err(CreateDirFailed);
        }
        launcherDir := true;
      }
      r := Ok(());
    }

    /** Create (or truncate) `.auth` and write `text` into it. */
    method WriteFile(text: string, io: Io) returns (r: Result<(), StoreError>)
      requires launcherDir
      modifies this
      ensures launcherDir && Valid()
      ensures !io.createFile ==> r == Err(CreateFileFailed) && authFile == old(authFile)
      ensures io.createFile && !io.write ==> r == Err(WriteFailed) && authFile == Some("")
      ensures io.createFile && io.write ==> r == Ok(()) && authFile == Some(text)
    {
      if !io.createFile {
        return Err(CreateFileFailed);
      }
      authFile := Some("");
      if !io.write {
        return Err(WriteFailed);
      }
      authFile := Some(text);
      r := Ok(());
    }

    /** `save`: the token, as it is, becomes the file's content. */
    method Save(auth: Auth, io: Io) returns (r: Result<(), StoreError>)
      requires Valid()
      modifies this
      ensures Valid()
      ensures launcherDir == (old(launcherDir) || (io.dataDir && io.createDir))
      ensures !io.dataDir ==> r == Err(NoDataDir) && authFile == old(authFile)
      ensures io.dataDir && !old(launcherDir) && !io.createDir ==> r == Err(CreateDirFailed) && authFile == old(authFile)
      ensures launcherDir && io.dataDir && !io.createFile ==> r == Err(CreateFileFailed) && authFile == old(authFile)
      ensures launcherDir && io.dataDir && io.createFile && !io.write ==> r == Err(WriteFailed) && authFile == Some("")
      ensures r.Ok? <==> io.dataDir && (old(launcherDir) || io.createDir) && io.createFile && io.write
      ensures r.Ok? ==> authFile == Some(auth.token)
    {
      r := OpenDir(io);
      if r.Err? {
        return;
      }
      r := WriteFile(auth.token, io);
    }

    /** `remove_token`: the file stays, with nothing in it. */
    method RemoveToken(io: Io) returns (r: Result<(), StoreError>)
      requires Valid()
      modifies this
      ensures Valid()
      ensures launcherDir == (old(launcherDir) || (io.dataDir && io.createDir))
      ensures !io.dataDir ==> r == Err(NoDataDir) && authFile == old(authFile)
      ensures io.dataDir && !old(launcherDir) && !io.createDir ==> r == Err(CreateDirFailed) && authFile == old(authFile)
      ensures launcherDir && io.dataDir && !io.createFile ==> r == Err(CreateFileFailed) && authFile == old(authFile)
      ensures launcherDir && io.dataDir && io.createFile && !io.write ==> r == Err(WriteFailed) && authFile == Some("")
      ensures r.Ok? <==> io.dataDir && (old(launcherDir) || io.createDir) && io.createFile && io.write
      ensures r.Ok? ==> authFile == Some("")
    {
      r := OpenDir(io);
      if r.Err? {
        return;
      }
      r := WriteFile("", io);
    }

    /** `load`: a new session holding only the sanitised file content. */
    method Load(io: Io) returns (r: Result<Auth, StoreError>)
      requires Valid()
      modifies this
      ensures Valid()
      ensures authFile == old(authFile)
      ensures launcherDir == (old(launcherDir) || (io.dataDir && io.createDir))
      ensures !io.dataDir ==> r == Err(NoDataDir)
      ensures io.dataDir && !old(launcherDir) && !io.createDir ==> r == Err(CreateDirFailed)
      ensures launcherDir && io.dataDir && authFile.None? ==> r == Err(NotAuthorized)
      // a directory created just now holds no `.auth`
      ensures io.dataDir && !old(launcherDir) && io.createDir ==> r == Err(NotAuthorized)
      ensures launcherDir && io.dataDir && authFile.Some? && !io.open ==> r == Err(OpenFailed)
      ensures launcherDir && io.dataDir && authFile.Some? && io.open && !io.read ==> r == Err(ReadFailed)
      ensures r.Ok? <==> io.dataDir && (old(launcherDir) || io.createDir) && authFile.Some? && io.open && io.read
      ensures r.Ok? ==>
        && fresh(r.value) && r.value.login == "" && r.value.password == ""
        && r.value.token == Sanitize(authFile.value)
    {
      var dir := OpenDir(io);
      if dir.Err? {
        return Err(dir.error);
      }
      if authFile.None? {
        return Err(NotAuthorized);
      }
      if !io.open {
        return Err(OpenFailed);
      }
      if !io.read {
        return Err(ReadFailed);
      }
      var token := Retain(authFile.value);
      var auth := new Auth();
      auth.token := token;
      r := Ok(auth);
    }
  }

  /** A saved token loads back without its junk characters. */
  method SaveThenLoad(store: Store, auth: Auth, io: Io) returns (loaded: Result<Auth, StoreError>)
    requires Healthy(io) && store.Valid()
    modifies store
    ensures loaded.Ok? && loaded.value.token == Sanitize(auth.token)
    ensures Clean(auth.token) ==> loaded.value.token == auth.token
  {
    var saved := store.Save(auth, io);
    loaded := store.Load(io);
    SanitizeIdentity(auth.token);
  }

  /** After `remove_token`, loading succeeds with an empty token instead of
      failing with "Not authorizated". */
  method RemoveThenLoad(store: Store, io: Io) returns (loaded: Result<Auth, StoreError>)
    requires Healthy(io) && store.Valid()
    modifies store
    ensures loaded.Ok? && loaded.value.token == ""
  {
    var removed := store.RemoveToken(io);
    loaded := store.Load(io);
  }
}
