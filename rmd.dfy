/** cmd/rmd/main.go: the daemon that turns new Pocket items into EPUB files
    and uploads them to the reMarkable cloud. Modelled here: the bounded
    reconnect of rmConnect, the uploader's decisions for one document and its
    loop over incoming documents, the dispatch of tail values to numbered
    workers, and what one worker hands to the uploader. The outcomes of the
    cloud calls (Put, the token request, the API context), of os.Remove and of
    fetching and converting an article are given as inputs. */
module Rmd {
  import opened Wrappers
  import opened GoLib
  import Pocket
  import RS = RemoteStore
  import Document
  import Json

  /** The daemon's settings that the modelled code reads or writes (conf). */
  class Conf {
    var connectionAttempts: int
    var keep: bool
    var workDir: string
    var destDir: string
    var deviceToken: string
    var userToken: string

    constructor (connectionAttempts: int, keep: bool, workDir: string, destDir: string,
                 deviceToken: string, userToken: string)
      ensures this.connectionAttempts == connectionAttempts && this.keep == keep
      ensures this.workDir == workDir && this.destDir == destDir
      ensures this.deviceToken == deviceToken && this.userToken == userToken
    {
      this.connectionAttempts := connectionAttempts;
      this.keep := keep;
      this.workDir := workDir;
      this.destDir := destDir;
      this.deviceToken := deviceToken;
      this.userToken := userToken;
    }
  }

  // ---------------------------------------------------------------------------
  // rmConnect

  /** The oracles of one rmConnect call: issue(i) is the reply to the i-th
      token request (counting from 0); dial(0) is the outcome of creating the
      API context on the first connection attempt, dial(i + 1) the one after
      the i-th token request. */
  type Issuer = nat -> Result<string, string>
  type Dialer = nat -> Result<RS.Tree, string>

  /** How a call of rmConnect ends: the connection or the error it returns,
      how many user tokens it requested, and the user token left in conf. */
  datatype ConnectReport = ConnectReport(result: Result<RS.Tree, RS.Error>, requests: nat, userToken: string)

  function Max(a: int, b: int): int
  {
    if a < b then b else a
  }

  /** The j-th retry taken on its own: request a token, then connect with it. */
  function Attempt(device: string, issue: Issuer, dial: Dialer, j: nat): Result<RS.Tree, RS.Error>
  {
    match issue(j)
    case Failure(e) => Failure(RS.UserTokenFailed(e))
    case Success(token) => RS.NewConnection(device, token, dial(j + 1))
  }

  /** The retry loop of rmConnect from its i-th iteration on, with the user
      token and the error the previous step left behind. */
  function Retry(device: string, attempts: int, i: nat, token: string, err: RS.Error,
                 issue: Issuer, dial: Dialer): (rep: ConnectReport)
    ensures i <= rep.requests <= Max(i, attempts)
    decreases attempts - i
  {
    if i >= attempts then ConnectReport(Failure(err), i, token)
    else
      var (t, e) := RS.NewUserToken(issue(i));
      if e.Some? then Retry(device, attempts, i + 1, t, e.value, issue, dial)
      else
        match RS.NewConnection(device, t, dial(i + 1))
        case Success(conn) => ConnectReport(Success(conn), i + 1, t)
        case Failure(e2) => Retry(device, attempts, i + 1, t, e2, issue, dial)
  }

  /** The retry loop connects exactly when some remaining attempt does. */
  lemma {:induction false} RetryConnects(device: string, attempts: int, i: nat, token: string, err: RS.Error,
                                         issue: Issuer, dial: Dialer)
    ensures var rep := Retry(device, attempts, i, token, err, issue, dial);
            rep.result.Success? <==> exists j :: i <= j < attempts && Attempt(device, issue, dial, j).Success?
    decreases attempts - i
  {
    if i < attempts {
      var (t, e) := RS.NewUserToken(issue(i));
      var a := Attempt(device, issue, dial, i);
      assert a == if e.Some? then Failure(e.value) else RS.NewConnection(device, t, dial(i + 1));
      if a.Failure? {
        var e' := if e.Some? then e.value else a.error;
        RetryConnects(device, attempts, i + 1, t, e', issue, dial);
        assert Retry(device, attempts, i, token, err, issue, dial)
            == Retry(device, attempts, i + 1, t, e', issue, dial);
      }
    }
  }

  /** A connection comes from the first attempt that connects. */
  lemma {:induction false} RetryStopsAtFirst(device: string, attempts: int, i: nat, token: string, err: RS.Error,
                                             issue: Issuer, dial: Dialer)
    ensures var rep := Retry(device, attempts, i, token, err, issue, dial);
            rep.result.Success? ==>
              && i < rep.requests
              && Attempt(device, issue, dial, rep.requests - 1) == rep.result
              && forall j :: i <= j < rep.requests - 1 ==> Attempt(device, issue, dial, j).Failure?
    decreases attempts - i
  {
    if i < attempts {
      var (t, e) := RS.NewUserToken(issue(i));
      var a := Attempt(device, issue, dial, i);
      assert a == if e.Some? then Failure(e.value) else RS.NewConnection(device, t, dial(i + 1));
      if a.Failure? {
        var e' := if e.Some? then e.value else a.error;
        RetryStopsAtFirst(device, attempts, i + 1, t, e', issue, dial);
        assert Retry(device, attempts, i, token, err, issue, dial)
            == Retry(device, attempts, i + 1, t, e', issue, dial);
      }
    }
  }

  /** What the retry loop leaves behind: without a connection it has used up
      all attempts; with no request made it returns the error it started
      with; otherwise the user token is the last reply's and the error the
      last attempt's. */
  lemma {:induction false} RetryLeftover(device: string, attempts: int, i: nat, token: string, err: RS.Error,
                                         issue: Issuer, dial: Dialer)
    ensures var rep := Retry(device, attempts, i, token, err, issue, dial);
            && (rep.result.Failure? ==> rep.requests == Max(i, attempts))
            && (rep.requests == i ==> rep == ConnectReport(Failure(err), i, token))
            && (rep.requests > i ==>
                  && rep.userToken == RS.NewUserToken(issue(rep.requests - 1)).0
                  && (rep.result.Failure? ==> rep.result == Attempt(device, issue, dial, rep.requests - 1)))
    decreases attempts - i
  {
    if i < attempts {
      var (t, e) := RS.NewUserToken(issue(i));
      var a := Attempt(device, issue, dial, i);
      assert a == if e.Some? then Failure(e.value) else RS.NewConnection(device, t, dial(i + 1));
      if a.Failure? {
        var e' := if e.Some? then e.value else a.error;
        RetryLeftover(device, attempts, i + 1, t, e', issue, dial);
        assert Retry(device, attempts, i, token, err, issue, dial)
            == Retry(device, attempts, i + 1, t, e', issue, dial);
      }
    }
  }

  /** rmConnect: connect with the configured user token; if that fails, request
      a new token and connect with it, at most `attempts` times, stopping at the
      first connection. */
  function Connect(device: string, token: string, attempts: int, issue: Issuer, dial: Dialer)
    : (rep: ConnectReport)
  {
    match RS.NewConnection(device, token, dial(0))
    case Success(conn) => ConnectReport(Success(conn), 0, token)
    case Failure(e) => Retry(device, attempts, 0, token, e, issue, dial)
  }

  /** What rmConnect promises: no token request when the first attempt
      connects; otherwise at most `attempts` requests, stopping at the first
      retry that connects; a connection exactly when some attempt connects;
      the last token reply ("" on failure) left in conf; the last error
      returned, which is the first attempt's when there is no retry. */
  lemma ConnectContract(device: string, token: string, attempts: int, issue: Issuer, dial: Dialer)
    ensures var first := RS.NewConnection(device, token, dial(0));
            var rep := Connect(device, token, attempts, issue, dial);
            && (first.Success? ==> rep == ConnectReport(first, 0, token))
            && rep.requests <= Max(0, attempts)
            && (rep.result.Success? <==>
                  first.Success? || exists j :: 0 <= j < attempts && Attempt(device, issue, dial, j).Success?)
            && (first.Failure? && rep.result.Success? ==>
                  && Attempt(device, issue, dial, rep.requests - 1) == rep.result
                  && forall j :: 0 <= j < rep.requests - 1 ==> Attempt(device, issue, dial, j).Failure?)
            && (rep.requests > 0 ==> rep.userToken == RS.NewUserToken(issue(rep.requests - 1)).0)
            && (first.Failure? && attempts <= 0 ==> rep == ConnectReport(first, 0, token))
            && (first.Failure? && rep.result.Failure? && attempts > 0 ==>
                  rep.result == Attempt(device, issue, dial, attempts - 1))
  {
    var first := RS.NewConnection(device, token, dial(0));
    if first.Failure? {
      RetryConnects(device, attempts, 0, token, first.error, issue, dial);
      RetryStopsAtFirst(device, attempts, 0, token, first.error, issue, dial);
      RetryLeftover(device, attempts, 0, token, first.error, issue, dial);
    }
  }

  /** rmConnect, step by step: the user token in conf is overwritten by every
      token request, successful or not. */
  method RmConnect(c: Conf, issue: Issuer, dial: Dialer)
    returns (conn: Result<RS.Tree, RS.Error>, ghost requests: nat)
    modifies c`userToken
    ensures var rep := Connect(c.deviceToken, old(c.userToken), c.connectionAttempts, issue, dial);
            conn == rep.result && c.userToken == rep.userToken && requests == rep.requests
  {
    ghost var rep := Connect(c.deviceToken, c.userToken, c.connectionAttempts, issue, dial);
    var rmConn := RS.NewConnection(c.deviceToken, c.userToken, dial(0));
    requests := 0;
    if rmConn.Failure? {
      var err := Some(rmConn.error);
      var i := 0;
      while i < c.connectionAttempts
        invariant 0 <= i
        invariant err.Some? && Retry(c.deviceToken, c.connectionAttempts, i, c.userToken, err.value, issue, dial) == rep
        decreases c.connectionAttempts - i
      {
        var reply := RS.NewUserToken(issue(i));
        c.userToken, err := reply.0, reply.1;
        if err.Some? {
          i := i + 1;
          continue;
        }
        rmConn := RS.NewConnection(c.deviceToken, c.userToken, dial(i + 1));
        if rmConn.Success? {
          err := None;
          requests := i + 1;
          break;
        }
        err := Some(rmConn.error);
        i := i + 1;
      }
      if err.Some? {
        return Failure(err.value), i;
      }
    }
    return rmConn, requests;
  }

  // ---------------------------------------------------------------------------
  // The uploader

  /** How a conn.Put call ends, as the uploader tells them apart. */
  datatype PutOutcome = PutOk | PutAlreadyExists | PutFailed(cause: string)

  /** What happens to the local file after an upload. */
  datatype Removal = Kept | Removed | RemoveFailed

  /** What becomes of one document. */
  datatype Fate =
    | Skipped(retried: bool)
    | Uploaded(retried: bool, removal: Removal)
    | Abandoned(cause: string)
    | ReconnectFailed(err: RS.Error)
    | Crashed

  /** The outcomes met while handling one document: the first Put, the Put on
      the refreshed connection, os.Remove, and the oracles of rmConnect. */
  datatype DocScript = DocScript(first: PutOutcome, retry: PutOutcome, removeOk: bool,
                                 issue: Issuer, dial: Dialer)

  /** The uploader's state: its connection (None for Go's nil) and the user token in conf. */
  datatype Session = Session(conn: Option<RS.Tree>, userToken: string)

  /** One handled document: its fate, how many Puts and reconnects it cost,
      and the state left for the next document. */
  datatype Handled = Handled(fate: Fate, puts: nat, reconnects: nat, after: Session)

  function RemovalOf(keep: bool, removeOk: bool): Removal
  {
    if keep then Kept else if removeOk then Removed else RemoveFailed
  }

  /** The body of the uploader's loop for one document, as written: a failed
      reconnect leaves the connection nil, and a Put on a nil connection
      dereferences it. */
  function HandleDocAsWritten(s: Session, keep: bool, device: string, attempts: int, d: DocScript)
    : (h: Handled)
  {
    if s.conn.None? then Handled(Crashed, 0, 0, s)
    else
      match d.first
      case PutAlreadyExists => Handled(Skipped(false), 1, 0, s)
      case PutOk => Handled(Uploaded(false, RemovalOf(keep, d.removeOk)), 1, 0, s)
      case PutFailed(_) =>
        var rep := Connect(device, s.userToken, attempts, d.issue, d.dial);
        var s' := Session(rep.result.ToOption(), rep.userToken);
        match rep.result
        case Failure(e) => Handled(ReconnectFailed(e), 1, 1, s')
        case Success(_) =>
          match d.retry
          case PutAlreadyExists => Handled(Skipped(true), 2, 1, s')
          case PutFailed(cause) => Handled(Abandoned(cause), 2, 1, s')
          case PutOk => Handled(Uploaded(true, RemovalOf(keep, d.removeOk)), 2, 1, s')
  }

  /** The uploader's policy for a document on a live connection: an existing
      file is skipped with one Put and nothing else; any other Put error
      costs exactly one reconnect and at most one more Put; a failed reconnect
      means no second Put and a nil connection; the local file is removed
      only after an upload, and only when it is not to be kept. */
  lemma UploadPolicy(s: Session, keep: bool, device: string, attempts: int, d: DocScript)
    requires s.conn.Some?
    ensures var h := HandleDocAsWritten(s, keep, device, attempts, d);
            && (d.first == PutAlreadyExists ==> h == Handled(Skipped(false), 1, 0, s))
            && (d.first.PutFailed? <==> h.reconnects == 1)
            && 1 <= h.puts <= 1 + h.reconnects
            && (!d.first.PutFailed? ==> h.after == s)
            && (h.fate.ReconnectFailed? ==> h.puts == 1 && h.after.conn.None?)
            && (h.fate.Uploaded? <==>
                  d.first == PutOk ||
                  (d.first.PutFailed? && h.after.conn.Some? && d.retry == PutOk))
            && (h.fate.Uploaded? ==> (h.fate.removal == Kept <==> keep))
            && (h.fate.Uploaded? && !keep ==> (h.fate.removal == Removed <==> d.removeOk))
            && h.fate != Crashed
  {
    var h := HandleDocAsWritten(s, keep, device, attempts, d);
    if d.first.PutFailed? {
      var rep := Connect(device, s.userToken, attempts, d.issue, d.dial);
      assert h.after.conn.Some? <==> rep.result.Success?;
    }
  }

  /** As written, a failed reconnect makes the next document crash the
      uploader, whatever its outcomes would have been. */
  lemma FailedReconnectThenCrash(s: Session, keep: bool, device: string, attempts: int,
                                 d1: DocScript, d2: DocScript)
    requires HandleDocAsWritten(s, keep, device, attempts, d1).fate.ReconnectFailed?
    ensures var h := HandleDocAsWritten(s, keep, device, attempts, d1);
            HandleDocAsWritten(h.after, keep, device, attempts, d2).fate == Crashed
  {
    var h := HandleDocAsWritten(s, keep, device, attempts, d1);
    var rep := Connect(device, s.userToken, attempts, d1.issue, d1.dial);
    assert rep.result.Failure? && h.after.conn == rep.result.ToOption();
  }

  /** A concrete run: an expired session, one retry whose token request fails
      while offline, then any next document. */
  lemma NilConnectionCounterexample(d2: DocScript)
    ensures var d1 := DocScript(PutFailed("expired"), PutOk, true,
                                _ => Failure("offline"), _ => Failure("offline"));
            var s := Session(Some(map[[] := RS.Node("", RS.Dir, "")]), "stale");
            var h := HandleDocAsWritten(s, false, "device", 1, d1);
            && h.fate == ReconnectFailed(RS.UserTokenFailed("offline"))
            && HandleDocAsWritten(h.after, false, "device", 1, d2).fate == Crashed
  {
    var d1 := DocScript(PutFailed("expired"), PutOk, true,
                        _ => Failure("offline"), _ => Failure("offline"));
    var s := Session(Some(map[[] := RS.Node("", RS.Dir, "")]), "stale");
    var rep := Connect("device", "stale", 1, d1.issue, d1.dial);
    assert RS.NewConnection("device", "stale", d1.dial(0)) == Failure(RS.ApiCtxFailed("offline"));
    assert rep == Retry("device", 1, 0, "stale", RS.ApiCtxFailed("offline"), d1.issue, d1.dial);
    assert rep == Retry("device", 1, 1, "", RS.UserTokenFailed("offline"), d1.issue, d1.dial);
    FailedReconnectThenCrash(s, false, "device", 1, d1, d2);
  }

  /** The uploader step as evidently intended: as written, except that a
      failed reconnect keeps the previous connection (and the next document
      tries it, and reconnects again if it fails). */
  function HandleDoc(s: Session, keep: bool, device: string, attempts: int, d: DocScript)
    : (h: Handled)
    requires s.conn.Some?
    ensures h.after.conn.Some? && h.fate != Crashed
    ensures !h.fate.ReconnectFailed? ==> h == HandleDocAsWritten(s, keep, device, attempts, d)
    ensures h.fate.ReconnectFailed? ==>
              var w := HandleDocAsWritten(s, keep, device, attempts, d);
              h.fate == w.fate && h.puts == w.puts && h.after == w.after.(conn := s.conn)
  {
    UploadPolicy(s, keep, device, attempts, d);
    var h := HandleDocAsWritten(s, keep, device, attempts, d);
    if h.fate.ReconnectFailed? then h.(after := h.after.(conn := s.conn)) else h
  }

  /** A message on the uploader's input: a document, or the stop request. */
  datatype Event = DocEvent(id: nat, filePath: string, script: DocScript) | StopEvent

  /** The uploader's loop over the events it selects, up to the stop request:
      the fate of each document and the final state. */
  function RunFrom(s: Session, keep: bool, device: string, attempts: int, events: seq<Event>)
    : (r: (seq<Fate>, Session))
    requires s.conn.Some?
    ensures r.1.conn.Some?
    decreases |events|
  {
    if events == [] || events[0].StopEvent? then ([], s)
    else
      var h := HandleDoc(s, keep, device, attempts, events[0].script);
      var rest := RunFrom(h.after, keep, device, attempts, events[1..]);
      ([h.fate] + rest.0, rest.1)
  }

  /** The loop never crashes, and it handles one document per event up to the
      stop request: all of them when no stop request comes. */
  lemma {:induction false} RunFromHandlesAll(s: Session, keep: bool, device: string, attempts: int,
                                             events: seq<Event>)
    requires s.conn.Some?
    ensures var r := RunFrom(s, keep, device, attempts, events);
            && (forall i :: 0 <= i < |r.0| ==> r.0[i] != Crashed)
            && |r.0| <= |events|
            && ((forall i :: 0 <= i < |events| ==> events[i].DocEvent?) ==> |r.0| == |events|)
    decreases |events|
  {
    if events != [] && events[0].DocEvent? {
      var h := HandleDoc(s, keep, device, attempts, events[0].script);
      RunFromHandlesAll(h.after, keep, device, attempts, events[1..]);
      var rest := RunFrom(h.after, keep, device, attempts, events[1..]);
      if forall i :: 0 <= i < |events| ==> events[i].DocEvent? {
        assert forall i :: 0 <= i < |events[1..]| ==> events[1..][i] == events[i + 1];
      }
    }
  }

  /** The uploader goroutine: its connection, replaced when it reconnects. */
  class Uploader {
    const conf: Conf
    var conn: Option<RS.Tree>

    ghost predicate Valid()
      reads this
    {
      conn.Some?
    }

    /** The part of the state that one document's handling changes. */
    ghost function State(): (s: Session)
      reads this, conf
      ensures s.conn == conn && s.userToken == conf.userToken
    {
      Session(conn, conf.userToken)
    }

    constructor (conf: Conf, conn: RS.Tree)
      ensures this.conf == conf && this.conn == Some(conn) && Valid()
    {
      this.conf := conf;
      this.conn := Some(conn);
    }

    /** One document taken from the input channel. */
    method Upload(d: DocScript) returns (fate: Fate)
      requires Valid()
      modifies this, conf`userToken
      ensures Valid()
      ensures var h := HandleDoc(old(State()), conf.keep, conf.deviceToken, conf.connectionAttempts, d);
              fate == h.fate && State() == h.after
    {
      var first := d.first;
      if first == PutAlreadyExists {
        return Skipped(false);
      }
      if first.PutFailed? {
        var refreshed, requests := RmConnect(conf, d.issue, d.dial);
        if refreshed.Failure? {
          return ReconnectFailed(refreshed.error);
        }
        conn := Some(refreshed.value);
        var retry := d.retry;
        if retry == PutAlreadyExists {
          return Skipped(true);
        }
        if retry.PutFailed? {
          return Abandoned(retry.cause);
        }
      }
      var removal := Kept;
      if !conf.keep {
        removal := if d.removeOk then Removed else RemoveFailed;
      }
      return Uploaded(first.PutFailed?, removal);
    }

    /** The select loop: documents are handled in the order received until
        the stop request. */
    method Run(events: seq<Event>) returns (fates: seq<Fate>)
      requires Valid()
      modifies this, conf`userToken
      ensures Valid()
      ensures (fates, State()) == RunFrom(old(State()), conf.keep, conf.deviceToken,
                                          conf.connectionAttempts, events)
    {
      var keep, device, attempts := conf.keep, conf.deviceToken, conf.connectionAttempts;
      ghost var r := RunFrom(State(), keep, device, attempts, events);
      fates := [];
      var i := 0;
      assert events[i..] == events;
      assert [] + r.0 == r.0;
      while i < |events|
        invariant 0 <= i <= |events| && Valid()
        invariant keep == conf.keep && device == conf.deviceToken && attempts == conf.connectionAttempts
        invariant var rest := RunFrom(State(), keep, device, attempts, events[i..]);
                  r == (fates + rest.0, rest.1)
        decreases |events| - i
      {
        if events[i].StopEvent? {
          break;
        }
        var fate := Step(events, i);
        ghost var rest := RunFrom(State(), keep, device, attempts, events[i + 1..]);
        assert fates + ([fate] + rest.0) == (fates + [fate]) + rest.0;
        fates := fates + [fate];
        i := i + 1;
      }
      assert i == |events| || events[i..][0].StopEvent?;
      assert fates + [] == fates;
    }

    /** One turn of the select loop on the document at position i. */
    method Step(events: seq<Event>, i: nat) returns (fate: Fate)
      requires Valid() && i < |events| && events[i].DocEvent?
      modifies this, conf`userToken
      ensures Valid()
      ensures var rest := RunFrom(State(), conf.keep, conf.deviceToken, conf.connectionAttempts, events[i + 1..]);
              RunFrom(old(State()), conf.keep, conf.deviceToken, conf.connectionAttempts, events[i..])
                == ([fate] + rest.0, rest.1)
    {
      RunFromStep(State(), conf.keep, conf.deviceToken, conf.connectionAttempts, events, i);
      fate := Upload(events[i].script);
    }
  }

  /** One step of RunFrom: a document event at position i is handled, then the
      events after it. */
  lemma RunFromStep(s: Session, keep: bool, device: string, attempts: int, events: seq<Event>, i: nat)
    requires s.conn.Some? && i < |events| && events[i].DocEvent?
    ensures var h := HandleDoc(s, keep, device, attempts, events[i].script);
            var rest := RunFrom(h.after, keep, device, attempts, events[i + 1..]);
            RunFrom(s, keep, device, attempts, events[i..]) == ([h.fate] + rest.0, rest.1)
  {
    assert events[i..][1..] == events[i + 1..];
  }

  // ---------------------------------------------------------------------------
  // Dispatch and workers

  /** A worker started by appMain: its id and the URL it fetches. */
  datatype Spawn = Spawn(id: nat, url: Pocket.Url)

  /** The URLs among the tail's values, in order. */
  function UrlsOf(values: seq<Pocket.TailValue>): (urls: seq<Pocket.Url>)
    ensures |urls| <= |values|
  {
    if values == [] then []
    else
      var last := values[|values| - 1];
      UrlsOf(values[..|values| - 1]) + (if last.UrlValue? then [last.url] else [])
  }

  /** appMain's loop over the tail: a worker per URL, numbered 0, 1, 2, ...;
      an error or any other value is only logged and takes no number. */
  method Dispatch(values: seq<Pocket.TailValue>) returns (spawned: seq<Spawn>, warnings: nat)
    ensures |spawned| == |UrlsOf(values)|
    ensures forall k :: 0 <= k < |spawned| ==> spawned[k] == Spawn(k, UrlsOf(values)[k])
    ensures warnings + |spawned| == |values|
  {
    var id: nat := 0;
    spawned, warnings := [], 0;
    for i := 0 to |values|
      invariant id == |spawned| == |UrlsOf(values[..i])|
      invariant forall k :: 0 <= k < |spawned| ==> spawned[k] == Spawn(k, UrlsOf(values[..i])[k])
      invariant warnings + |spawned| == i
    {
      assert values[..i + 1][..i] == values[..i];
      match values[i]
      case UrlValue(u) =>
        spawned := spawned + [Spawn(id, u)];
        id := id + 1;
      case ErrorValue(_) =>
        warnings := warnings + 1;
      case OtherValue =>
        warnings := warnings + 1;
    }
    assert values[..|values|] == values;
  }

  /** The document a worker hands to the uploader: its id and the path of its EPUB file. */
  datatype DocRef = DocRef(id: nat, filePath: string)

  /** doRetrieve: fetch the article (or fail), convert it to
      "<workDir>/<slug>.epub", and hand that file to the uploader; a failure
      at either step sends nothing. */
  function Worker(id: nat, workDir: string, fetched: Result<Document.Article, string>,
                  name: string -> string, html: string -> string,
                  tempFile: Result<string, string>, write: (string, Json.Json) -> Option<string>,
                  run: Document.Command -> Option<string>): (sent: Option<DocRef>)
    ensures sent.Some? <==>
              && fetched.Success?
              && Document.DocumentToEpub(fetched.value,
                                         JoinPath(workDir, Document.Slug(fetched.value, name) + ".epub"),
                                         html, tempFile, write, run).err.None?
    ensures sent.Some? ==>
              sent.value == DocRef(id, JoinPath(workDir, Document.Slug(fetched.value, name) + ".epub"))
  {
    match fetched
    case Failure(_) => None
    case Success(doc) =>
      var basename := Document.Slug(doc, name) + ".epub";
      var outPath := JoinPath(workDir, basename);
      if Document.DocumentToEpub(doc, outPath, html, tempFile, write, run).err.Some? then None
      else Some(DocRef(id, outPath))
  }

  /** The worker's file name has no id in it: two articles with the same
      title are written to, and uploaded from, the same path. */
  lemma SameTitleSamePath(id1: nat, id2: nat, workDir: string, a1: Document.Article, a2: Document.Article,
                          name: string -> string)
    requires a1.title == a2.title && a1.title != ""
    ensures JoinPath(workDir, Document.Slug(a1, name) + ".epub") ==
            JoinPath(workDir, Document.Slug(a2, name) + ".epub")
  {
    FirstNonEmptyOfThree(a1.title, a1.siteName, "Untitled");
    FirstNonEmptyOfThree(a2.title, a2.siteName, "Untitled");
  }
}
