/**
 * The decision logic of `github_upload`: a pre-flight identity check, a read
 * of the local file, up to `max_retries` GETs of the remote path (retried on
 * a transport error or a 500 while attempts remain), then one PUT that
 * carries the remote `sha` when the last GET found the file. Every transport
 * error becomes a synthetic response with status 500.
 *
 * The network is replaced by the outcomes it would produce, supplied in call
 * order; base64 encoding, timeouts and the one-second sleeps are not modelled.
 */
module GitHubSync {
  import opened Wrappers

  /** What the identity check `GET /user` produced. */
  datatype AuthOutcome = AuthRaised | AuthAnswered(status: int)

  /** What one `GET` of the contents path produced; `sha` is the body's `sha`, if any. */
  datatype GetOutcome = GetRaised | GetAnswered(status: int, sha: Option<string>)

  /** What the `PUT` produced; `commitSha` is the body's `commit.sha`, if any. */
  datatype PutOutcome = PutRaised | PutAnswered(status: int, commitSha: Option<string>)

  /** The PUT body, without the base64 content. */
  datatype Payload = Payload(message: string, sha: Option<string>)

  /**
   * The response `github_upload` returns (`status`, `commitSha`), together
   * with what it did: how many GETs it made and the PUT payload, if it sent one.
   */
  datatype Upload = Upload(status: int, commitSha: Option<string>, gets: nat, put: Option<Payload>)

  /** Where the GET phase ended: a final transport error, or a last response (none when no GET was made). */
  datatype Fetch = GetFailed(count: nat) | Fetched(last: Option<GetOutcome>, count: nat)

  /** The repository settings read from the app's secrets. */
  datatype Repo = Repo(user: string, repo: string, branch: string)

  /** `github_raw_url(repo_path)`: the raw URL of a file on the configured branch. */
  function RawUrl(cfg: Repo, path: string): (r: string)
    ensures |r| > |path| && r[|r| - |path| - 1..] == "/" + path
  {
    "https://raw.githubusercontent.com/" + cfg.user + "/" + cfg.repo + "/" + cfg.branch + "/" + path
  }

  /** `github_raw_url_with_commit(repo_path, commit_sha)`: the raw URL pinned to one commit. */
  function RawUrlAtCommit(cfg: Repo, path: string, sha: string): (r: string)
    ensures r == RawUrl(Repo(cfg.user, cfg.repo, sha), path)
  {
    "https://raw.githubusercontent.com/" + cfg.user + "/" + cfg.repo + "/" + sha + "/" + path
  }

  /** A GET that the loop retries when attempts remain. */
  predicate Transient(g: GetOutcome)
  {
    g.GetRaised? || g.status == 500
  }

  /** The callers' success test: `status_code in [200, 201]`. */
  predicate Succeeded(u: Upload)
  {
    u.status == 200 || u.status == 201
  }

  /** The GET loop from iteration `attempt` on. */
  function FetchFrom(gets: seq<GetOutcome>, attempt: nat, maxRetries: int): (r: Fetch)
    requires attempt < maxRetries <= |gets|
    ensures attempt < r.count <= maxRetries
    ensures forall k :: attempt <= k < r.count - 1 ==> Transient(gets[k])
    ensures r.GetFailed? ==> r.count == maxRetries && gets[r.count - 1].GetRaised?
    ensures r.Fetched? ==> r.last == Some(gets[r.count - 1]) && gets[r.count - 1].GetAnswered?
    ensures r.Fetched? && r.count < maxRetries ==> !Transient(gets[r.count - 1])
    decreases maxRetries - attempt
  {
    match gets[attempt]
    case GetRaised =>
      if attempt + 1 < maxRetries then FetchFrom(gets, attempt + 1, maxRetries)
      else GetFailed(attempt + 1)
    case GetAnswered(status, _) =>
      if status == 500 && attempt + 1 < maxRetries then FetchFrom(gets, attempt + 1, maxRetries)
      else Fetched(Some(gets[attempt]), attempt + 1)
  }

  /** The whole GET loop, `for attempt in range(max_retries)`. */
  function FetchPhase(gets: seq<GetOutcome>, maxRetries: int): (r: Fetch)
    requires maxRetries <= |gets|
    ensures r.count == 0 <==> maxRetries <= 0
    ensures r.count == 0 ==> r == Fetched(None, 0)
    ensures r.count <= if maxRetries < 0 then 0 else maxRetries
    ensures forall k :: 0 <= k < r.count - 1 ==> Transient(gets[k])
    ensures r.GetFailed? ==> r.count == maxRetries && gets[maxRetries - 1].GetRaised?
    ensures r.Fetched? && r.count > 0 ==> r.last == Some(gets[r.count - 1]) && gets[r.count - 1].GetAnswered?
    ensures r.Fetched? && 0 < r.count < maxRetries ==> !Transient(gets[r.count - 1])
  {
    if maxRetries <= 0 then Fetched(None, 0) else FetchFrom(gets, 0, maxRetries)
  }

  /** `sha` goes into the payload only after a final 200 whose body had a non-empty `sha`. */
  function ShaFor(f: Fetch): (r: Option<string>)
    ensures r.Some? <==> f.Fetched? && f.last.Some? && f.last.value.GetAnswered? &&
                         f.last.value.status == 200 && f.last.value.sha.Some? && f.last.value.sha.value != ""
    ensures r.Some? ==> r == f.last.value.sha
  {
    match f
    case Fetched(Some(GetAnswered(200, Some(sha))), _) => if sha != "" then Some(sha) else None
    case _ => None
  }

  /** What `github_upload` returns for the given outcomes of its calls. */
  function UploadSpec(auth: AuthOutcome, fileRead: bool, gets: seq<GetOutcome>, maxRetries: int,
                      put: PutOutcome, message: string): (r: Upload)
    requires maxRetries <= |gets|
    ensures auth == AuthRaised ==> r == Upload(500, None, 0, None)
    ensures auth.AuthAnswered? && auth.status != 200 ==> r == Upload(auth.status, None, 0, None)
    ensures auth == AuthAnswered(200) && !fileRead ==> r == Upload(500, None, 0, None)
    ensures r.gets <= if maxRetries < 0 then 0 else maxRetries
    ensures r.put.Some? ==> r.put.value.message == message
    ensures auth == AuthAnswered(200) && fileRead && FetchPhase(gets, maxRetries).GetFailed? ==>
              r == Upload(500, None, maxRetries, None)
    ensures auth == AuthAnswered(200) && fileRead && FetchPhase(gets, maxRetries).Fetched? ==>
              r.put == Some(Payload(message, ShaFor(FetchPhase(gets, maxRetries)))) &&
              r.gets == FetchPhase(gets, maxRetries).count
    ensures r.put.None? && r.status != 500 ==> r.status != 200 && r.commitSha.None?
    ensures put == PutRaised && r.put.Some? ==> r.status == 500 && r.commitSha.None?
    ensures put.PutAnswered? && r.put.Some? ==> r.status == put.status && r.commitSha == put.commitSha
  {
    if auth.AuthRaised? then Upload(500, None, 0, None)
    else if auth.status != 200 then Upload(auth.status, None, 0, None)
    else if !fileRead then Upload(500, None, 0, None)
    else
      var f := FetchPhase(gets, maxRetries);
      if f.GetFailed? then Upload(500, None, f.count, None)
      else
        var payload := Payload(message, ShaFor(f));
        match put
        case PutRaised => Upload(500, None, f.count, Some(payload))
        case PutAnswered(status, commitSha) => Upload(status, commitSha, f.count, Some(payload))
  }

  /**
   * `github_upload(path, repo_path, message, max_retries)`, with the network
   * replaced by the outcomes its calls produce: the identity check, the file
   * read, the successive GETs and the PUT.
   */
  method GitHubUpload(auth: AuthOutcome, fileRead: bool, gets: seq<GetOutcome>, maxRetries: int,
                      put: PutOutcome, message: string) returns (r: Upload)
    requires maxRetries <= |gets|
    ensures r == UploadSpec(auth, fileRead, gets, maxRetries, put, message)
  {
    match auth {
      case AuthRaised =>
        return Upload(500, None, 0, None);
      case AuthAnswered(status) =>
        if status != 200 {
          return Upload(status, None, 0, None);
        }
    }
    if !fileRead {
      return Upload(500, None, 0, None);
    }

    var getFile: Option<GetOutcome> := None;
    var made := 0;
    if maxRetries > 0 {
      var attempt := 0;
      while true
        invariant 0 <= attempt < maxRetries
        invariant FetchFrom(gets, attempt, maxRetries) == FetchPhase(gets, maxRetries)
        decreases maxRetries - attempt
      {
        var g := gets[attempt];
        if g.GetRaised? {
          if attempt + 1 < maxRetries {
            attempt := attempt + 1;
            continue;
          }
          return Upload(500, None, attempt + 1, None);
        }
        getFile, made := Some(g), attempt + 1;
        if g.status == 500 && attempt + 1 < maxRetries {
          attempt := attempt + 1;
          continue;
        }
        break;
      }
    }

    var sha: Option<string> := None;
    if getFile.Some? && getFile.value.status == 200 {
      sha := getFile.value.sha;
    }
    var payload := Payload(message, if sha.Some? && sha.value != "" then sha else None);

    match put {
      case PutRaised =>
        r := Upload(500, None, made, Some(payload));
      case PutAnswered(status, commitSha) =>
        r := Upload(status, commitSha, made, Some(payload));
    }
  }

  /** A GET that answers 500 every time is tried `max_retries` times, then the PUT goes out without `sha`. */
  lemma {:induction false} PersistentServerErrorExhaustsRetries(gets: seq<GetOutcome>, attempt: nat, maxRetries: int)
    requires attempt < maxRetries <= |gets|
    requires forall k :: attempt <= k < maxRetries ==> gets[k].GetAnswered? && gets[k].status == 500
    ensures FetchFrom(gets, attempt, maxRetries).Fetched?
    ensures FetchFrom(gets, attempt, maxRetries).count == maxRetries
    ensures ShaFor(FetchFrom(gets, attempt, maxRetries)).None?
    decreases maxRetries - attempt
  {
    if attempt + 1 < maxRetries {
      PersistentServerErrorExhaustsRetries(gets, attempt + 1, maxRetries);
    }
  }

  /**
   * Only the first `count` GET outcomes matter: changing the outcomes the loop
   * never reached changes nothing.
   */
  lemma {:induction false} FetchIgnoresUnusedOutcomes(gets: seq<GetOutcome>, gets': seq<GetOutcome>, attempt: nat, maxRetries: int)
    requires attempt < maxRetries <= |gets| && maxRetries <= |gets'|
    requires gets[..FetchFrom(gets, attempt, maxRetries).count] == gets'[..FetchFrom(gets, attempt, maxRetries).count]
    ensures FetchFrom(gets', attempt, maxRetries) == FetchFrom(gets, attempt, maxRetries)
    decreases maxRetries - attempt
  {
    var n := FetchFrom(gets, attempt, maxRetries).count;
    assert gets[attempt] == gets[..n][attempt] == gets'[..n][attempt] == gets'[attempt];
    if attempt + 1 < maxRetries && Transient(gets[attempt]) {
      FetchIgnoresUnusedOutcomes(gets, gets', attempt + 1, maxRetries);
    }
  }

  /**
   * A sync of a path that exists remotely (the last GET answered 200 with its
   * `sha`) is an update carrying that `sha`; a sync whose GETs answered 404 is
   * a create without one.
   */
  lemma UpdateOrCreate(gets: seq<GetOutcome>, maxRetries: int, put: PutOutcome, message: string, sha: string)
    requires 0 < maxRetries <= |gets|
    ensures gets[0] == GetAnswered(200, Some(sha)) && sha != "" ==>
      UploadSpec(AuthAnswered(200), true, gets, maxRetries, put, message).put == Some(Payload(message, Some(sha)))
    ensures gets[0].GetAnswered? && gets[0].status == 404 ==>
      UploadSpec(AuthAnswered(200), true, gets, maxRetries, put, message).put == Some(Payload(message, None))
  {
  }

  /**
   * A GET that raises on every attempt ends the upload with 500 after
   * `max_retries` attempts, and no PUT is sent.
   */
  lemma {:induction false} PersistentTransportErrorGivesUp(gets: seq<GetOutcome>, attempt: nat, maxRetries: int,
                                                           put: PutOutcome, message: string)
    requires attempt < maxRetries <= |gets|
    requires forall k :: attempt <= k < maxRetries ==> gets[k].GetRaised?
    ensures FetchFrom(gets, attempt, maxRetries) == GetFailed(maxRetries)
    ensures attempt == 0 ==>
      UploadSpec(AuthAnswered(200), true, gets, maxRetries, put, message) == Upload(500, None, maxRetries, None)
    decreases maxRetries - attempt
  {
    if attempt + 1 < maxRetries {
      PersistentTransportErrorGivesUp(gets, attempt + 1, maxRetries, put, message);
    }
  }

  /**
   * The `sha` comes from the last GET, not the first: a file found with a
   * 200 after a retried transport error or 500 is updated with that `sha`.
   */
  lemma FoundAfterRetry(gets: seq<GetOutcome>, maxRetries: int, put: PutOutcome, message: string, sha: string)
    requires 2 <= maxRetries <= |gets|
    requires Transient(gets[0]) && gets[1] == GetAnswered(200, Some(sha)) && sha != ""
    ensures UploadSpec(AuthAnswered(200), true, gets, maxRetries, put, message).put == Some(Payload(message, Some(sha)))
    ensures UploadSpec(AuthAnswered(200), true, gets, maxRetries, put, message).gets == 2
  {
    assert FetchFrom(gets, 1, maxRetries) == Fetched(Some(gets[1]), 2);
  }
}
