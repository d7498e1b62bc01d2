/**
 * The login-session authentication handler: it picks one credential from a
 * request by a fixed precedence (one cookie, then three headers), checks it
 * against the API-token table or the login-session store, records the reason
 * of a failure, and on a challenge answers with the recorded reason or a
 * default one.
 */
module Authentication {
  import opened Common

  /**
   * The credential sources of a request, each `None` when absent. A header is
   * represented by its value as one string.
   */
  datatype Request = Request(
    sessionCookie: Option<string>,      // cookie "openShockSession"
    sessionHeader: Option<string>,      // header "OpenShockSession"
    legacyTokenHeader: Option<string>,  // header "ShockLinkToken", kept for older applications
    tokenHeader: Option<string>)        // header "OpenShockToken"

  /** `string.IsNullOrEmpty` of an optional value. */
  predicate IsNullOrEmpty(v: Option<string>)
  {
    v.None? || v.value == ""
  }

  /** The two ways of checking a credential. */
  datatype Scheme = SessionScheme | TokenScheme

  datatype Credential = Credential(scheme: Scheme, key: string)

  /** The credential `HandleAuthenticateAsync` checks, `None` when no source is usable. */
  function SelectCredential(req: Request): (c: Option<Credential>)
    ensures c.Some? ==> c.value.key != ""
  {
    if !IsNullOrEmpty(req.sessionCookie) then Some(Credential(SessionScheme, req.sessionCookie.value))
    else if !IsNullOrEmpty(req.sessionHeader) then Some(Credential(SessionScheme, req.sessionHeader.value))
    else if !IsNullOrEmpty(req.legacyTokenHeader) then Some(Credential(TokenScheme, req.legacyTokenHeader.value))
    else if !IsNullOrEmpty(req.tokenHeader) then Some(Credential(TokenScheme, req.tokenHeader.value))
    else None
  }

  // ---------------------------------------------------------------------
  // Precedence stated independently: the sources as a list, and the first
  // non-empty one.
  // ---------------------------------------------------------------------

  datatype Source = Source(value: Option<string>, scheme: Scheme)

  /** The sources in order of precedence. */
  function Sources(req: Request): (s: seq<Source>)
    ensures |s| == 4
  {
    [ Source(req.sessionCookie, SessionScheme),
      Source(req.sessionHeader, SessionScheme),
      Source(req.legacyTokenHeader, TokenScheme),
      Source(req.tokenHeader, TokenScheme) ]
  }

  /** The credential of the first source whose value is neither absent nor empty. */
  function FirstUsable(sources: seq<Source>): Option<Credential>
  {
    if sources == [] then None
    else if !IsNullOrEmpty(sources[0].value) then Some(Credential(sources[0].scheme, sources[0].value.value))
    else FirstUsable(sources[1..])
  }

  /** The source at position k decides when it is usable and every earlier one is not. */
  lemma {:induction false} FirstUsableAt(sources: seq<Source>, k: nat)
    requires k < |sources|
    requires !IsNullOrEmpty(sources[k].value)
    requires forall j | 0 <= j < k :: IsNullOrEmpty(sources[j].value)
    ensures FirstUsable(sources) == Some(Credential(sources[k].scheme, sources[k].value.value))
  {
    if k > 0 {
      assert forall j | 0 <= j < k - 1 :: sources[1..][j] == sources[j + 1];
      FirstUsableAt(sources[1..], k - 1);
    }
  }

  /** Nothing is selected exactly when no source is usable. */
  lemma {:induction false} FirstUsableNone(sources: seq<Source>)
    ensures FirstUsable(sources).None? <==> forall j | 0 <= j < |sources| :: IsNullOrEmpty(sources[j].value)
  {
    if sources != [] {
      FirstUsableNone(sources[1..]);
      assert forall j | 1 <= j < |sources| :: sources[j] == sources[1..][j - 1];
    }
  }

  /** The handler's chain of checks is "the first usable source, in precedence order". */
  lemma SelectCredentialIsFirstUsable(req: Request)
    ensures SelectCredential(req) == FirstUsable(Sources(req))
  {
    var s := Sources(req);
    var s1, s2, s3 := s[1..], s[2..], s[3..];
    assert s1[1..] == s2 && s2[1..] == s3 && s3[1..] == [];
    assert FirstUsable(s) == if !IsNullOrEmpty(req.sessionCookie)
      then Some(Credential(SessionScheme, req.sessionCookie.value)) else FirstUsable(s1);
    assert FirstUsable(s1) == if !IsNullOrEmpty(req.sessionHeader)
      then Some(Credential(SessionScheme, req.sessionHeader.value)) else FirstUsable(s2);
    assert FirstUsable(s2) == if !IsNullOrEmpty(req.legacyTokenHeader)
      then Some(Credential(TokenScheme, req.legacyTokenHeader.value)) else FirstUsable(s3);
    assert FirstUsable(s3) == if !IsNullOrEmpty(req.tokenHeader)
      then Some(Credential(TokenScheme, req.tokenHeader.value)) else None;
  }

  /**
   * The source at position k of the precedence order is chosen when it is
   * usable and all earlier ones are absent or empty.
   */
  lemma SelectedSourceIsFirstUsable(req: Request, k: nat)
    requires k < 4
    requires !IsNullOrEmpty(Sources(req)[k].value)
    requires forall j | 0 <= j < k :: IsNullOrEmpty(Sources(req)[j].value)
    ensures SelectCredential(req) == Some(Credential(Sources(req)[k].scheme, Sources(req)[k].value.value))
  {
    SelectCredentialIsFirstUsable(req);
    FirstUsableAt(Sources(req), k);
  }

  /** A usable session cookie wins over every header. */
  lemma CookieTakesPrecedence(req: Request)
    requires !IsNullOrEmpty(req.sessionCookie)
    ensures SelectCredential(req) == Some(Credential(SessionScheme, req.sessionCookie.value))
  {
  }

  /** No credential is selected exactly when all four sources are absent or empty. */
  lemma NoCredentialIffAllEmpty(req: Request)
    ensures SelectCredential(req).None? <==>
      IsNullOrEmpty(req.sessionCookie) && IsNullOrEmpty(req.sessionHeader) &&
      IsNullOrEmpty(req.legacyTokenHeader) && IsNullOrEmpty(req.tokenHeader)
  {
  }

  /** The request with its source at position k replaced by `v`. */
  function WithSource(req: Request, k: nat, v: Option<string>): (r: Request)
    requires k < 4
    ensures Sources(r)[k].value == v
    ensures forall j | 0 <= j < 4 && j != k :: Sources(r)[j] == Sources(req)[j]
  {
    match k
    case 0 => req.(sessionCookie := v)
    case 1 => req.(sessionHeader := v)
    case 2 => req.(legacyTokenHeader := v)
    case _ => req.(tokenHeader := v)
  }

  /** A source that is present but empty is skipped as if it were absent. */
  lemma EmptySourceIsSkipped(req: Request, k: nat)
    requires k < 4
    ensures SelectCredential(WithSource(req, k, Some(""))) == SelectCredential(WithSource(req, k, None))
  {
  }

  // ---------------------------------------------------------------------
  // Checking the credential.
  // ---------------------------------------------------------------------

  /** A row of the API-token table; `validUntil` is a day number, `None` for "never expires". */
  datatype ApiToken = ApiToken(id: Guid, token: string, user: Guid, validUntil: Option<int>)

  /** A login session in the session store. */
  datatype LoginSession = LoginSession(userId: Guid)

  /** The stores the handler queries. */
  datatype Store = Store(apiTokens: seq<ApiToken>, sessions: map<string, LoginSession>, users: set<Guid>)

  /** The failures the handler records. */
  datatype AuthError = HeaderMissingOrInvalid | TokenInvalid | SessionInvalid | UnknownError

  /**
   * The outcome of authentication: a user (with the API token used, if any),
   * a recorded failure, or an exception escaping from a store query.
   */
  datatype AuthOutcome =
    | Authenticated(user: Guid, apiToken: Option<Guid>)
    | Failed(error: AuthError)
    | Faulted

  /** The token rule: the token matches and has not expired before `today`. */
  predicate TokenUsable(t: ApiToken, presented: string, today: int)
  {
    t.token == presented && (t.validUntil.None? || t.validUntil.value >= today)
  }

  /**
   * Expiry is by day: a token usable on some day is usable on every earlier
   * day, one without expiry is usable on every day, and one whose last valid
   * day is before `today` is not usable.
   */
  lemma TokenUsableUntilExpiry(t: ApiToken, presented: string, today: int, earlier: int)
    requires t.token == presented && earlier <= today
    ensures TokenUsable(t, presented, today) ==> TokenUsable(t, presented, earlier)
    ensures t.validUntil.None? ==> TokenUsable(t, presented, today)
    ensures t.validUntil.Some? && t.validUntil.value < today ==> !TokenUsable(t, presented, today)
  {
  }

  /** The rows the token query selects, in table order. */
  function Matching(rows: seq<ApiToken>, presented: string, today: int): (m: seq<ApiToken>)
    ensures |m| <= |rows|
    ensures forall t :: t in m <==> t in rows && TokenUsable(t, presented, today)
  {
    if rows == [] then []
    else
      var rest := Matching(rows[1..], presented, today);
      assert forall t :: t in rows <==> t == rows[0] || t in rows[1..];
      if TokenUsable(rows[0], presented, today) then [rows[0]] + rest else rest
  }

  /** `SingleOrDefault`: no element, the one element, or an exception for more than one. */
  datatype Single<T> = NoElement | OneElement(item: T) | ManyElements

  function SingleOrDefault<T>(xs: seq<T>): (r: Single<T>)
    ensures r.NoElement? <==> |xs| == 0
    ensures r.OneElement? <==> |xs| == 1
    ensures r.OneElement? ==> r.item == xs[0]
  {
    if |xs| == 0 then NoElement
    else if |xs| == 1 then OneElement(xs[0])
    else ManyElements
  }

  /** Token authentication. */
  function TokenAuthOutcome(rows: seq<ApiToken>, presented: string, today: int): (r: AuthOutcome)
    ensures r.Authenticated? ==>
      exists t | t in rows :: TokenUsable(t, presented, today) && r.user == t.user && r.apiToken == Some(t.id)
    ensures r.Failed? ==> r.error == TokenInvalid
    ensures r.Failed? <==> forall t | t in rows :: !TokenUsable(t, presented, today)
  {
    var m := Matching(rows, presented, today);
    assert m != [] ==> m[0] in m;
    match SingleOrDefault(m)
    case NoElement => Failed(TokenInvalid)
    case OneElement(t) => Authenticated(t.user, Some(t.id))
    case ManyElements => Faulted
  }

  /** Session authentication. */
  function SessionAuthOutcome(sessions: map<string, LoginSession>, users: set<Guid>, key: string): (r: AuthOutcome)
    ensures r == Failed(SessionInvalid) <==> key !in sessions
    ensures r.Failed? ==> r.error == SessionInvalid
    ensures r.Authenticated? ==>
      key in sessions && r.user == sessions[key].userId && r.user in users && r.apiToken.None?
    ensures key in sessions ==> (r == Faulted <==> sessions[key].userId !in users)
    ensures key in sessions && sessions[key].userId in users ==> r == Authenticated(sessions[key].userId, None)
  {
    if key !in sessions then Failed(SessionInvalid)
    else if sessions[key].userId !in users then Faulted
    else Authenticated(sessions[key].userId, None)
  }

  /** The outcome of `HandleAuthenticateAsync` for a request. */
  function Authenticate(req: Request, store: Store, today: int): (r: AuthOutcome)
    ensures SelectCredential(req).None? <==> r == Failed(HeaderMissingOrInvalid)
  {
    match SelectCredential(req)
    case None => Failed(HeaderMissingOrInvalid)
    case Some(Credential(SessionScheme, key)) => SessionAuthOutcome(store.sessions, store.users, key)
    case Some(Credential(TokenScheme, token)) => TokenAuthOutcome(store.apiTokens, token, today)
  }

  /** A token whose every matching row has expired is rejected. */
  lemma ExpiredTokenRejected(rows: seq<ApiToken>, presented: string, today: int)
    requires forall t | t in rows && t.token == presented :: t.validUntil.Some? && t.validUntil.value < today
    ensures TokenAuthOutcome(rows, presented, today) == Failed(TokenInvalid)
  {
  }

  /** A token matched by exactly one usable row authenticates that row's user. */
  lemma UniqueUsableTokenAccepted(rows: seq<ApiToken>, presented: string, today: int, i: nat)
    requires i < |rows| && TokenUsable(rows[i], presented, today)
    requires forall j | 0 <= j < |rows| && j != i :: !TokenUsable(rows[j], presented, today)
    ensures TokenAuthOutcome(rows, presented, today) == Authenticated(rows[i].user, Some(rows[i].id))
  {
    MatchingSingle(rows, presented, today, i);
  }

  lemma {:induction false} MatchingSingle(rows: seq<ApiToken>, presented: string, today: int, i: nat)
    requires i < |rows| && TokenUsable(rows[i], presented, today)
    requires forall j | 0 <= j < |rows| && j != i :: !TokenUsable(rows[j], presented, today)
    ensures Matching(rows, presented, today) == [rows[i]]
  {
    var tail := rows[1..];
    if i == 0 {
      MatchingEmpty(tail, presented, today);
    } else {
      assert forall j | 0 <= j < |tail| :: tail[j] == rows[j + 1];
      MatchingSingle(tail, presented, today, i - 1);
    }
  }

  lemma {:induction false} MatchingEmpty(rows: seq<ApiToken>, presented: string, today: int)
    requires forall j | 0 <= j < |rows| :: !TokenUsable(rows[j], presented, today)
    ensures Matching(rows, presented, today) == []
  {
    if rows != [] {
      assert forall j | 0 <= j < |rows[1..]| :: rows[1..][j] == rows[j + 1];
      MatchingEmpty(rows[1..], presented, today);
    }
  }

  /** Two usable rows for one token make the query throw. */
  lemma DuplicateUsableTokenFaults(rows: seq<ApiToken>, presented: string, today: int, i: nat, j: nat)
    requires i < j < |rows|
    requires TokenUsable(rows[i], presented, today) && TokenUsable(rows[j], presented, today)
    ensures TokenAuthOutcome(rows, presented, today) == Faulted
  {
    MatchingAtLeastTwo(rows, presented, today, i, j);
  }

  lemma {:induction false} MatchingAtLeastTwo(rows: seq<ApiToken>, presented: string, today: int, i: nat, j: nat)
    requires i < j < |rows|
    requires TokenUsable(rows[i], presented, today) && TokenUsable(rows[j], presented, today)
    ensures |Matching(rows, presented, today)| >= 2
  {
    var tail := rows[1..];
    assert forall k | 0 <= k < |tail| :: tail[k] == rows[k + 1];
    if i == 0 {
      assert rows[j] in tail;
    } else {
      MatchingAtLeastTwo(tail, presented, today, i - 1, j - 1);
    }
  }

  // ---------------------------------------------------------------------
  // The handler object.
  // ---------------------------------------------------------------------

  /**
   * One handler instance, created per request. Its fields are the recorded
   * failure, the authenticated client (`_authService.CurrentClient`), the
   * user id stored in the request's items and the response status.
   */
  class LoginSessionAuthentication {
    var authResultError: Option<AuthError>
    var currentClient: Option<Guid>
    var contextUser: Option<Guid>
    var responseStatus: Option<int>

    constructor ()
      ensures authResultError == None && currentClient == None
      ensures contextUser == None && responseStatus == None
    {
      authResultError := None;
      currentClient := None;
      contextUser := None;
      responseStatus := None;
    }

    /** The fields after authentication ended with outcome `r`. */
    twostate predicate Recorded(r: AuthOutcome)
      reads this
    {
      && authResultError == (if r.Failed? then Some(r.error) else old(authResultError))
      && currentClient == (if r.Authenticated? then Some(r.user) else old(currentClient))
      && contextUser == (if r.Authenticated? then Some(r.user) else old(contextUser))
      && responseStatus == old(responseStatus)
    }

    /** Records the reason and returns the failed result. */
    method Fail(reason: AuthError) returns (r: AuthOutcome)
      modifies this
      ensures r == Failed(reason)
      ensures authResultError == Some(reason)
      ensures Recorded(r)
    {
      authResultError := Some(reason);
      r := Failed(reason);
    }

    method TokenAuth(token: string, rows: seq<ApiToken>, today: int) returns (r: AuthOutcome)
      modifies this
      ensures r == TokenAuthOutcome(rows, token, today)
      ensures Recorded(r)
    {
      match SingleOrDefault(Matching(rows, token, today))
      case NoElement =>
        r := Fail(TokenInvalid);
      case ManyElements =>
        r := Faulted;
      case OneElement(tokenDto) =>
        currentClient := Some(tokenDto.user);
        contextUser := currentClient;
        r := Authenticated(tokenDto.user, Some(tokenDto.id));
    }

    method SessionAuth(sessionKey: string, sessions: map<string, LoginSession>, users: set<Guid>)
      returns (r: AuthOutcome)
      modifies this
      ensures r == SessionAuthOutcome(sessions, users, sessionKey)
      ensures Recorded(r)
    {
      if sessionKey !in sessions {
        r := Fail(SessionInvalid);
        return;
      }
      var session := sessions[sessionKey];
      if session.userId !in users {
        r := Faulted;
        return;
      }
      currentClient := Some(session.userId);
      contextUser := currentClient;
      r := Authenticated(session.userId, None);
    }

    method HandleAuthenticateAsync(req: Request, store: Store, today: int) returns (r: AuthOutcome)
      modifies this
      ensures r == Authenticate(req, store, today)
      ensures Recorded(r)
    {
      if !IsNullOrEmpty(req.sessionCookie) {
        r := SessionAuth(req.sessionCookie.value, store.sessions, store.users);
      } else if !IsNullOrEmpty(req.sessionHeader) {
        r := SessionAuth(req.sessionHeader.value, store.sessions, store.users);
      } else if !IsNullOrEmpty(req.legacyTokenHeader) {
        r := TokenAuth(req.legacyTokenHeader.value, store.apiTokens, today);
      } else if !IsNullOrEmpty(req.tokenHeader) {
        r := TokenAuth(req.tokenHeader.value, store.apiTokens, today);
      } else {
        r := Fail(HeaderMissingOrInvalid);
      }
    }

    /**
     * Falls back to `UnknownError` when no failure was recorded and sets the
     * response status from the failure; `statusOf` gives each failure's status.
     */
    method HandleChallengeAsync(statusOf: AuthError -> int)
      modifies this
      ensures authResultError == Some(if old(authResultError).Some? then old(authResultError).value else UnknownError)
      ensures responseStatus == Some(statusOf(authResultError.value))
      ensures currentClient == old(currentClient) && contextUser == old(contextUser)
    {
      if authResultError.None? {
        authResultError := Some(UnknownError);
      }
      responseStatus := Some(statusOf(authResultError.value));
    }
  }

  /**
   * A request authenticated and then challenged by a fresh handler answers
   * with the status of the recorded failure, or of `UnknownError` when none
   * was recorded.
   */
  method ChallengeAfterAuthenticate(req: Request, store: Store, today: int, statusOf: AuthError -> int)
    returns (outcome: AuthOutcome, status: int)
    ensures outcome == Authenticate(req, store, today)
    ensures status == statusOf(if outcome.Failed? then outcome.error else UnknownError)
  {
    var handler := new LoginSessionAuthentication();
    outcome := handler.HandleAuthenticateAsync(req, store, today);
    handler.HandleChallengeAsync(statusOf);
    status := handler.responseStatus.value;
  }
}
