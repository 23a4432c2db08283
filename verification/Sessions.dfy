/** Login, Refresh and Logout on the refresh-token table, for calls that do not
    overlap. A session is a chain of single-use tokens, each issued by presenting
    the one before. Times are milliseconds of one monotone clock. */
module Sessions {
  import opened Wrappers

  type UserId = nat
  type RawToken = nat

  /** Seven days. */
  const REFRESH_TTL: nat := 604_800_000

  /** The stored digest of a token; different tokens have different digests. */
  datatype TokenHash = Sha256(raw: RawToken)

  /** A refresh_tokens row, in insertion order. `parent` is a history variable, never
      looked at by the service: the row whose token was presented to get this one. */
  datatype Token = Token(user: UserId, hash: TokenHash, expiresAt: nat, revokedAt: Option<nat>, parent: Option<nat>)

  datatype AuthError = InvalidCredentials | TokenExpired | Unavailable

  /** What Login finds under the presented e-mail address. */
  datatype Lookup = Found(user: UserId, active: bool, passwordOk: bool) | NotFound | LookupFails

  /** Which steps of issueTokenPair succeed. */
  datatype IssueIo = IssueIo(rolesOk: bool, signOk: bool, createOk: bool)

  /** `minted` is the random value generated for the new token; `at` the clock when the
      call checks or revokes a token and `issued` when it stores one. */
  datatype Call =
    | Login(lookup: Lookup, minted: RawToken, issued: nat, io: IssueIo)
    | Refresh(presented: RawToken, minted: RawToken, at: nat, issued: nat,
              getOk: bool, revokeOk: bool, userOk: bool, io: IssueIo)
    | Logout(presented: RawToken, at: nat, getOk: bool, revokeOk: bool)

  function FindFrom(tokens: seq<Token>, h: TokenHash, i: nat): (r: Option<nat>)
    requires i <= |tokens|
    ensures r.Some? ==> i <= r.value < |tokens| && tokens[r.value].hash == h
    ensures r.None? ==> forall j :: i <= j < |tokens| ==> tokens[j].hash != h
    decreases |tokens| - i
  {
    if i == |tokens| then None else if tokens[i].hash == h then Some(i) else FindFrom(tokens, h, i + 1)
  }

  function Find(tokens: seq<Token>, h: TokenHash): Option<nat> {
    FindFrom(tokens, h, 0)
  }

  function Revoked(tokens: seq<Token>, i: nat, at: nat): seq<Token>
    requires i < |tokens|
  {
    tokens[i := tokens[i].(revokedAt := Some(at))]
  }

  function Issued(tokens: seq<Token>, u: UserId, minted: RawToken, issued: nat, parent: Option<nat>, io: IssueIo)
    : (seq<Token>, Result<RawToken, AuthError>)
  {
    if io.rolesOk && io.signOk && io.createOk
    then (tokens + [Token(u, Sha256(minted), issued + REFRESH_TTL, None, parent)], Ok(minted))
    else (tokens, Err(Unavailable))
  }

  function DoLogin(tokens: seq<Token>, c: Call): (seq<Token>, Result<RawToken, AuthError>)
    requires c.Login?
  {
    match c.lookup
    case LookupFails => (tokens, Err(Unavailable))
    case NotFound => (tokens, Err(InvalidCredentials))
    case Found(u, active, passwordOk) =>
      if active && passwordOk then Issued(tokens, u, c.minted, c.issued, None, c.io)
      else (tokens, Err(InvalidCredentials))
  }

  /** The row a Refresh accepts: known, unrevoked, and not past its expiry. */
  function Accepted(tokens: seq<Token>, c: Call): (r: Option<nat>)
    requires c.Refresh?
    ensures r.Some? ==> r.value < |tokens|
  {
    var found := Find(tokens, Sha256(c.presented));
    if c.getOk && found.Some? && tokens[found.value].revokedAt.None? && c.at <= tokens[found.value].expiresAt
    then found else None
  }

  function DoRefresh(tokens: seq<Token>, c: Call): (seq<Token>, Result<RawToken, AuthError>)
    requires c.Refresh?
  {
    var found := Find(tokens, Sha256(c.presented));
    if !c.getOk || found.None? then (tokens, Err(InvalidCredentials))
    else if Accepted(tokens, c).None? then (tokens, Err(TokenExpired))
    else if !c.revokeOk then (tokens, Err(Unavailable))
    else
      var tokens' := Revoked(tokens, found.value, c.at);
      if !c.userOk then (tokens', Err(Unavailable))
      else Issued(tokens', tokens[found.value].user, c.minted, c.issued, found, c.io)
  }

  function DoLogout(tokens: seq<Token>, c: Call): (seq<Token>, Result<RawToken, AuthError>)
    requires c.Logout?
  {
    var found := Find(tokens, Sha256(c.presented));
    if !c.getOk || found.None? then (tokens, Ok(c.presented))
    else if !c.revokeOk then (tokens, Err(Unavailable))
    else (Revoked(tokens, found.value, c.at), Ok(c.presented))
  }

  function Do(tokens: seq<Token>, c: Call): (seq<Token>, Result<RawToken, AuthError>) {
    match c
    case Login(_, _, _, _) => DoLogin(tokens, c)
    case Refresh(_, _, _, _, _, _, _, _) => DoRefresh(tokens, c)
    case Logout(_, _, _, _) => DoLogout(tokens, c)
  }

  // ----- What each call does -----

  lemma {:induction false} FindUnique(tokens: seq<Token>, i: nat, k: nat)
    requires k <= i < |tokens| && forall j :: k <= j < i ==> tokens[j].hash != tokens[i].hash
    ensures FindFrom(tokens, tokens[i].hash, k) == Some(i)
    decreases i - k
  {
    if k < i {
      FindUnique(tokens, i, k + 1);
    }
  }

  predicate AllOk(io: IssueIo) {
    io.rolesOk && io.signOk && io.createOk
  }

  /** Row `i` is the one whose digest is that of the presented token. */
  ghost predicate IsRow(tokens: seq<Token>, raw: RawToken, i: nat) {
    && i < |tokens| && tokens[i].hash == Sha256(raw)
    && forall j :: 0 <= j < |tokens| && j != i ==> tokens[j].hash != Sha256(raw)
  }

  ghost predicate Unknown(tokens: seq<Token>, raw: RawToken) {
    forall j :: 0 <= j < |tokens| ==> tokens[j].hash != Sha256(raw)
  }

  /** Login succeeds if and only if the account is found and active, the password is
      right and a pair can be issued; then one token is stored, good for seven days.
      Otherwise none is. */
  lemma LoginOutcome(tokens: seq<Token>, l: Lookup, minted: RawToken, issued: nat, io: IssueIo)
    ensures var (tokens', pair) := Do(tokens, Login(l, minted, issued, io));
            var known := l.Found? && l.active && l.passwordOk;
            && (pair.Ok? <==> known && AllOk(io))
            && (pair.Ok? ==>
                  && pair.value == minted
                  && tokens' == tokens + [Token(l.user, Sha256(minted), issued + 604_800_000, None, None)])
            && (pair.Err? ==> tokens' == tokens)
            && (pair.Err? ==> pair.error == if known || l.LookupFails? then Unavailable else InvalidCredentials)
  {
  }

  /** Refresh succeeds if and only if the token's row is read, unrevoked and not past its
      expiry, and every later step succeeds. The row is revoked as soon as it has been
      accepted and Revoke works, whatever fails then; one token follows on success. */
  lemma RefreshOutcome(tokens: seq<Token>, c: Call, i: nat)
    requires c.Refresh? && IsRow(tokens, c.presented, i)
    ensures var t := tokens[i];
            var (tokens', pair) := Do(tokens, c);
            var good := t.revokedAt.None? && c.at <= t.expiresAt;
            var revoked := c.getOk && good && c.revokeOk;
            var left := if revoked then tokens[i := t.(revokedAt := Some(c.at))] else tokens;
            var next := Token(t.user, Sha256(c.minted), c.issued + 604_800_000, None, Some(i));
            var why := if !c.getOk then InvalidCredentials else if !good then TokenExpired else Unavailable;
            && (pair.Ok? <==> revoked && c.userOk && AllOk(c.io))
            && (pair.Ok? ==> pair.value == c.minted && tokens' == left + [next])
            && (pair.Err? ==> pair.error == why && tokens' == left)
  {
    FindUnique(tokens, i, 0);
  }

  /** Logout revokes the row it finds, revoked or not, and fails only if Revoke does. */
  lemma LogoutOutcome(tokens: seq<Token>, c: Call, i: nat)
    requires c.Logout? && IsRow(tokens, c.presented, i)
    ensures var (tokens', pair) := Do(tokens, c);
            && (pair.Err? <==> c.getOk && !c.revokeOk) && (pair.Err? ==> pair.error == Unavailable)
            && tokens' == if c.getOk && c.revokeOk then tokens[i := tokens[i].(revokedAt := Some(c.at))] else tokens
  {
    FindUnique(tokens, i, 0);
  }

  /** An unknown token changes nothing; Refresh refuses it and Logout does not mind. */
  lemma UnknownTokenOutcome(tokens: seq<Token>, c: Call)
    requires !c.Login? && Unknown(tokens, c.presented)
    ensures Do(tokens, c).0 == tokens
    ensures if c.Refresh? then Do(tokens, c).1 == Err(InvalidCredentials) else Do(tokens, c).1.Ok?
  {
  }

  // ----- Runs -----

  datatype State = State(tokens: seq<Token>, now: nat)

  /** When the call checks or revokes, and when it ends. */
  function Start(c: Call): nat {
    match c
    case Login(_, _, issued, _) => issued
    case Refresh(_, _, at, _, _, _, _, _) => at
    case Logout(_, at, _, _) => at
  }

  function End(c: Call): nat {
    if c.Refresh? then c.issued else Start(c)
  }

  /** The clock never goes back and random tokens never repeat. */
  ghost predicate CanCall(s: State, c: Call) {
    && s.now <= Start(c) <= End(c)
    && (!c.Logout? ==> forall i :: 0 <= i < |s.tokens| ==> s.tokens[i].hash != Sha256(c.minted))
  }

  function Next(s: State, c: Call): State {
    State(Do(s.tokens, c).0, End(c))
  }

  ghost predicate CanRun(s: State, calls: seq<Call>) {
    calls != [] ==> CanRun(s, calls[..|calls| - 1]) && CanCall(After(s, calls[..|calls| - 1]), calls[|calls| - 1])
  }

  function After(s: State, calls: seq<Call>): State {
    if calls == [] then s else Next(After(s, calls[..|calls| - 1]), calls[|calls| - 1])
  }

  // ----- Chains -----

  /** What ties token `j` to the token presented for it. */
  ghost predicate GoodLink(tokens: seq<Token>, j: nat)
    requires j < |tokens|
  {
    tokens[j].parent.Some? ==>
      var i := tokens[j].parent.value;
      && i < j && tokens[i].revokedAt.Some?
      && tokens[i].user == tokens[j].user && tokens[i].expiresAt <= tokens[j].expiresAt
  }

  ghost predicate Linked(tokens: seq<Token>) {
    && (forall j :: 0 <= j < |tokens| ==> GoodLink(tokens, j))
    && (forall j, k :: 0 <= j < k < |tokens| && tokens[j].parent.Some? ==> tokens[j].parent != tokens[k].parent)
  }

  ghost predicate Inv(s: State) {
    && Linked(s.tokens)
    && (forall i, j :: 0 <= i < j < |s.tokens| ==> s.tokens[i].hash != s.tokens[j].hash)
    && (forall i :: 0 <= i < |s.tokens| ==> s.tokens[i].expiresAt <= s.now + REFRESH_TTL)
    && (forall i :: 0 <= i < |s.tokens| && s.tokens[i].revokedAt.None? ==>
          forall j :: 0 <= j < |s.tokens| ==> s.tokens[j].parent != Some(i))
  }

  lemma RevokeKeepsInv(s: State, i: nat, at: nat)
    requires Inv(s) && i < |s.tokens|
    ensures Inv(s.(tokens := Revoked(s.tokens, i, at)))
  {
    var tokens := Revoked(s.tokens, i, at);
    forall j | 0 <= j < |tokens| ensures GoodLink(tokens, j) {
      assert GoodLink(s.tokens, j);
    }
  }

  lemma IssueKeepsInv(s: State, u: UserId, minted: RawToken, issued: nat, parent: Option<nat>, io: IssueIo)
    requires Inv(s) && s.now <= issued
    requires forall i :: 0 <= i < |s.tokens| ==> s.tokens[i].hash != Sha256(minted)
    requires parent.Some? ==> parent.value < |s.tokens| && s.tokens[parent.value].revokedAt.Some? &&
                              s.tokens[parent.value].user == u &&
                              forall j :: 0 <= j < |s.tokens| ==> s.tokens[j].parent != parent
    ensures Inv(State(Issued(s.tokens, u, minted, issued, parent, io).0, issued))
  {
    var tokens := Issued(s.tokens, u, minted, issued, parent, io).0;
    forall j | 0 <= j < |tokens| ensures GoodLink(tokens, j) {
      if j < |s.tokens| { assert GoodLink(s.tokens, j); }
    }
    forall j | 0 <= j < |tokens| ensures tokens[j].parent != Some(|s.tokens|) {
      assert GoodLink(tokens, j);
    }
  }

  lemma RefreshKeepsInv(s: State, c: Call)
    requires Inv(s) && CanCall(s, c) && c.Refresh?
    ensures Inv(Next(s, c))
  {
    var found := Accepted(s.tokens, c);
    if found.Some? && c.revokeOk {
      RevokeKeepsInv(s, found.value, c.at);
      IssueKeepsInv(s.(tokens := Revoked(s.tokens, found.value, c.at)),
                    s.tokens[found.value].user, c.minted, c.issued, found, c.io);
    }
  }

  lemma CallKeepsInv(s: State, c: Call)
    requires Inv(s) && CanCall(s, c)
    ensures Inv(Next(s, c))
  {
    match c
    case Login(lookup, minted, issued, io) =>
      if lookup.Found? { IssueKeepsInv(s, lookup.user, minted, issued, None, io); }
    case Refresh(_, _, _, _, _, _, _, _) =>
      RefreshKeepsInv(s, c);
    case Logout(presented, at, _, _) =>
      var found := Find(s.tokens, Sha256(presented));
      if found.Some? { RevokeKeepsInv(s, found.value, at); }
  }

  lemma {:induction false} RunKeepsInv(s: State, calls: seq<Call>)
    requires Inv(s) && CanRun(s, calls)
    ensures Inv(After(s, calls))
  {
    if calls != [] {
      RunKeepsInv(s, calls[..|calls| - 1]);
      CallKeepsInv(After(s, calls[..|calls| - 1]), calls[|calls| - 1]);
    }
  }

  /** The token the session's Login issued. */
  ghost function Root(tokens: seq<Token>, j: nat): nat
    requires Linked(tokens) && j < |tokens|
  {
    assert GoodLink(tokens, j);
    if tokens[j].parent.None? then j else Root(tokens, tokens[j].parent.value)
  }

  ghost function Depth(tokens: seq<Token>, j: nat): nat
    requires Linked(tokens) && j < |tokens|
  {
    assert GoodLink(tokens, j);
    if tokens[j].parent.None? then 0 else 1 + Depth(tokens, tokens[j].parent.value)
  }

  /** Token `j` was obtained from token `i` by zero or more refreshes. */
  ghost predicate Descends(tokens: seq<Token>, i: nat, j: nat)
    requires Linked(tokens) && j < |tokens|
  {
    assert GoodLink(tokens, j);
    i == j || (tokens[j].parent.Some? && Descends(tokens, i, tokens[j].parent.value))
  }

  lemma {:induction false} DescendantFacts(tokens: seq<Token>, i: nat, j: nat)
    requires Linked(tokens) && i < |tokens| && j < |tokens| && Descends(tokens, i, j)
    ensures i <= j && tokens[i].expiresAt <= tokens[j].expiresAt && tokens[i].user == tokens[j].user
    ensures i != j ==> tokens[i].revokedAt.Some?
    decreases j
  {
    assert GoodLink(tokens, j);
    if i != j {
      DescendantFacts(tokens, i, tokens[j].parent.value);
    }
  }

  /** One token for each place in a session. */
  lemma {:induction false} PlaceIsUnique(tokens: seq<Token>, i: nat, j: nat)
    requires Linked(tokens) && i < |tokens| && j < |tokens|
    requires Root(tokens, i) == Root(tokens, j) && Depth(tokens, i) == Depth(tokens, j)
    ensures i == j
    decreases i
  {
    assert GoodLink(tokens, i) && GoodLink(tokens, j);
    if Depth(tokens, i) > 0 {
      PlaceIsUnique(tokens, tokens[i].parent.value, tokens[j].parent.value);
    }
  }

  lemma {:induction false} DeeperDescends(tokens: seq<Token>, i: nat, j: nat)
    requires Linked(tokens) && i < |tokens| && j < |tokens|
    requires Root(tokens, i) == Root(tokens, j) && Depth(tokens, i) <= Depth(tokens, j)
    ensures Descends(tokens, i, j)
    decreases j
  {
    assert GoodLink(tokens, j);
    if Depth(tokens, i) == Depth(tokens, j) {
      PlaceIsUnique(tokens, i, j);
    } else {
      DeeperDescends(tokens, i, tokens[j].parent.value);
    }
  }

  /** Of two tokens of one session, one descends from the other, expires no earlier, and
      the older one is revoked. */
  ghost predicate OneChain(tokens: seq<Token>, i: nat, j: nat)
    requires Linked(tokens) && i < j < |tokens|
  {
    Root(tokens, i) == Root(tokens, j) ==>
      && Descends(tokens, i, j) && tokens[i].revokedAt.Some?
      && tokens[i].expiresAt <= tokens[j].expiresAt && tokens[i].user == tokens[j].user
  }

  lemma LinkedIsChain(tokens: seq<Token>, i: nat, j: nat)
    requires Linked(tokens) && i < j < |tokens|
    ensures OneChain(tokens, i, j)
  {
    if Root(tokens, i) == Root(tokens, j) {
      if Depth(tokens, i) <= Depth(tokens, j) {
        DeeperDescends(tokens, i, j);
      } else {
        DeeperDescends(tokens, j, i);
        DescendantFacts(tokens, j, i);
      }
      DescendantFacts(tokens, i, j);
    }
  }

  /** Over every sequence of Login, Refresh and Logout, with any of their steps failing,
      the tokens descending from one Login form a single chain, so at most one token
      of a session is live, and it is the last. */
  lemma SingleChain(calls: seq<Call>, i: nat, j: nat)
    requires CanRun(State([], 0), calls)
    requires i < j < |After(State([], 0), calls).tokens|
    ensures var tokens := After(State([], 0), calls).tokens;
            Linked(tokens) && OneChain(tokens, i, j)
  {
    RunKeepsInv(State([], 0), calls);
    LinkedIsChain(After(State([], 0), calls).tokens, i, j);
  }

  /** A revoked token stays revoked, and stays where it is. */
  lemma {:induction false} RevokedForGood(s: State, calls: seq<Call>, i: nat)
    requires i < |s.tokens| && s.tokens[i].revokedAt.Some?
    ensures var s' := After(s, calls);
            i < |s'.tokens| && s'.tokens[i].hash == s.tokens[i].hash && s'.tokens[i].revokedAt.Some?
  {
    if calls != [] {
      RevokedForGood(s, calls[..|calls| - 1], i);
    }
  }

  lemma {:induction false} AfterConcat(s: State, a: seq<Call>, b: seq<Call>)
    requires CanRun(s, a + b)
    ensures CanRun(s, a) && CanRun(After(s, a), b) && After(s, a + b) == After(After(s, a), b)
    decreases |b|
  {
    if b == [] {
      assert a + b == a;
    } else {
      var front := b[..|b| - 1];
      assert (a + b)[..|a + b| - 1] == a + front;
      AfterConcat(s, a, front);
    }
  }

  /** Single use: once a Refresh has revoked the token it was shown, no later Refresh
      with that token succeeds, whatever happens in between. */
  lemma SingleUse(before: seq<Call>, c: Call, between: seq<Call>, c': Call)
    requires CanRun(State([], 0), before + [c] + between)
    requires c.Refresh? && c'.Refresh? && c.presented == c'.presented
    requires c.revokeOk && Accepted(After(State([], 0), before).tokens, c).Some?
    ensures var s := After(State([], 0), before + [c] + between);
            Do(s.tokens, c').0 == s.tokens && Do(s.tokens, c').1.Err?
  {
    var s0 := State([], 0);
    AfterConcat(s0, before + [c], between);
    var s1 := After(s0, before + [c]);
    assert (before + [c])[..|before|] == before;
    var i := Accepted(After(s0, before).tokens, c).value;
    RunKeepsInv(s0, before + [c] + between);
    RevokedForGood(s1, between, i);
    var s2 := After(s0, before + [c] + between);
    FindUnique(s2.tokens, i, 0);
  }

  // ----- Accounting -----

  predicate IsActive(t: Token, u: UserId, now: nat) {
    t.user == u && t.revokedAt.None? && t.expiresAt > now
  }

  /** CountActiveByUser. */
  function Active(tokens: seq<Token>, u: UserId, now: nat): nat {
    if tokens == [] then 0
    else Active(tokens[..|tokens| - 1], u, now) + if IsActive(tokens[|tokens| - 1], u, now) then 1 else 0
  }

  /** The user's live tokens whose expiry falls after `from` and by `to`. */
  function Expiring(tokens: seq<Token>, u: UserId, from: nat, to: nat): nat {
    if tokens == [] then 0
    else Expiring(tokens[..|tokens| - 1], u, from, to)
         + if IsActive(tokens[|tokens| - 1], u, from) && tokens[|tokens| - 1].expiresAt <= to then 1 else 0
  }

  lemma {:induction false} TimePasses(tokens: seq<Token>, u: UserId, from: nat, to: nat)
    requires from <= to
    ensures Active(tokens, u, from) == Active(tokens, u, to) + Expiring(tokens, u, from, to)
  {
    if tokens != [] {
      TimePasses(tokens[..|tokens| - 1], u, from, to);
    }
  }

  lemma {:induction false} RevokeCounts(tokens: seq<Token>, i: nat, at: nat, u: UserId, now: nat)
    requires i < |tokens|
    ensures Active(Revoked(tokens, i, at), u, now) ==
            Active(tokens, u, now) - if IsActive(tokens[i], u, now) then 1 else 0
  {
    var tokens', n := Revoked(tokens, i, at), |tokens| - 1;
    if i < n {
      RevokeCounts(tokens[..n], i, at, u, now);
      assert tokens'[..n] == Revoked(tokens[..n], i, at);
    } else {
      assert tokens'[..n] == tokens[..n];
    }
  }

  lemma IssueCounts(tokens: seq<Token>, t: Token, u: UserId, now: nat)
    ensures Active(tokens + [t], u, now) == Active(tokens, u, now) + if IsActive(t, u, now) then 1 else 0
  {
  }

  /** What has happened to a user's sessions. `boundaryRefreshes` are successful
      refreshes at the very instant the presented token expires. */
  datatype Tally = Tally(logins: nat, logouts: nat, failedRotations: nat, expiries: nat, boundaryRefreshes: nat)

  function LoggedIn(c: Call, u: UserId): nat
    requires c.Login?
  {
    var l := c.lookup;
    if l.Found? && l.active && l.passwordOk && l.user == u && AllOk(c.io) then 1 else 0
  }

  /** Adds what one call does to the tally of user `u`. */
  function Record(t: Tally, s: State, c: Call, u: UserId): Tally {
    var t' := t.(expiries := t.expiries + Expiring(s.tokens, u, s.now, Start(c)));
    match c
    case Login(_, _, _, _) => t'.(logins := t.logins + LoggedIn(c, u))
    case Logout(presented, at, getOk, revokeOk) =>
      var found := Find(s.tokens, Sha256(presented));
      if getOk && revokeOk && found.Some? && IsActive(s.tokens[found.value], u, at)
      then t'.(logouts := t.logouts + 1) else t'
    case Refresh(_, _, at, issued, _, revokeOk, _, _) =>
      var found := Accepted(s.tokens, c);
      if found.None? || !revokeOk then t'.(expiries := t'.expiries + Expiring(s.tokens, u, at, issued))
      else
        var shown := s.tokens[found.value];
        var t2 := t'.(expiries := t'.expiries + Expiring(Revoked(s.tokens, found.value, at), u, at, issued));
        if shown.user != u then t2
        else if !(c.userOk && AllOk(c.io)) then
          if at < shown.expiresAt then t2.(failedRotations := t.failedRotations + 1) else t2
        else if at == shown.expiresAt then t2.(boundaryRefreshes := t.boundaryRefreshes + 1)
        else t2
  }

  function TallyOf(s: State, calls: seq<Call>, u: UserId): Tally {
    if calls == [] then Tally(0, 0, 0, 0, 0)
    else Record(TallyOf(s, calls[..|calls| - 1], u), After(s, calls[..|calls| - 1]), calls[|calls| - 1], u)
  }

  function Balance(t: Tally): int {
    t.logins + t.boundaryRefreshes - t.logouts - t.failedRotations - t.expiries
  }

  /** The call changes the user's active count by what it adds to the tally. */
  ghost predicate Accounts(t: Tally, s: State, c: Call, u: UserId) {
    Active(Next(s, c).tokens, u, End(c)) - Active(s.tokens, u, s.now) == Balance(Record(t, s, c, u)) - Balance(t)
  }

  lemma LoginAccounts(t: Tally, s: State, c: Call, u: UserId)
    requires CanCall(s, c) && c.Login?
    ensures Accounts(t, s, c, u)
  {
    TimePasses(s.tokens, u, s.now, c.issued);
    if c.lookup.Found? {
      IssueCounts(s.tokens, Token(c.lookup.user, Sha256(c.minted), c.issued + REFRESH_TTL, None, None), u, c.issued);
    }
  }

  lemma LogoutAccounts(t: Tally, s: State, c: Call, u: UserId)
    requires CanCall(s, c) && c.Logout?
    ensures Accounts(t, s, c, u)
  {
    TimePasses(s.tokens, u, s.now, c.at);
    var found := Find(s.tokens, Sha256(c.presented));
    if found.Some? {
      RevokeCounts(s.tokens, found.value, c.at, u, c.at);
    }
  }

  lemma RefusalAccounts(t: Tally, s: State, c: Call, u: UserId)
    requires CanCall(s, c) && c.Refresh? && (Accepted(s.tokens, c).None? || !c.revokeOk)
    ensures Accounts(t, s, c, u)
  {
    TimePasses(s.tokens, u, s.now, c.at);
    TimePasses(s.tokens, u, c.at, c.issued);
  }

  /** What a rotation does to the count, from its check to its end. */
  lemma RotationCounts(tokens: seq<Token>, c: Call, i: nat, u: UserId)
    requires c.Refresh? && c.at <= c.issued && Accepted(tokens, c) == Some(i) && c.revokeOk
    ensures Active(Do(tokens, c).0, u, c.issued) ==
            Active(tokens, u, c.at) - (if IsActive(tokens[i], u, c.at) then 1 else 0)
            - Expiring(Revoked(tokens, i, c.at), u, c.at, c.issued)
            + (if tokens[i].user == u && c.userOk && AllOk(c.io) then 1 else 0)
  {
    var left := Revoked(tokens, i, c.at);
    RevokeCounts(tokens, i, c.at, u, c.at);
    TimePasses(left, u, c.at, c.issued);
    IssueCounts(left, Token(tokens[i].user, Sha256(c.minted), c.issued + REFRESH_TTL, None, Some(i)), u, c.issued);
  }

  lemma RotationAccounts(t: Tally, s: State, c: Call, u: UserId)
    requires CanCall(s, c) && c.Refresh? && Accepted(s.tokens, c).Some? && c.revokeOk
    ensures Accounts(t, s, c, u)
  {
    TimePasses(s.tokens, u, s.now, c.at);
    RotationCounts(s.tokens, c, Accepted(s.tokens, c).value, u);
  }

  lemma RefreshAccounts(t: Tally, s: State, c: Call, u: UserId)
    requires CanCall(s, c) && c.Refresh?
    ensures Accounts(t, s, c, u)
  {
    if Accepted(s.tokens, c).Some? && c.revokeOk {
      RotationAccounts(t, s, c, u);
    } else {
      RefusalAccounts(t, s, c, u);
    }
  }

  lemma CallAccounts(t: Tally, s: State, c: Call, u: UserId)
    requires CanCall(s, c)
    ensures Accounts(t, s, c, u)
  {
    match c
    case Login(_, _, _, _) => LoginAccounts(t, s, c, u);
    case Logout(_, _, _, _) => LogoutAccounts(t, s, c, u);
    case Refresh(_, _, _, _, _, _, _, _) => RefreshAccounts(t, s, c, u);
  }

  /** Session accounting: at every moment a user's active sessions number the logins,
      less the logouts that revoked a live token, the rotations that revoked one and
      issued none, and the expiries. A successful Refresh changes nothing, except that
      at the instant of expiry it revives a session already off the count. */
  lemma {:induction false} SessionAccounting(calls: seq<Call>, u: UserId)
    requires CanRun(State([], 0), calls)
    ensures var s := After(State([], 0), calls);
            Active(s.tokens, u, s.now) == Balance(TallyOf(State([], 0), calls, u))
  {
    if calls != [] {
      var before := calls[..|calls| - 1];
      SessionAccounting(before, u);
      CallAccounts(TallyOf(State([], 0), before, u), After(State([], 0), before), calls[|calls| - 1], u);
    }
  }

  // ----- The service -----

  class RefreshTokenRepository {
    var tokens: seq<Token>

    constructor ()
      ensures tokens == []
    {
      tokens := [];
    }

    method Create(t: Token)
      modifies this
      ensures tokens == old(tokens) + [t]
    {
      tokens := tokens + [t];
    }

    method GetByHash(h: TokenHash) returns (row: Option<nat>)
      ensures row == Find(tokens, h)
    {
      for i := 0 to |tokens|
        invariant FindFrom(tokens, h, 0) == FindFrom(tokens, h, i)
      {
        if tokens[i].hash == h {
          return Some(i);
        }
      }
      return None;
    }

    /** Overwrites revoked_at whether or not it was set. */
    method Revoke(i: nat, now: nat)
      requires i < |tokens|
      modifies this
      ensures tokens == Revoked(old(tokens), i, now)
    {
      tokens := tokens[i := tokens[i].(revokedAt := Some(now))];
    }

    method CountActiveByUser(u: UserId, now: nat) returns (count: nat)
      ensures count == Active(tokens, u, now)
    {
      count := 0;
      for i := 0 to |tokens|
        invariant count == Active(tokens[..i], u, now)
      {
        assert tokens[..i + 1][..i] == tokens[..i];
        if tokens[i].user == u && tokens[i].revokedAt.None? && tokens[i].expiresAt > now {
          count := count + 1;
        }
      }
      assert tokens[..|tokens|] == tokens;
    }
  }

  class AuthService {
    const repository: RefreshTokenRepository

    constructor (repository: RefreshTokenRepository)
      ensures this.repository == repository
    {
      this.repository := repository;
    }

    method IssueTokenPair(u: UserId, minted: RawToken, issued: nat, parent: Option<nat>, io: IssueIo)
      returns (pair: Result<RawToken, AuthError>)
      modifies repository
      ensures (repository.tokens, pair) == Issued(old(repository.tokens), u, minted, issued, parent, io)
    {
      if !io.rolesOk {
        return Err(Unavailable);
      }
      if !io.signOk {
        return Err(Unavailable);
      }
      if !io.createOk {
        return Err(Unavailable);
      }
      repository.Create(Token(u, Sha256(minted), issued + REFRESH_TTL, None, parent));
      return Ok(minted);
    }

    method Login(lookup: Lookup, minted: RawToken, issued: nat, io: IssueIo) returns (pair: Result<RawToken, AuthError>)
      modifies repository
      ensures (repository.tokens, pair) == Do(old(repository.tokens), Call.Login(lookup, minted, issued, io))
    {
      if lookup.LookupFails? {
        return Err(Unavailable);
      }
      if lookup.NotFound? || !lookup.active || !lookup.passwordOk {
        return Err(InvalidCredentials);
      }
      pair := IssueTokenPair(lookup.user, minted, issued, None, io);
    }

    method Refresh(presented: RawToken, minted: RawToken, at: nat, issued: nat,
                   getOk: bool, revokeOk: bool, userOk: bool, io: IssueIo) returns (pair: Result<RawToken, AuthError>)
      modifies repository
      ensures (repository.tokens, pair) ==
              Do(old(repository.tokens), Call.Refresh(presented, minted, at, issued, getOk, revokeOk, userOk, io))
    {
      var row := repository.GetByHash(Sha256(presented));
      if !getOk || row.None? {
        return Err(InvalidCredentials);
      }
      var stored := repository.tokens[row.value];
      if stored.revokedAt.Some? || at > stored.expiresAt {
        return Err(TokenExpired);
      }
      if !revokeOk {
        return Err(Unavailable);
      }
      repository.Revoke(row.value, at);
      if !userOk {
        return Err(Unavailable);
      }
      pair := IssueTokenPair(stored.user, minted, issued, row, io);
    }

    /** Logging out with an unknown token succeeds. */
    method Logout(presented: RawToken, at: nat, getOk: bool, revokeOk: bool) returns (err: Result<RawToken, AuthError>)
      modifies repository
      ensures (repository.tokens, err) == Do(old(repository.tokens), Call.Logout(presented, at, getOk, revokeOk))
    {
      var row := repository.GetByHash(Sha256(presented));
      if !getOk || row.None? {
        return Ok(presented);
      }
      if !revokeOk {
        return Err(Unavailable);
      }
      repository.Revoke(row.value, at);
      return Ok(presented);
    }
  }
}
