/** Refresh-token rotation and session deletion over a key store with expiring keys and one clock. */
module AuthTokens {
  import opened Common

  type SessionId = string
  type UserId = string

  const SESSION_TTL_SECONDS: nat := 604_800

  /** What identifies a refresh token; `exp` follows from `iat`, since one function signs them all. */
  datatype Token = Token(session: SessionId, iat: int)

  datatype Session = Session(sessionId: SessionId, userId: UserId, expiresAt: int)

  /** Times are milliseconds, token times seconds. `accepted` is the log of TOKEN_REFRESHED entries;
      `issued` holds every session id ever created, `tokens` every refresh token ever signed. */
  datatype State = State(
    lifetime: nat, now: int,
    sessions: map<SessionId, Session>, blocklist: map<Token, int>,
    accepted: seq<Token>, issued: set<SessionId>, tokens: set<Token>)

  function Exp(s: State, t: Token): int {
    t.iat + s.lifetime
  }

  function NowSeconds(now: int): int {
    now / 1000
  }

  /** GET session:id returns data. */
  predicate SessionLive(s: State, id: SessionId) {
    id in s.sessions && s.now < s.sessions[id].expiresAt
  }

  predicate Blocked(s: State, t: Token) {
    t in s.blocklist && s.now < s.blocklist[t]
  }

  datatype Reply = InvalidToken | AlreadyUsed | SessionExpired | Rotated(next: Token)

  /** A token nobody signed, or one past its expiry, does not verify. */
  function RefreshReply(s: State, t: Token): Reply {
    if t !in s.tokens || NowSeconds(s.now) >= Exp(s, t) then InvalidToken
    else if Blocked(s, t) then AlreadyUsed
    else if !SessionLive(s, t.session) then SessionExpired
    else Rotated(Token(t.session, NowSeconds(s.now)))
  }

  function Refresh(s: State, t: Token): State {
    if RefreshReply(s, t).Rotated? then
      var ttl := Exp(s, t) - NowSeconds(s.now);
      s.(blocklist := s.blocklist[t := s.now + 1000 * ttl], accepted := s.accepted + [t],
         tokens := s.tokens + {RefreshReply(s, t).next})
    else s
  }

  /** A login creates a session and signs its first refresh token. */
  function CreateSession(s: State, id: SessionId, user: UserId): State {
    s.(sessions := s.sessions[id := Session(id, user, s.now + 1000 * SESSION_TTL_SECONDS)], issued := s.issued + {id},
       tokens := s.tokens + {Token(id, NowSeconds(s.now))})
  }

  /** Live sessions of `user`, except the one kept. */
  predicate Doomed(now: int, data: Session, user: UserId, keep: Option<SessionId>) {
    now < data.expiresAt && data.userId == user && keep != Some(data.sessionId)
  }

  function DoomedIds(s: State, user: UserId, keep: Option<SessionId>): set<SessionId> {
    set id | id in s.sessions && Doomed(s.now, s.sessions[id], user, keep)
  }

  datatype Event =
    | Wait(until: int)
    | Login(id: SessionId, user: UserId)
    | TryRefresh(token: Token)
    | Logout(id: SessionId)
    | InvalidateUser(user: UserId, keep: Option<SessionId>)

  /** A serial step. Session ids are fresh uuids, and the clock never runs back. */
  function Next(s: State, e: Event): State {
    match e
    case Wait(until) => if until >= s.now then s.(now := until) else s
    case Login(id, user) => if id in s.issued then s else CreateSession(s, id, user)
    case TryRefresh(t) => Refresh(s, t)
    case Logout(id) => s.(sessions := s.sessions - {id})
    case InvalidateUser(user, keep) => s.(sessions := s.sessions - DoomedIds(s, user, keep))
  }

  function Run(s: State, events: seq<Event>): State
    decreases |events|
  {
    if events == [] then s else Run(Next(s, events[0]), events[1..])
  }

  predicate Initial(s: State) {
    s.sessions == map[] && s.blocklist == map[] && s.accepted == [] && s.issued == {} && s.tokens == {}
  }

  // ---------------------------------------------------------------------
  // Single use
  // ---------------------------------------------------------------------

  /** No token was accepted twice; each accepted one is blocklisted beyond its own expiry. */
  ghost predicate Inv(s: State) {
    && (forall i, j :: 0 <= i < j < |s.accepted| ==> s.accepted[i] != s.accepted[j])
    && (forall t :: t in s.accepted <==> t in s.blocklist)
    && (forall t :: t in s.blocklist ==> s.blocklist[t] >= 1000 * Exp(s, t))
    && (forall id :: id in s.sessions ==> id in s.issued && s.sessions[id].sessionId == id)
    && TokensOk(s)
  }

  /** Signed tokens belong to issued sessions and are not from the future; in each session at most one is
      unused, and it is the youngest. */
  ghost predicate TokensOk(s: State) {
    && (forall t :: t in s.accepted ==> t in s.tokens)
    && (forall t :: t in s.tokens ==> t.session in s.issued && t.iat <= NowSeconds(s.now))
    && (forall t, u :: t in s.tokens && u in s.tokens && t.session == u.session && t !in s.accepted && u != t ==>
          u in s.accepted && u.iat < t.iat)
  }

  /** While a token is unexpired its blocklist key cannot have lapsed. */
  lemma KeyOutlivesToken(s: State, t: Token)
    requires Inv(s) && t in s.accepted
    ensures !RefreshReply(s, t).Rotated?
  {
    if NowSeconds(s.now) < Exp(s, t) {
      assert s.now < 1000 * Exp(s, t) <= s.blocklist[t];
    }
  }

  lemma RefreshKeepsTokens(s: State, t: Token)
    requires Inv(s) && RefreshReply(s, t).Rotated?
    ensures TokensOk(Refresh(s, t))
  {
    if t in s.accepted {
      KeyOutlivesToken(s, t);
    }
    var s', next := Refresh(s, t), RefreshReply(s, t).next;
    assert forall u :: u in s'.accepted <==> u in s.accepted || u == t;
    assert forall u :: u in s.tokens && u.session == t.session ==> u.iat <= t.iat;
  }

  lemma StepKeeps(s: State, e: Event)
    requires Inv(s)
    ensures Inv(Next(s, e))
  {
    if e.TryRefresh? && RefreshReply(s, e.token).Rotated? {
      var t := e.token;
      if t in s.accepted {
        KeyOutlivesToken(s, t);
      }
      assert 1000 * NowSeconds(s.now) <= s.now;
      var s' := Next(s, e);
      forall u ensures u in s'.accepted <==> u in s'.blocklist {
        assert u in s'.accepted <==> u in s.accepted || u == t;
      }
      RefreshKeepsTokens(s, t);
    }
  }

  lemma {:induction false} RunKeeps(s: State, events: seq<Event>)
    requires Inv(s)
    ensures Inv(Run(s, events))
    decreases |events|
  {
    if events != [] {
      StepKeeps(s, events[0]);
      RunKeeps(Next(s, events[0]), events[1..]);
    }
  }

  /** In every serial run each token identity is accepted at most once, and never again afterwards,
      however long after its blocklist key has lapsed. */
  lemma RefreshAtMostOnce(s0: State, events: seq<Event>)
    requires Initial(s0)
    ensures var s := Run(s0, events);
            && (forall i, j :: 0 <= i < j < |s.accepted| ==> s.accepted[i] != s.accepted[j])
            && (forall t :: t in s.accepted ==> !RefreshReply(s, t).Rotated?)
  {
    RunKeeps(s0, events);
    var s := Run(s0, events);
    forall t | t in s.accepted ensures !RefreshReply(s, t).Rotated? {
      KeyOutlivesToken(s, t);
    }
  }

  /** Once a session is gone, deleted by logout or invalidation or past its expiry, it stays gone, and no
      refresh for it is accepted in any continuation of the run. */
  lemma {:induction false} GoneSessionNeverRefreshes(s: State, events: seq<Event>, id: SessionId)
    requires id in s.issued && !SessionLive(s, id)
    ensures var s' := Run(s, events);
            && !SessionLive(s', id) && (id !in s.sessions ==> id !in s'.sessions)
            && NoneAcceptedSince(s, s', id)
    decreases |events|
  {
    if events != [] {
      GoneStep(s, events[0], id);
      GoneSessionNeverRefreshes(Next(s, events[0]), events[1..], id);
    }
  }

  lemma GoneStep(s: State, e: Event, id: SessionId)
    requires id in s.issued && !SessionLive(s, id)
    ensures var s' := Next(s, e);
            && id in s'.issued && !SessionLive(s', id) && (id !in s.sessions ==> id !in s'.sessions)
            && NoneAcceptedSince(s, s', id)
  {
  }

  /** From `s` to `s'` no refresh token of the session was accepted. */
  ghost predicate NoneAcceptedSince(s: State, s': State, id: SessionId) {
    && s.accepted <= s'.accepted
    && forall i :: |s.accepted| <= i < |s'.accepted| ==> s'.accepted[i].session != id
  }

  /** In every serial run each session has at most one refresh token that would be accepted. */
  lemma OneUsableTokenPerSession(s0: State, events: seq<Event>, t: Token, u: Token)
    requires Initial(s0) && t.session == u.session
    requires RefreshReply(Run(s0, events), t).Rotated? && RefreshReply(Run(s0, events), u).Rotated?
    ensures t == u
  {
    RunKeeps(s0, events);
    var s := Run(s0, events);
    if t in s.accepted {
      KeyOutlivesToken(s, t);
    } else if u in s.accepted {
      KeyOutlivesToken(s, u);
    }
  }

  /** The rotated token works at once exactly when the rotation does not fall in the very second in which
      the old token was issued: there both are one and the same token. */
  lemma RotatedTokenUsableIff(s: State, t: Token)
    requires Inv(s) && s.lifetime > 0 && RefreshReply(s, t).Rotated?
    ensures RefreshReply(Refresh(s, t), RefreshReply(s, t).next).Rotated? <==> t.iat != NowSeconds(s.now)
  {
    StepKeeps(s, TryRefresh(t));
    var s', next := Refresh(s, t), RefreshReply(s, t).next;
    assert t in s'.accepted;
    if t.iat == NowSeconds(s.now) {
      KeyOutlivesToken(s', t);
    } else {
      RotatedIsUnused(s, t);
    }
  }

  lemma RotatedIsUnused(s: State, t: Token)
    requires Inv(s) && RefreshReply(s, t).Rotated? && t.iat != NowSeconds(s.now)
    ensures RefreshReply(s, t).next !in Refresh(s, t).blocklist
  {
    if t in s.accepted {
      KeyOutlivesToken(s, t);
    }
    assert forall u :: u in s.tokens && u.session == t.session ==> u.iat <= t.iat;
  }

  /** After such a rotation the session has no refresh token left: no continuation accepts one. */
  lemma SameSecondRotationEndsSession(s: State, t: Token, events: seq<Event>)
    requires Inv(s) && RefreshReply(s, t).Rotated? && t.iat == NowSeconds(s.now)
    ensures NoneAcceptedSince(Refresh(s, t), Run(Refresh(s, t), events), t.session)
  {
    if t in s.accepted {
      KeyOutlivesToken(s, t);
    }
    var s' := Refresh(s, t);
    StepKeeps(s, TryRefresh(t));
    forall u | u in s'.tokens && u.session == t.session ensures u in s'.accepted {
      assert u in s.accepted || u == t;
      assert s'.accepted[|s.accepted|] == t;
    }
    SpentSessionNeverRefreshes(s', events, t.session);
  }

  /** Such a session is reached from every start: a client that logs in and refreshes at once, within the
      second, has used up its only refresh token. */
  lemma RefreshAtOnceEndsSession(s0: State, id: SessionId, user: UserId, events: seq<Event>)
    requires Initial(s0) && s0.lifetime > 0
    ensures var t := Token(id, NowSeconds(s0.now));
            var s := Run(s0, [Login(id, user), TryRefresh(t)]);
            s.accepted == [t] && SessionLive(s, id) && NoneAcceptedSince(s, Run(s, events), id)
  {
    var t := Token(id, NowSeconds(s0.now));
    var login, refresh := Login(id, user), TryRefresh(t);
    StepKeeps(s0, login);
    var s1 := Next(s0, login);
    assert [login, refresh][1..] == [refresh] && [refresh][1..] == [];
    assert Run(s0, [login, refresh]) == Run(s1, [refresh]) == Run(Refresh(s1, t), []) == Refresh(s1, t);
    SameSecondRotationEndsSession(s1, t, events);
  }

  /** Every refresh token the session ever had has been used. */
  ghost predicate Spent(s: State, id: SessionId) {
    id in s.issued && forall u :: u in s.tokens && u.session == id ==> u in s.accepted
  }

  lemma SpentStep(s: State, e: Event, id: SessionId)
    requires Inv(s) && Spent(s, id)
    ensures Spent(Next(s, e), id)
    ensures NoneAcceptedSince(s, Next(s, e), id)
  {
    if e.TryRefresh? && e.token in s.accepted {
      KeyOutlivesToken(s, e.token);
    }
  }

  lemma {:induction false} SpentSessionNeverRefreshes(s: State, events: seq<Event>, id: SessionId)
    requires Inv(s) && Spent(s, id)
    ensures NoneAcceptedSince(s, Run(s, events), id)
    decreases |events|
  {
    if events != [] {
      StepKeeps(s, events[0]);
      SpentStep(s, events[0], id);
      SpentSessionNeverRefreshes(Next(s, events[0]), events[1..], id);
    }
  }

  // ---------------------------------------------------------------------
  // When a refresh is accepted
  // ---------------------------------------------------------------------

  lemma {:induction false} RunConcat(s: State, a: seq<Event>, b: seq<Event>)
    ensures Run(s, a + b) == Run(Run(s, a), b)
    decreases |a|
  {
    if a == [] {
      assert a + b == b;
    } else {
      assert (a + b)[1..] == a[1..] + b;
      RunConcat(Next(s, a[0]), a[1..], b);
    }
  }

  /** The event takes the session of that user away: its logout, or an invalidation that does not keep it. */
  predicate Removes(e: Event, id: SessionId, user: UserId) {
    e == Logout(id) || (e.InvalidateUser? && e.user == user && e.keep != Some(id))
  }

  ghost predicate NoneRemoves(events: seq<Event>, id: SessionId, user: UserId) {
    forall j :: 0 <= j < |events| ==> !Removes(events[j], id, user)
  }

  lemma LiveStep(s: State, e: Event, id: SessionId, user: UserId)
    requires Inv(s) && id in s.sessions && s.sessions[id].userId == user
    ensures var s' := Next(s, e);
            && (!Removes(e, id, user) ==> id in s'.sessions && s'.sessions[id] == s.sessions[id])
            && (Removes(e, id, user) ==> !SessionLive(s', id) && id in s'.issued)
  {
  }

  /** A session lives exactly until its expiry or the first event that removes it. */
  lemma {:induction false} LivesUntil(s: State, events: seq<Event>, id: SessionId, user: UserId)
    requires Inv(s) && id in s.sessions && s.sessions[id].userId == user
    ensures SessionLive(Run(s, events), id) <==>
              Run(s, events).now < s.sessions[id].expiresAt && NoneRemoves(events, id, user)
    decreases |events|
  {
    if events != [] {
      var e, rest := events[0], events[1..];
      LiveStep(s, e, id, user);
      StepKeeps(s, e);
      if Removes(e, id, user) {
        GoneSessionNeverRefreshes(Next(s, e), rest, id);
      } else {
        LivesUntil(Next(s, e), rest, id, user);
        assert NoneRemoves(events, id, user) <==> NoneRemoves(rest, id, user) by {
          assert events == [e] + rest;
        }
      }
    }
  }

  predicate LogsIn(e: Event, id: SessionId) {
    e.Login? && e.id == id
  }

  lemma {:induction false} NotYetIssued(s: State, events: seq<Event>, id: SessionId)
    requires id !in s.issued && forall j :: 0 <= j < |events| ==> !LogsIn(events[j], id)
    ensures id !in Run(s, events).issued
    decreases |events|
  {
    if events != [] {
      NotYetIssued(Next(s, events[0]), events[1..], id);
    }
  }

  /** The events up to a login, the login, and what follows. */
  lemma SplitAtLogin(s0: State, events: seq<Event>, k: nat, id: SessionId, user: UserId)
    requires Initial(s0) && k < |events| && events[k] == Login(id, user)
    requires forall j :: 0 <= j < k ==> !LogsIn(events[j], id)
    ensures var s := Run(s0, events[..k]);
            && Inv(s) && id !in s.issued && Run(s0, events) == Run(CreateSession(s, id, user), events[k + 1..])
  {
    var s := Run(s0, events[..k]);
    RunKeeps(s0, events[..k]);
    NotYetIssued(s0, events[..k], id);
    assert events == events[..k] + events[k..] && events[k..][1..] == events[k + 1..];
    RunConcat(s0, events[..k], events[k..]);
  }

  /** In every serial run, a refresh for a session is accepted exactly when the token was signed and is
      unused and unexpired, the session's login was less than seven days ago, and no logout or
      invalidation has removed the session since. */
  lemma RefreshAcceptedIff(s0: State, events: seq<Event>, k: nat, id: SessionId, user: UserId, t: Token)
    requires Initial(s0) && k < |events| && events[k] == Login(id, user) && t.session == id
    requires forall j :: 0 <= j < k ==> !LogsIn(events[j], id)
    ensures var s := Run(s0, events);
            RefreshReply(s, t).Rotated? <==>
              && t in s.tokens && t !in s.accepted && s.now < 1000 * (t.iat + s.lifetime)
              && s.now < Run(s0, events[..k]).now + 604_800_000
              && NoneRemoves(events[k + 1..], id, user)
  {
    var login := Run(s0, events[..k]);
    SplitAtLogin(s0, events, k, id, user);
    var s1 := CreateSession(login, id, user);
    StepKeeps(login, Login(id, user));
    LivesUntil(s1, events[k + 1..], id, user);
    RunKeeps(s0, events);
    var s := Run(s0, events);
    if t in s.accepted {
      KeyOutlivesToken(s, t);
    }
  }

  predicate Tries(e: Event, id: SessionId) {
    e.TryRefresh? && e.token.session == id
  }

  lemma {:induction false} UntriedStaysUnused(s: State, events: seq<Event>, t: Token)
    requires t in s.tokens && t !in s.accepted && forall j :: 0 <= j < |events| ==> !Tries(events[j], t.session)
    ensures t in Run(s, events).tokens && t !in Run(s, events).accepted
    ensures Run(s, events).lifetime == s.lifetime
    decreases |events|
  {
    if events != [] {
      UntriedStaysUnused(Next(s, events[0]), events[1..], t);
    }
  }

  /** On the events alone: the token of a login, not yet tried, is accepted exactly within its lifetime,
      counted from the second of the login, and within seven days of the login, unless the session was
      removed. */
  lemma FirstRefreshAcceptedIff(s0: State, events: seq<Event>, k: nat, id: SessionId, user: UserId)
    requires Initial(s0) && k < |events| && events[k] == Login(id, user)
    requires forall j :: 0 <= j < k ==> !LogsIn(events[j], id)
    requires forall j :: k < j < |events| ==> !Tries(events[j], id)
    ensures var login, s := Run(s0, events[..k]).now, Run(s0, events);
            RefreshReply(s, Token(id, login / 1000)).Rotated? <==>
              && s.now < 1000 * (login / 1000 + s0.lifetime) && s.now < login + 604_800_000
              && NoneRemoves(events[k + 1..], id, user)
  {
    var login := Run(s0, events[..k]);
    var t := Token(id, login.now / 1000);
    RefreshAcceptedIff(s0, events, k, id, user, t);
    SplitAtLogin(s0, events, k, id, user);
    var s1 := CreateSession(login, id, user);
    assert t !in login.accepted by {
      assert t in login.accepted ==> t in login.tokens;
    }
    UntriedStaysUnused(s1, events[k + 1..], t);
    LifetimeFixed(s0, events[..k]);
  }

  lemma {:induction false} LifetimeFixed(s: State, events: seq<Event>)
    ensures Run(s, events).lifetime == s.lifetime
    decreases |events|
  {
    if events != [] {
      LifetimeFixed(Next(s, events[0]), events[1..]);
    }
  }

  // ---------------------------------------------------------------------
  // Deleting a user's sessions
  // ---------------------------------------------------------------------

  /** After the deletion the user has no live session but the kept one, and everyone else's data is
      exactly what it was. */
  lemma InvalidationIsExact(s: State, user: UserId, keep: Option<SessionId>, id: SessionId)
    requires Inv(s)
    ensures var s' := Next(s, InvalidateUser(user, keep));
            && (SessionLive(s', id) && s'.sessions[id].userId == user ==> keep == Some(id))
            && (id in s.sessions && (s.sessions[id].userId != user || keep == Some(id)) ==>
                id in s'.sessions && s'.sessions[id] == s.sessions[id])
  {
  }

  /** The key store, changed in place. */
  class SessionStore {
    var now: int
    var sessions: map<SessionId, Session>
    var blocklist: map<Token, int>
    var accepted: seq<Token>
    var issued: set<SessionId>
    var tokens: set<Token>
    const lifetime: nat

    constructor (lifetime: nat, now: int)
      ensures Initial(View()) && this.lifetime == lifetime && this.now == now
    {
      this.lifetime, this.now := lifetime, now;
      sessions, blocklist, accepted, issued, tokens := map[], map[], [], {}, {};
    }

    function View(): State
      reads this
    {
      State(lifetime, now, sessions, blocklist, accepted, issued, tokens)
    }

    method RefreshAccessToken(t: Token) returns (r: Reply)
      modifies this`blocklist, this`accepted, this`tokens
      ensures r == RefreshReply(old(View()), t)
      ensures View() == Refresh(old(View()), t)
    {
      var seconds := now / 1000;
      if t !in tokens || seconds >= t.iat + lifetime { return InvalidToken; }
      if t in blocklist && now < blocklist[t] { return AlreadyUsed; }
      if t.session !in sessions || now >= sessions[t.session].expiresAt { return SessionExpired; }
      var ttl := t.iat + lifetime - seconds;
      if ttl > 0 {
        blocklist := blocklist[t := now + 1000 * ttl];
      }
      accepted := accepted + [t];
      var rotated := Token(t.session, seconds);
      tokens := tokens + {rotated};
      r := Rotated(rotated);
    }

    /** What a completed login leaves: a session under a fresh id, and its refresh token. */
    method IssueFullTokens(id: SessionId, user: UserId) returns (refresh: Token)
      requires id !in issued
      modifies this`sessions, this`issued, this`tokens
      ensures View() == Next(old(View()), Login(id, user))
      ensures refresh in tokens && refresh.session == id
    {
      sessions := sessions[id := Session(id, user, now + 1000 * SESSION_TTL_SECONDS)];
      issued := issued + {id};
      refresh := Token(id, now / 1000);
      tokens := tokens + {refresh};
    }

    /** Walks the pages a cursor scan returns, repeats allowed, as long as every key is on some page. */
    method DeleteSessionsByUserId(user: UserId, keep: Option<SessionId>, pages: seq<seq<SessionId>>)
      requires forall id :: id in sessions ==> exists p :: 0 <= p < |pages| && id in pages[p]
      modifies this`sessions
      ensures View() == Next(old(View()), InvalidateUser(user, keep))
    {
      ghost var before := View();
      ghost var done: set<SessionId> := {};
      for p := 0 to |pages|
        invariant forall q, id :: 0 <= q < p && id in pages[q] ==> id in done
        invariant sessions == before.sessions - (done * DoomedIds(before, user, keep))
      {
        for k := 0 to |pages[p]|
          invariant forall q, id :: 0 <= q < p && id in pages[q] ==> id in done
          invariant forall i :: 0 <= i < k ==> pages[p][i] in done
          invariant sessions == before.sessions - (done * DoomedIds(before, user, keep))
        {
          var key := pages[p][k];
          if key in sessions && now < sessions[key].expiresAt {
            var data := sessions[key];
            if data.userId == user && !(keep.Some? && data.sessionId == keep.value) {
              sessions := sessions - {key};
            }
          }
          done := done + {key};
        }
      }
      assert done * DoomedIds(before, user, keep) == DoomedIds(before, user, keep);
    }
  }
}
