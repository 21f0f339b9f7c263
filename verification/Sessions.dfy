/** Users, sessions and the maintenance switch. A refresh token is the session; access tokens are
    claims naming one. Every step is one transaction, and a transaction that fails changes nothing. */
module Sessions {
  import opened Options
  import opened Accounts

  datatype Flags = Flags(status: bool, removed: bool)
  datatype Token = Token(user: string, expires: int, status: bool, removed: bool)
  datatype Claims = Claims(user: string, session: string, expires: int)
  datatype Expiry = Expiry(refresh: nat, access: nat)

  /** prefs is keyed by user, which is unique there. issued are the access tokens the signing key
      vouches for. */
  datatype Sys = Sys(users: map<string, User>, prefs: map<string, Flags>, feeds: map<string, Feed>,
                     tokens: map<string, Token>, appOn: bool, now: int, issued: set<Claims>)

  /** What the source lets happen. An empty new id stands for an id generator that failed. */
  datatype Step =
    | Login(google: string, email: string, userId: string, tokenId: string)
    | Refresh(id: string)
    | Logout(bearer: Claims)
    | Invalidate(bearer: Claims, id: string)
    | InvalidateAll(bearer: Claims, user: string)
    | Toggle(bearer: Claims, on: bool)
    | SavePreferences(bearer: Claims)
    | CreateFeed(bearer: Claims, id: string, name: string, keywords: seq<string>)
    | RemoveUser(user: string)
    | SetAdmin(user: string, admin: bool)
    | Tick(passed: nat)

  // ---------------------------------------------------------------- what a request is allowed

  predicate Active(s: Sys, u: string) {
    ActiveUser(s.users, u)
  }

  predicate HasPrefs(s: Sys, u: string) {
    PrefsIn(s.prefs, u)
  }

  predicate PrefsIn(prefs: map<string, Flags>, u: string) {
    u in prefs && prefs[u].status && !prefs[u].removed
  }

  predicate IsAdmin(s: Sys, u: string) {
    Active(s, u) && s.users[u].admin
  }

  /** RefreshTokenController.FindByID succeeds. */
  predicate Live(s: Sys, id: string) {
    id in s.tokens && s.tokens[id].status && !s.tokens[id].removed && s.now <= s.tokens[id].expires
  }

  predicate Signed(s: Sys, c: Claims) {
    c in s.issued && s.now < c.expires
  }

  predicate Authenticated(s: Sys, c: Claims) {
    Signed(s, c) && c.session != "" && Live(s, c.session)
  }

  predicate AuthenticatedAdmin(s: Sys, c: Claims) {
    Authenticated(s, c) && IsAdmin(s, c.user)
  }

  /** The guard mounted in front of every business route. */
  predicate PassesGuard(s: Sys, c: Claims) {
    s.appOn || AuthenticatedAdmin(s, c)
  }

  // ---------------------------------------------------------------- what a step does

  function Revoked(tokens: map<string, Token>, id: string): map<string, Token> {
    if id in tokens && !tokens[id].removed then tokens[id := tokens[id].(status := false, removed := true)] else tokens
  }

  function AllRevoked(tokens: map<string, Token>, user: string): map<string, Token> {
    map k | k in tokens ::
      if tokens[k].user == user && !tokens[k].removed
      then tokens[k].(status := false, removed := true) else tokens[k]
  }

  /** UpdateUserLastActive. */
  function SeenActive(users: map<string, User>, u: string, now: int): map<string, User> {
    if ActiveUser(users, u) then users[u := users[u].(lastActiveAt := now)] else users
  }

  /** UpdateUserLastLogin. */
  function SeenLogin(users: map<string, User>, u: string, now: int): map<string, User> {
    if ActiveUser(users, u) then users[u := users[u].(lastLoginAt := Some(now))] else users
  }

  predicate IsGoogleUser(s: Sys, google: string, u: string) {
    Active(s, u) && s.users[u].google == google
  }

  ghost function ByGoogle(s: Sys, google: string): (r: Option<string>)
    ensures r.Some? ==> IsGoogleUser(s, google, r.value)
    ensures r.None? ==> forall u :: !IsGoogleUser(s, google, u)
  {
    if exists u :: IsGoogleUser(s, google, u) then var u :| IsGoogleUser(s, google, u); Some(u) else None
  }

  /** The unique constraints look at removed rows too. */
  predicate Taken(s: Sys, google: string, email: string, id: string) {
    id in s.users || exists u :: u in s.users && (s.users[u].google == google || s.users[u].email == email)
  }

  /** CreateUser: the row and its preferences. */
  function Enrolled(s: Sys, google: string, email: string, id: string): Option<Sys> {
    if id == "" || Taken(s, google, email, id) || id in s.prefs then None
    else Some(s.(users := s.users[id := User(google, email, false, true, false, None, s.now)],
                 prefs := s.prefs[id := Flags(true, false)]))
  }

  /** The rest of a login, once the user is known. */
  function Opened(s: Sys, e: Expiry, u: string, tokenId: string): Option<Sys> {
    if !HasPrefs(s, u) || tokenId == "" || tokenId in s.tokens then None
    else
      var users := SeenActive(SeenLogin(s.users, u, s.now), u, s.now);
      Some(WithSession(s.(users := users, tokens := AllRevoked(s.tokens, u)), e, u, tokenId))
  }

  /** GenerateAccessToken: one more access token that the key vouches for. */
  function WithClaims(s: Sys, c: Claims): Sys {
    s.(issued := s.issued + {c})
  }

  function WithSession(s: Sys, e: Expiry, u: string, tokenId: string): Sys {
    s.(tokens := s.tokens[tokenId := Token(u, s.now + e.refresh, true, false)],
       issued := s.issued + {Claims(u, tokenId, s.now + e.access)})
  }

  /** findOrCreateUser: the tables afterwards, and who it is. */
  ghost function Identified(s: Sys, google: string, email: string, userId: string): Option<(Sys, string)> {
    var found := ByGoogle(s, google);
    if found.Some? then Some((s, found.value))
    else
      var enrolled := Enrolled(s, google, email, userId);
      if enrolled.Some? then Some((enrolled.value, userId)) else None
  }

  ghost function LoggedIn(s: Sys, e: Expiry, google: string, email: string, userId: string,
                          tokenId: string): Option<Sys> {
    var who := Identified(s, google, email, userId);
    if who.Some? then Opened(who.value.0, e, who.value.1, tokenId) else None
  }

  function Refreshed(s: Sys, e: Expiry, id: string): Option<Sys> {
    if !Live(s, id) || !Active(s, s.tokens[id].user) || !HasPrefs(s, s.tokens[id].user) then None
    else Some(Extended(s.(users := SeenActive(s.users, s.tokens[id].user, s.now)), e, id))
  }

  /** The token extended, and an access token for it. */
  function Extended(s: Sys, e: Expiry, id: string): Sys
    requires id in s.tokens
  {
    WithClaims(s.(tokens := s.tokens[id := s.tokens[id].(expires := s.now + e.refresh)]),
               Claims(s.tokens[id].user, id, s.now + e.access))
  }

  function WithoutUser(users: map<string, User>, u: string): map<string, User> {
    if u in users && !users[u].removed then users[u := users[u].(status := false, removed := true)] else users
  }

  function WithoutPrefs(prefs: map<string, Flags>, u: string): map<string, Flags> {
    if u in prefs && !prefs[u].removed then prefs[u := Flags(false, true)] else prefs
  }

  /** SoftDeleteUser: four guarded updates. */
  function UserRemoved(s: Sys, u: string): Sys {
    s.(users := WithoutUser(s.users, u), prefs := WithoutPrefs(s.prefs, u),
       tokens := AllRevoked(s.tokens, u), feeds := FeedsRemoved(s.feeds, u))
  }

  function WithFeed(s: Sys, u: string, id: string, name: string, keywords: seq<string>): Sys {
    s.(feeds := FeedAdded(s.feeds, id, u, name, keywords))
  }

  function OrSame(r: Option<Sys>, s: Sys): Sys {
    if r.Some? then r.value else s
  }

  predicate HasBearer(step: Step) {
    step.Logout? || step.Invalidate? || step.InvalidateAll? || step.Toggle? || step.SavePreferences? || step.CreateFeed?
  }

  /** The routes of administrators. */
  predicate ForAdmins(step: Step) {
    step.Invalidate? || step.InvalidateAll? || step.Toggle?
  }

  /** The routes behind the maintenance guard. */
  predicate Guarded(step: Step) {
    step.SavePreferences? || step.CreateFeed?
  }

  /** What the middlewares in front of a route ask. */
  predicate LetIn(s: Sys, step: Step)
    requires HasBearer(step)
  {
    && (Guarded(step) ==> PassesGuard(s, step.bearer))
    && Authenticated(s, step.bearer)
    && (ForAdmins(step) ==> IsAdmin(s, step.bearer.user))
  }

  /** What the handler behind them does. */
  function Handled(s: Sys, e: Expiry, step: Step): Sys
    requires HasBearer(step)
  {
    match step
    case Logout(c) => s.(tokens := Revoked(s.tokens, c.session))
    case Invalidate(_, id) => if id != "" then s.(tokens := Revoked(s.tokens, id)) else s
    case InvalidateAll(_, u) => if u != "" then s.(tokens := AllRevoked(s.tokens, u)) else s
    case Toggle(_, on) => s.(appOn := on)
    case SavePreferences(c) =>
      if HasPrefs(s, c.user) && Active(s, c.user) then WithClaims(s, Claims(c.user, c.session, s.now + e.access)) else s
    case CreateFeed(c, id, name, keywords) => if id != "" then WithFeed(s, c.user, id, name, keywords) else s
  }

  /** What is no request: a removal, a promotion, the clock. */
  predicate IsInternal(step: Step) {
    step.RemoveUser? || step.SetAdmin? || step.Tick?
  }

  function Performed(s: Sys, step: Step): Sys
    requires IsInternal(step)
  {
    match step
    case RemoveUser(u) => UserRemoved(s, u)
    case SetAdmin(u, admin) => if Active(s, u) then s.(users := s.users[u := s.users[u].(admin := admin)]) else s
    case Tick(passed) => s.(now := s.now + passed)
  }

  ghost function Next(s: Sys, e: Expiry, step: Step): Sys {
    if IsInternal(step) then Performed(s, step)
    else if HasBearer(step) then if LetIn(s, step) then Handled(s, e, step) else s
    else
      match step
      case Login(g, m, u, t) => OrSame(LoggedIn(s, e, g, m, u, t), s)
      case Refresh(id) => if id == "" then s else OrSame(Refreshed(s, e, id), s)
  }

  ghost function Run(s: Sys, e: Expiry, steps: seq<Step>): Sys {
    if steps == [] then s else Next(Run(s, e, steps[..|steps| - 1]), e, steps[|steps| - 1])
  }

  // ---------------------------------------------------------------- the invariant

  predicate SameIdentity(a: User, b: User) {
    a.google == b.google || a.email == b.email
  }

  ghost predicate UsersDistinct(users: map<string, User>) {
    forall u, v :: u in users && v in users && u != v ==> !SameIdentity(users[u], users[v])
  }

  /** The active predicates of two tables agree: an active user always has active preferences. */
  ghost predicate PrefsFollow(users: map<string, User>, prefs: map<string, Flags>) {
    prefs.Keys <= users.Keys
    && (forall u :: u in users ==> users[u].status == !users[u].removed && (users[u].status ==> PrefsIn(prefs, u)))
  }

  ghost predicate TokensFollow(users: map<string, User>, tokens: map<string, Token>) {
    "" !in tokens
    && (forall k :: k in tokens ==>
          && tokens[k].status == !tokens[k].removed && tokens[k].user in users
          && (tokens[k].status ==> ActiveUser(users, tokens[k].user)))
  }

  /** Every feed belongs to some user, and its two flags agree. */
  ghost predicate FeedsOwned(users: map<string, User>, feeds: map<string, Feed>) {
    forall k :: k in feeds ==> feeds[k].status == !feeds[k].removed && feeds[k].user in users
  }

  /** An active feed has an active owner. */
  ghost predicate FeedsFollow(users: map<string, User>, feeds: map<string, Feed>) {
    forall k :: k in feeds && feeds[k].status ==> ActiveUser(users, feeds[k].user)
  }

  /** No user has two unrevoked refresh tokens. */
  ghost predicate OneSession(tokens: map<string, Token>) {
    forall j, k :: j in tokens && k in tokens && j != k && !tokens[j].removed && !tokens[k].removed ==>
      tokens[j].user != tokens[k].user
  }

  /** Claims name a session of their own user. */
  ghost predicate ClaimsMatch(tokens: map<string, Token>, issued: set<Claims>) {
    forall c :: c in issued ==> c.session in tokens && tokens[c.session].user == c.user
  }

  /** All but the agreement of feeds with their owners. */
  ghost predicate Core(s: Sys) {
    UsersDistinct(s.users) && PrefsFollow(s.users, s.prefs) && TokensFollow(s.users, s.tokens)
    && FeedsOwned(s.users, s.feeds) && OneSession(s.tokens) && ClaimsMatch(s.tokens, s.issued)
  }

  ghost predicate Safe(s: Sys) {
    Core(s) && FeedsFollow(s.users, s.feeds)
  }

  /** What most steps do for the invariant: t keeps it, with or without the last part. */
  ghost predicate Keeps(s: Sys, t: Sys) {
    Core(t) && (FeedsFollow(s.users, s.feeds) ==> FeedsFollow(t.users, t.feeds))
  }

  /** A migrated database: no users, and the application switched on. */
  function Migrated(now: int): Sys {
    Sys(map[], map[], map[], map[], true, now, {})
  }

  lemma EnrolKeepsSafe(s: Sys, google: string, email: string, id: string)
    requires Core(s) && Enrolled(s, google, email, id).Some?
    ensures Keeps(s, Enrolled(s, google, email, id).value)
  {
    var t := Enrolled(s, google, email, id).value;
    assert UsersDistinct(t.users) by {
      assert forall u :: u in s.users ==> !SameIdentity(s.users[u], t.users[id]);
    }
    assert PrefsFollow(t.users, t.prefs);
    assert TokensFollow(t.users, t.tokens);
    assert FeedsOwned(t.users, t.feeds);
  }

  lemma RevokeAllKeepsSafe(users: map<string, User>, tokens: map<string, Token>, issued: set<Claims>, u: string)
    requires TokensFollow(users, tokens) && OneSession(tokens) && ClaimsMatch(tokens, issued)
    ensures TokensFollow(users, AllRevoked(tokens, u)) && OneSession(AllRevoked(tokens, u))
    ensures ClaimsMatch(AllRevoked(tokens, u), issued)
    ensures NoSession(AllRevoked(tokens, u), u)
  {
  }

  ghost predicate NoSession(tokens: map<string, Token>, u: string) {
    forall k :: k in tokens && tokens[k].user == u ==> tokens[k].removed
  }

  /** Closing the user's sessions makes room for one. */
  lemma AddTokenKeepsSafe(users: map<string, User>, tokens: map<string, Token>, issued: set<Claims>, id: string,
                          t: Token)
    requires TokensFollow(users, tokens) && OneSession(tokens) && ClaimsMatch(tokens, issued)
    requires NoSession(tokens, t.user) && ActiveUser(users, t.user) && id !in tokens && id != "" && t.status
    requires !t.removed
    ensures TokensFollow(users, tokens[id := t]) && OneSession(tokens[id := t]) && ClaimsMatch(tokens[id := t], issued)
  {
  }

  lemma IssueKeepsMatch(tokens: map<string, Token>, issued: set<Claims>, c: Claims)
    requires ClaimsMatch(tokens, issued) && c.session in tokens && tokens[c.session].user == c.user
    ensures ClaimsMatch(tokens, issued + {c})
  {
  }

  /** The columns that the other tables depend on. */
  predicate SameStanding(a: User, b: User) {
    a.google == b.google && a.email == b.email && a.status == b.status && a.removed == b.removed
  }

  lemma StandingKeepsSafe(s: Sys, u: string, row: User)
    requires Core(s) && u in s.users && SameStanding(s.users[u], row)
    ensures Keeps(s, s.(users := s.users[u := row]))
  {
    var users := s.users[u := row];
    assert UsersDistinct(users);
    assert PrefsFollow(users, s.prefs);
    assert TokensFollow(users, s.tokens);
    assert FeedsOwned(users, s.feeds);
  }

  lemma SeenKeepsSafe(s: Sys, u: string)
    requires Core(s)
    ensures Keeps(s, s.(users := SeenActive(s.users, u, s.now)))
    ensures Keeps(s, s.(users := SeenLogin(s.users, u, s.now)))
  {
    if Active(s, u) {
      StandingKeepsSafe(s, u, s.users[u].(lastActiveAt := s.now));
      StandingKeepsSafe(s, u, s.users[u].(lastLoginAt := Some(s.now)));
    }
  }

  lemma SessionKeepsSafe(s: Sys, e: Expiry, u: string, tokenId: string)
    requires Core(s) && Active(s, u) && tokenId != "" && tokenId !in s.tokens
    ensures Keeps(s, WithSession(s.(tokens := AllRevoked(s.tokens, u)), e, u, tokenId))
  {
    var revoked := AllRevoked(s.tokens, u);
    var t := Token(u, s.now + e.refresh, true, false);
    RevokeAllKeepsSafe(s.users, s.tokens, s.issued, u);
    AddTokenKeepsSafe(s.users, revoked, s.issued, tokenId, t);
    IssueKeepsMatch(revoked[tokenId := t], s.issued, Claims(u, tokenId, s.now + e.access));
  }

  lemma OpenKeepsSafe(s: Sys, e: Expiry, u: string, tokenId: string)
    requires Core(s) && Active(s, u) && Opened(s, e, u, tokenId).Some?
    ensures Keeps(s, Opened(s, e, u, tokenId).value)
  {
    var login := s.(users := SeenLogin(s.users, u, s.now));
    SeenKeepsSafe(s, u);
    SeenKeepsSafe(login, u);
    SessionKeepsSafe(login.(users := SeenActive(login.users, u, s.now)), e, u, tokenId);
  }

  /** A token that is revoked or extended keeps its user, and is never brought back. */
  lemma ChangeTokenKeepsSafe(users: map<string, User>, tokens: map<string, Token>, issued: set<Claims>, id: string,
                             t: Token)
    requires TokensFollow(users, tokens) && OneSession(tokens) && ClaimsMatch(tokens, issued)
    requires id in tokens && t.user == tokens[id].user && t.status == !t.removed && (tokens[id].removed ==> t.removed)
    ensures TokensFollow(users, tokens[id := t]) && OneSession(tokens[id := t]) && ClaimsMatch(tokens[id := t], issued)
  {
  }

  lemma RevokeKeepsSafe(s: Sys, id: string)
    requires Core(s)
    ensures Keeps(s, s.(tokens := Revoked(s.tokens, id)))
  {
    if id in s.tokens && !s.tokens[id].removed {
      ChangeTokenKeepsSafe(s.users, s.tokens, s.issued, id, s.tokens[id].(status := false, removed := true));
    }
  }

  lemma RefreshKeepsSafe(s: Sys, e: Expiry, id: string)
    requires Core(s) && Refreshed(s, e, id).Some?
    ensures Keeps(s, Refreshed(s, e, id).value)
  {
    var seen := s.(users := SeenActive(s.users, s.tokens[id].user, s.now));
    assert Keeps(s, seen) by {
      SeenKeepsSafe(s, s.tokens[id].user);
    }
    assert Refreshed(s, e, id).value == Extended(seen, e, id);
    ExtendKeepsSafe(seen, e, id);
  }

  lemma ExtendKeepsSafe(s: Sys, e: Expiry, id: string)
    requires Core(s) && id in s.tokens
    ensures Keeps(s, Extended(s, e, id))
  {
    var t := s.tokens[id].(expires := s.now + e.refresh);
    ChangeTokenKeepsSafe(s.users, s.tokens, s.issued, id, t);
    IssueKeepsMatch(s.tokens[id := t], s.issued, Claims(s.tokens[id].user, id, s.now + e.access));
  }

  lemma RemovalKeepsPrefs(users: map<string, User>, prefs: map<string, Flags>, u: string)
    requires UsersDistinct(users) && PrefsFollow(users, prefs)
    ensures UsersDistinct(WithoutUser(users, u)) && PrefsFollow(WithoutUser(users, u), WithoutPrefs(prefs, u))
  {
  }

  lemma RemovalKeepsTokens(users: map<string, User>, tokens: map<string, Token>, u: string)
    requires TokensFollow(users, tokens) && NoSession(tokens, u)
    ensures TokensFollow(WithoutUser(users, u), tokens)
  {
  }

  lemma RemovalKeepsFeeds(users: map<string, User>, feeds: map<string, Feed>, u: string)
    requires FeedsOwned(users, feeds)
    ensures FeedsOwned(WithoutUser(users, u), FeedsRemoved(feeds, u))
    ensures FeedsFollow(users, feeds) ==> FeedsFollow(WithoutUser(users, u), FeedsRemoved(feeds, u))
  {
  }

  lemma RemovalKeepsSafe(s: Sys, u: string)
    requires Core(s)
    ensures Keeps(s, UserRemoved(s, u))
  {
    RemovalKeepsPrefs(s.users, s.prefs, u);
    RevokeAllKeepsSafe(s.users, s.tokens, s.issued, u);
    RemovalKeepsTokens(s.users, AllRevoked(s.tokens, u), u);
    RemovalKeepsFeeds(s.users, s.feeds, u);
  }

  lemma LoginKeepsSafe(s: Sys, e: Expiry, g: string, m: string, u: string, t: string)
    requires Core(s) && LoggedIn(s, e, g, m, u, t).Some?
    ensures Keeps(s, LoggedIn(s, e, g, m, u, t).value)
  {
    var found := ByGoogle(s, g);
    if found.Some? {
      OpenKeepsSafe(s, e, found.value, t);
    } else {
      EnrolKeepsSafe(s, g, m, u);
      OpenKeepsSafe(Enrolled(s, g, m, u).value, e, u, t);
    }
  }

  /** A handler keeps it for anyone who has a session, whether or not it is still alive. */
  lemma HandlerKeepsCore(s: Sys, e: Expiry, step: Step)
    requires Core(s) && HasBearer(step) && step.bearer in s.issued
    ensures Core(Handled(s, e, step))
    ensures !step.CreateFeed? ==> Keeps(s, Handled(s, e, step))
  {
    match step
    case SavePreferences(c) => IssueKeepsMatch(s.tokens, s.issued, Claims(c.user, c.session, s.now + e.access));
    case CreateFeed(c, id, name, keywords) => FeedKeepsCore(s, c.user, id, name, keywords);
    case Toggle(_, _) =>
    case _ => RevokingKeepsSafe(s, e, step);
  }

  lemma RevokingKeepsSafe(s: Sys, e: Expiry, step: Step)
    requires Core(s) && (step.Logout? || step.Invalidate? || step.InvalidateAll?)
    ensures Keeps(s, Handled(s, e, step))
  {
    match step
    case Logout(c) => RevokeKeepsSafe(s, c.session);
    case Invalidate(_, id) => RevokeKeepsSafe(s, id);
    case InvalidateAll(_, u) => RevokeAllKeepsSafe(s.users, s.tokens, s.issued, u);
  }

  lemma FeedKeepsCore(s: Sys, u: string, id: string, name: string, keywords: seq<string>)
    requires Core(s) && u in s.users
    ensures Core(WithFeed(s, u, id, name, keywords))
  {
  }

  lemma AuthenticatedIsActive(s: Sys, c: Claims)
    requires Core(s) && Authenticated(s, c)
    ensures c.session in s.tokens && s.tokens[c.session].user == c.user && Active(s, c.user)
  {
  }

  /** Let in and handled at once, a request keeps all of it. */
  lemma RequestKeepsSafe(s: Sys, e: Expiry, step: Step)
    requires Core(s) && HasBearer(step) && LetIn(s, step)
    ensures Keeps(s, Handled(s, e, step))
  {
    HandlerKeepsCore(s, e, step);
    if step.CreateFeed? && FeedsFollow(s.users, s.feeds) {
      AuthenticatedIsActive(s, step.bearer);
      HandlerKeepsFeedsExactly(s, step.bearer.user, step.id, step.name, step.keywords);
    }
  }

  lemma InternalKeepsSafe(s: Sys, step: Step)
    requires Core(s) && IsInternal(step)
    ensures Keeps(s, Performed(s, step))
  {
    match step
    case RemoveUser(u) => RemovalKeepsSafe(s, u);
    case SetAdmin(u, admin) =>
      if Active(s, u) {
        StandingKeepsSafe(s, u, s.users[u].(admin := admin));
      }
    case Tick(_) =>
  }

  lemma EntryKeepsSafe(s: Sys, e: Expiry, step: Step)
    requires Core(s) && (step.Login? || step.Refresh?)
    ensures Keeps(s, Next(s, e, step))
  {
    match step
    case Login(g, m, u, t) =>
      if LoggedIn(s, e, g, m, u, t).Some? {
        LoginKeepsSafe(s, e, g, m, u, t);
      }
    case Refresh(id) =>
      if Refreshed(s, e, id).Some? {
        RefreshKeepsSafe(s, e, id);
      }
  }

  lemma StepKeepsCore(s: Sys, e: Expiry, step: Step)
    requires Core(s)
    ensures Keeps(s, Next(s, e, step))
  {
    if IsInternal(step) {
      InternalKeepsSafe(s, step);
    } else if !HasBearer(step) {
      EntryKeepsSafe(s, e, step);
    } else if LetIn(s, step) {
      RequestKeepsSafe(s, e, step);
    }
  }

  lemma StepKeepsSafe(s: Sys, e: Expiry, step: Step)
    requires Safe(s)
    ensures Safe(Next(s, e, step))
  {
    StepKeepsCore(s, e, step);
  }

  /** Over every run: identities stay distinct, at most one unrevoked token per user, active users have
      active preferences, and sessions, feeds and claims belong to the users they should. */
  lemma {:induction false} EveryRunSafe(s: Sys, e: Expiry, steps: seq<Step>)
    requires Safe(s)
    ensures Safe(Run(s, e, steps))
  {
    if steps == [] {
    } else {
      EveryRunSafe(s, e, steps[..|steps| - 1]);
      StepKeepsSafe(Run(s, e, steps[..|steps| - 1]), e, steps[|steps| - 1]);
    }
  }

  // ---------------------------------------------------------------- death of a session

  predicate Dead(s: Sys, id: string) {
    id in s.tokens && !Live(s, id)
  }

  lemma StepKeepsDead(s: Sys, e: Expiry, step: Step, id: string)
    requires Dead(s, id)
    ensures Dead(Next(s, e, step), id)
  {
  }

  /** A revoked or expired session is never accepted again: no refresh brings it back, and no access
      token naming it, whenever issued, authenticates a request. */
  lemma {:induction false} DeathIsFinal(s: Sys, e: Expiry, steps: seq<Step>, id: string)
    requires Dead(s, id)
    ensures var t := Run(s, e, steps);
      Dead(t, id) && Refreshed(t, e, id).None? && (forall c: Claims :: c.session == id ==> !Authenticated(t, c))
  {
    if steps == [] {
    } else {
      DeathIsFinal(s, e, steps[..|steps| - 1], id);
      StepKeepsDead(Run(s, e, steps[..|steps| - 1]), e, steps[|steps| - 1], id);
    }
  }

  /** A login that succeeds leaves its user exactly one live session, the new one. */
  lemma LoginLeavesOneSession(s: Sys, e: Expiry, g: string, m: string, u: string, t: string, k: string)
    requires Safe(s) && LoggedIn(s, e, g, m, u, t).Some?
    ensures var after := LoggedIn(s, e, g, m, u, t).value;
      Live(after, t) && IsGoogleUser(after, g, after.tokens[t].user)
      && (Live(after, k) && after.tokens[k].user == after.tokens[t].user <==> k == t)
  {
  }

  /** Who can log in: a known active user, or a new identity. A removed user's never can, since the
      unique columns still hold it while the lookup no longer finds it. */
  lemma LoginSucceedsExactly(s: Sys, e: Expiry, g: string, m: string, u: string, t: string)
    requires Safe(s) && u != "" && u !in s.users && t != "" && t !in s.tokens
    ensures LoggedIn(s, e, g, m, u, t).Some? <==>
      (exists v :: IsGoogleUser(s, g, v))
        || (forall v :: v in s.users ==> s.users[v].google != g && s.users[v].email != m)
  {
    var found := ByGoogle(s, g);
    if found.Some? {
      assert IsGoogleUser(s, g, found.value);
    }
  }

  /** In a reachable state a refresh never fails on the user or the preferences: it succeeds exactly for
      an unrevoked, unexpired token. */
  lemma RefreshSucceedsExactly(s: Sys, e: Expiry, id: string)
    requires Safe(s)
    ensures Refreshed(s, e, id).Some? <==> id in s.tokens && !s.tokens[id].removed && s.now <= s.tokens[id].expires
    ensures Refreshed(s, e, id).Some? ==> Live(Refreshed(s, e, id).value, id)
  {
  }

  /** The cascade at work: nothing of a removed user's is accepted, in any later state, and no feed of
      theirs is active. */
  lemma {:induction false} RemovedUserIsOut(s: Sys, e: Expiry, steps: seq<Step>, u: string)
    requires Safe(s) && u in s.users
    ensures var t := Run(UserRemoved(s, u), e, steps);
      Safe(t) && u in t.users && t.users[u].removed && !Active(t, u)
      && (forall k :: k in t.tokens && t.tokens[k].user == u ==> !Live(t, k))
      && (forall c: Claims :: c.user == u ==> !Authenticated(t, c))
      && (forall f :: f in t.feeds && t.feeds[f].user == u ==> !t.feeds[f].status)
  {
    RemovalKeepsSafe(s, u);
    EveryRunSafe(UserRemoved(s, u), e, steps);
    if steps == [] {
    } else {
      RemovedUserIsOut(s, e, steps[..|steps| - 1], u);
      StepKeepsRemoved(Run(UserRemoved(s, u), e, steps[..|steps| - 1]), e, steps[|steps| - 1], u);
    }
  }

  lemma StepKeepsRemoved(s: Sys, e: Expiry, step: Step, u: string)
    requires u in s.users && s.users[u].removed
    ensures u in Next(s, e, step).users && Next(s, e, step).users[u].removed
  {
  }

  /** The development login opens a session without closing the others. */
  lemma DevLoginKeepsOneSessionExactly(s: Sys, e: Expiry, u: string, t: string)
    requires Safe(s) && Active(s, u) && t !in s.tokens
    ensures OneSession(WithSession(s, e, u, t).tokens) <==> NoSession(s.tokens, u)
  {
    var after := WithSession(s, e, u, t).tokens;
    if k :| k in s.tokens && s.tokens[k].user == u && !s.tokens[k].removed {
      assert k in after && t in after && after[k].user == after[t].user;
    }
  }

  /** The session check and the handler behind it are two transactions. Whatever happened in between,
      the handler leaves every active feed with an active owner exactly when the user is still there. */
  lemma HandlerKeepsFeedsExactly(t: Sys, u: string, id: string, name: string, keywords: seq<string>)
    requires Safe(t) && u in t.users
    ensures FeedsFollow(t.users, WithFeed(t, u, id, name, keywords).feeds) <==> Active(t, u) || id in t.feeds
  {
    var later := WithFeed(t, u, id, name, keywords).feeds;
    if !Active(t, u) {
      assert FeedsOf(t.feeds, u) == {};
      if id !in t.feeds {
        assert id in later && later[id].status;
      }
    }
  }

  /** So a request let through before its user is removed leaves a feed the cascade no longer reaches. */
  lemma FeedAfterRemovalSurvives(s: Sys, c: Claims, id: string, name: string, keywords: seq<string>)
    requires Safe(s) && Authenticated(s, c) && id !in s.feeds
    ensures var t := UserRemoved(s, c.user);
      c.user in t.users && !FeedsFollow(t.users, WithFeed(t, c.user, id, name, keywords).feeds)
  {
    RemovalKeepsSafe(s, c.user);
    HandlerKeepsFeedsExactly(UserRemoved(s, c.user), c.user, id, name, keywords);
  }

  /** A first login, its session accepted; then the removal; then the handler. */
  lemma FeedSurvivesSomewhere()
    ensures exists s: Sys, c: Claims, id: string ::
      Safe(s) && Authenticated(s, c)
        && !FeedsFollow(UserRemoved(s, c.user).users, WithFeed(UserRemoved(s, c.user), c.user, id, "", []).feeds)
  {
    var s := FirstLogin("g", "m", "u", "t");
    FeedAfterRemovalSurvives(s, Claims("u", "t", 1), "f", "", []);
  }

  lemma FirstLogin(g: string, m: string, u: string, t: string) returns (s: Sys)
    requires u != "" && t != ""
    ensures Safe(s) && Authenticated(s, Claims(u, t, 1)) && s.feeds == map[]
  {
    var e := Expiry(1, 1);
    assert ByGoogle(Migrated(0), g).None?;
    var enrolled := Enrolled(Migrated(0), g, m, u).value;
    EnrolKeepsSafe(Migrated(0), g, m, u);
    s := Opened(enrolled, e, u, t).value;
    OpenKeepsSafe(enrolled, e, u, t);
  }

  // ---------------------------------------------------------------- maintenance

  /** Nobody is promoted during the run. */
  predicate NoPromotion(steps: seq<Step>) {
    forall i :: 0 <= i < |steps| ==> !(steps[i].SetAdmin? && steps[i].admin)
  }

  lemma StepMakesNoAdmin(s: Sys, e: Expiry, step: Step, u: string)
    requires !IsAdmin(s, u) && !(step.SetAdmin? && step.admin)
    ensures !IsAdmin(Next(s, e, step), u)
  {
  }

  /** Without promotion, whoever is not an administrator does not become one, and no access token they
      hold, from before or after, opens an administrator route or the guard of a switched-off
      application. */
  lemma {:induction false} NonAdminsStayOut(s: Sys, e: Expiry, steps: seq<Step>, c: Claims)
    requires !IsAdmin(s, c.user) && NoPromotion(steps)
    ensures var t := Run(s, e, steps);
      !IsAdmin(t, c.user) && !AuthenticatedAdmin(t, c) && (PassesGuard(t, c) <==> t.appOn)
  {
    if steps == [] {
    } else {
      NonAdminsStayOut(s, e, steps[..|steps| - 1], c);
      StepMakesNoAdmin(Run(s, e, steps[..|steps| - 1]), e, steps[|steps| - 1], c.user);
    }
  }

  /** Without any administrator the switch stays where it is. */
  lemma {:induction false} SwitchNeedsAdmin(s: Sys, e: Expiry, steps: seq<Step>)
    requires NoPromotion(steps) && forall u :: !IsAdmin(s, u)
    ensures Run(s, e, steps).appOn == s.appOn
  {
    if steps == [] {
    } else {
      var before := steps[..|steps| - 1];
      SwitchNeedsAdmin(s, e, before);
      forall u ensures !IsAdmin(Run(s, e, before), u) {
        NonAdminsStayOut(s, e, before, Claims(u, "", 0));
      }
      StepKeepsSwitch(Run(s, e, before), e, steps[|steps| - 1]);
    }
  }

  lemma StepKeepsSwitch(s: Sys, e: Expiry, step: Step)
    requires forall u :: !IsAdmin(s, u)
    ensures Next(s, e, step).appOn == s.appOn
  {
  }

  /** Two requests end a maintenance: an administrator's refresh, whatever became of their access
      token, and the switch. */
  lemma RefreshThenToggle(s: Sys, e: Expiry, id: string)
    requires Safe(s) && e.access > 0
    requires Live(s, id) && IsAdmin(s, s.tokens[id].user)
    ensures Run(s, e, [Refresh(id), Toggle(Claims(s.tokens[id].user, id, s.now + e.access), true)]).appOn
  {
    RefreshedSessionServes(s, e, id);
    ToggleTurnsOn(s, e, Refresh(id), Claims(s.tokens[id].user, id, s.now + e.access));
  }

  lemma RefreshedSessionServes(s: Sys, e: Expiry, id: string)
    requires Safe(s) && e.access > 0 && Live(s, id)
    requires IsAdmin(s, s.tokens[id].user)
    ensures AuthenticatedAdmin(Next(s, e, Refresh(id)), Claims(s.tokens[id].user, id, s.now + e.access))
  {
    RefreshSucceedsExactly(s, e, id);
  }

  lemma RunTwo(s: Sys, e: Expiry, first: Step, second: Step)
    ensures Run(s, e, [first, second]) == Next(Next(s, e, first), e, second)
  {
    assert [first, second][..1] == [first];
    assert [first][..0] == [];
    assert Run(s, e, [first]) == Next(Run(s, e, []), e, first);
  }

  lemma ToggleTurnsOn(s: Sys, e: Expiry, first: Step, c: Claims)
    requires AuthenticatedAdmin(Next(s, e, first), c)
    ensures Run(s, e, [first, Toggle(c, true)]).appOn
  {
    RunTwo(s, e, first, Toggle(c, true));
    assert Next(Next(s, e, first), e, Toggle(c, true)).appOn;
  }

  lemma GoogleUserIsUnique(s: Sys, u: string)
    requires Safe(s) && Active(s, u)
    ensures ByGoogle(s, s.users[u].google) == Some(u)
  {
    assert IsGoogleUser(s, s.users[u].google, u);
    assert SameIdentity(s.users[ByGoogle(s, s.users[u].google).value], s.users[u]);
  }

  lemma OpenedSessionServes(s: Sys, e: Expiry, u: string, t: string)
    requires Safe(s) && e.access > 0 && IsAdmin(s, u) && t != "" && t !in s.tokens
    ensures Opened(s, e, u, t).Some? && AuthenticatedAdmin(Opened(s, e, u, t).value, Claims(u, t, s.now + e.access))
  {
    assert HasPrefs(s, u);
  }

  lemma LoginOpens(s: Sys, e: Expiry, u: string, t: string)
    requires Active(s, u) && ByGoogle(s, s.users[u].google) == Some(u) && Opened(s, e, u, t).Some?
    ensures Next(s, e, Login(s.users[u].google, s.users[u].email, "", t)) == Opened(s, e, u, t).value
  {
  }

  /** Without a live session the administrator logs in first. */
  lemma LoginThenToggle(s: Sys, e: Expiry, u: string, t: string)
    requires Safe(s) && e.access > 0
    requires IsAdmin(s, u) && t != "" && t !in s.tokens
    ensures Run(s, e, [Login(s.users[u].google, s.users[u].email, "", t),
                      Toggle(Claims(u, t, s.now + e.access), true)]).appOn
  {
    GoogleUserIsUnique(s, u);
    OpenedSessionServes(s, e, u, t);
    LoginOpens(s, e, u, t);
    ToggleTurnsOn(s, e, Login(s.users[u].google, s.users[u].email, "", t), Claims(u, t, s.now + e.access));
  }

  /** Some run without promotion brings the application back exactly when there is an administrator. */
  lemma RecoverableExactly(s: Sys, e: Expiry, t: string)
    requires Safe(s) && !s.appOn && e.access > 0 && t != "" && t !in s.tokens
    ensures (exists steps :: NoPromotion(steps) && Run(s, e, steps).appOn) <==> (exists u :: IsAdmin(s, u))
  {
    if u :| IsAdmin(s, u) {
      LoginThenToggle(s, e, u, t);
      var steps := [Login(s.users[u].google, s.users[u].email, "", t), Toggle(Claims(u, t, s.now + e.access), true)];
      assert NoPromotion(steps) && Run(s, e, steps).appOn;
    } else {
      forall steps | NoPromotion(steps) ensures !Run(s, e, steps).appOn {
        SwitchNeedsAdmin(s, e, steps);
      }
    }
  }
}
