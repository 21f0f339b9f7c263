/** What each request does to users and sessions, column by column, and what that means for whoever comes
    next. */
module AccountEffects {
  import opened Options
  import opened Accounts
  import opened Sessions

  // ---------------------------------------------------------------- the steps

  /** A request that the middlewares stop, and a login or a refresh that fails, change nothing. */
  lemma StepMeans(s: Sys, e: Expiry, step: Step)
    ensures HasBearer(step) ==> Next(s, e, step) == if LetIn(s, step) then Handled(s, e, step) else s
    ensures step.Login? ==>
      var r := LoggedIn(s, e, step.google, step.email, step.userId, step.tokenId);
      Next(s, e, step) == if r.Some? then r.value else s
    ensures step.Refresh? && step.id != "" ==>
      var r := Refreshed(s, e, step.id);
      Next(s, e, step) == if r.Some? then r.value else s
    ensures step.RemoveUser? || step.SetAdmin? || step.Tick? ==> Next(s, e, step) == Performed(s, step)
  {
  }

  // ---------------------------------------------------------------- who is accepted

  /** The session is unrevoked and not yet past its expiry. */
  lemma LiveMeans(s: Sys, id: string)
    ensures Live(s, id) <==>
      id in s.tokens && s.tokens[id].status && !s.tokens[id].removed && s.now <= s.tokens[id].expires
  {
  }

  /** An access token is accepted when the key vouches for it, it has not expired, and its session is live. */
  lemma AuthenticatedMeans(s: Sys, c: Claims)
    ensures Authenticated(s, c) <==> c in s.issued && s.now < c.expires && c.session != "" && Live(s, c.session)
  {
  }

  /** The administrator's flag counts only on an active user. */
  lemma AdminMeans(s: Sys, u: string)
    ensures IsAdmin(s, u) <==> u in s.users && s.users[u].status && !s.users[u].removed && s.users[u].admin
  {
  }

  /** While the application is off, administrators pass the guard, and nobody else. */
  lemma GuardMeans(s: Sys, c: Claims)
    ensures s.appOn ==> PassesGuard(s, c)
    ensures !s.appOn ==> (PassesGuard(s, c) <==> Authenticated(s, c) && IsAdmin(s, c.user))
  {
  }

  /** What the routes ask of a request: administrator routes for the flag, business routes for the guard. */
  lemma LetInMeans(s: Sys, step: Step)
    requires HasBearer(step)
    ensures LetIn(s, step) ==> Authenticated(s, step.bearer)
    ensures step.Logout? ==> (LetIn(s, step) <==> Authenticated(s, step.bearer))
    ensures step.Invalidate? || step.InvalidateAll? || step.Toggle? ==>
      (LetIn(s, step) <==> Authenticated(s, step.bearer) && IsAdmin(s, step.bearer.user))
    ensures step.SavePreferences? || step.CreateFeed? ==>
      (LetIn(s, step) <==> Authenticated(s, step.bearer) && (s.appOn || IsAdmin(s, step.bearer.user)))
  {
  }

  lemma {:induction false} ClockGoesOn(s: Sys, e: Expiry, steps: seq<Step>)
    ensures s.now <= Run(s, e, steps).now
  {
    if steps == [] {
    } else {
      ClockGoesOn(s, e, steps[..|steps| - 1]);
      StepKeepsClock(Run(s, e, steps[..|steps| - 1]), e, steps[|steps| - 1]);
    }
  }

  lemma StepKeepsClock(s: Sys, e: Expiry, step: Step)
    ensures s.now <= Next(s, e, step).now
  {
  }

  /** From its expiry on an access token is never accepted again. */
  lemma AccessTokenEnds(s: Sys, e: Expiry, steps: seq<Step>, c: Claims)
    requires c.expires <= s.now
    ensures !Authenticated(Run(s, e, steps), c)
  {
    ClockGoesOn(s, e, steps);
  }

  // ---------------------------------------------------------------- revocations

  /** Nothing but tokens differs. */
  predicate OnlyTokens(s: Sys, t: Sys) {
    t == s.(tokens := t.tokens) && t.tokens.Keys == s.tokens.Keys
  }

  /** A logout ends its session and no other. */
  lemma LogoutEnds(s: Sys, e: Expiry, c: Claims)
    ensures var t := Handled(s, e, Logout(c));
      && OnlyTokens(s, t)
      && (c.session in s.tokens ==> t.tokens[c.session].removed)
      && !Live(t, c.session) && !Authenticated(t, c)
      && (forall k :: k in s.tokens && k != c.session ==> t.tokens[k] == s.tokens[k])
      && (forall k :: k != c.session ==> (Live(t, k) <==> Live(s, k)))
  {
  }

  /** An invalidation ends the session it names and no other. */
  lemma InvalidationEnds(s: Sys, e: Expiry, c: Claims, id: string)
    requires id != ""
    ensures var t := Handled(s, e, Invalidate(c, id));
      && OnlyTokens(s, t)
      && (id in s.tokens ==> t.tokens[id].removed)
      && !Live(t, id)
      && (forall k :: k in s.tokens && k != id ==> t.tokens[k] == s.tokens[k])
      && (forall k :: k != id ==> (Live(t, k) <==> Live(s, k)))
  {
  }

  /** Invalidating all ends every session of the user and nobody else's. */
  lemma InvalidationOfAllEnds(s: Sys, e: Expiry, c: Claims, u: string)
    requires u != ""
    ensures var t := Handled(s, e, InvalidateAll(c, u));
      && OnlyTokens(s, t)
      && (forall k :: k in s.tokens && s.tokens[k].user == u ==> t.tokens[k].removed && !Live(t, k))
      && (forall k :: k in s.tokens && s.tokens[k].user != u ==>
            t.tokens[k] == s.tokens[k] && (Live(t, k) <==> Live(s, k)))
  {
  }

  /** Nothing is accepted by the session any more. */
  ghost predicate Closed(s: Sys, e: Expiry, id: string) {
    !Live(s, id) && Refreshed(s, e, id).None? && forall c: Claims :: c.session == id ==> !Authenticated(s, c)
  }

  /** Whoever logs out is out for good. */
  lemma LogoutIsFinal(s: Sys, e: Expiry, c: Claims, steps: seq<Step>)
    requires Authenticated(s, c)
    ensures Closed(Run(Next(s, e, Logout(c)), e, steps), e, c.session)
  {
    LogoutEnds(s, e, c);
    DeathIsFinal(Next(s, e, Logout(c)), e, steps, c.session);
  }

  /** So is whoever an administrator invalidates. */
  lemma InvalidationIsFinal(s: Sys, e: Expiry, c: Claims, id: string, steps: seq<Step>)
    requires Authenticated(s, c) && IsAdmin(s, c.user) && id != "" && id in s.tokens
    ensures Closed(Run(Next(s, e, Invalidate(c, id)), e, steps), e, id)
  {
    InvalidationEnds(s, e, c, id);
    DeathIsFinal(Next(s, e, Invalidate(c, id)), e, steps, id);
  }

  lemma InvalidationOfAllIsFinal(s: Sys, e: Expiry, c: Claims, id: string, steps: seq<Step>)
    requires Authenticated(s, c) && IsAdmin(s, c.user) && id in s.tokens && s.tokens[id].user != ""
    ensures Closed(Run(Next(s, e, InvalidateAll(c, s.tokens[id].user)), e, steps), e, id)
  {
    InvalidationOfAllEnds(s, e, c, s.tokens[id].user);
    DeathIsFinal(Next(s, e, InvalidateAll(c, s.tokens[id].user)), e, steps, id);
  }

  // ---------------------------------------------------------------- the other handlers

  lemma ToggleMeans(s: Sys, e: Expiry, c: Claims, on: bool)
    ensures Handled(s, e, Toggle(c, on)).appOn == on && Handled(s, e, Toggle(c, on)).(appOn := s.appOn) == s
  {
  }

  /** Saved preferences come with a new access token, of the same session, for an active user. */
  lemma PreferencesMean(s: Sys, e: Expiry, c: Claims)
    ensures var t := Handled(s, e, SavePreferences(c));
      && t.(issued := s.issued) == s
      && (Safe(s) && Authenticated(s, c) ==> t.issued == s.issued + {Claims(c.user, c.session, s.now + e.access)})
  {
    if Safe(s) && Authenticated(s, c) {
      AuthenticatedIsActive(s, c);
    }
  }

  /** A created feed is the bearer's. */
  lemma FeedCreationMeans(s: Sys, e: Expiry, c: Claims, id: string, name: string, keywords: seq<string>)
    ensures var t := Handled(s, e, CreateFeed(c, id, name, keywords));
      && t.(feeds := s.feeds) == s && OthersStay(s.feeds, t.feeds, id)
      && (id != "" && id !in s.feeds && id in t.feeds ==> t.feeds[id].user == c.user)
      && (id != "" && id !in s.feeds ==>
            (id in t.feeds <==>
              |set f | f in s.feeds && s.feeds[f].user == c.user && s.feeds[f].status && !s.feeds[f].removed| < 5))
  {
    AddedMeans(s.feeds, id, c.user, name, keywords);
  }

  // ---------------------------------------------------------------- promotion, removal, the clock

  lemma PromotionMeans(s: Sys, u: string, admin: bool)
    ensures var t := Performed(s, SetAdmin(u, admin));
      && t.(users := s.users) == s && t.users.Keys == s.users.Keys
      && (forall v :: v in s.users && v != u ==> t.users[v] == s.users[v])
      && (u in s.users && s.users[u].status && !s.users[u].removed ==> t.users[u] == s.users[u].(admin := admin))
      && (u in s.users && (!s.users[u].status || s.users[u].removed) ==> t.users[u] == s.users[u])
  {
  }

  lemma TickMeans(s: Sys, passed: nat)
    ensures Performed(s, Tick(passed)) == s.(now := s.now + passed)
  {
  }

  /** A removal takes the user, their preferences, sessions and feeds, and nothing of anybody else. */
  lemma RemovalMeans(s: Sys, u: string)
    ensures var t := Performed(s, RemoveUser(u));
      && t.appOn == s.appOn && t.now == s.now && t.issued == s.issued
      && t.users.Keys == s.users.Keys && t.prefs.Keys == s.prefs.Keys
      && (forall v :: v in s.users && v != u ==> t.users[v] == s.users[v])
      && (u in s.users ==> t.users[u].removed) && (u in s.users && !s.users[u].removed ==> !t.users[u].status)
      && (forall v :: v in s.prefs && v != u ==> t.prefs[v] == s.prefs[v])
      && (u in s.prefs ==> t.prefs[u].removed) && (u in s.prefs && !s.prefs[u].removed ==> !t.prefs[u].status)
  {
  }

  lemma RemovalReaches(s: Sys, u: string)
    ensures var t := Performed(s, RemoveUser(u));
      && t.tokens.Keys == s.tokens.Keys && t.feeds.Keys == s.feeds.Keys
      && (forall k :: k in s.tokens ==>
            if s.tokens[k].user == u then t.tokens[k].removed else t.tokens[k] == s.tokens[k])
      && (forall f :: f in s.feeds ==>
            if s.feeds[f].user == u then t.feeds[f].removed else t.feeds[f] == s.feeds[f])
  {
    AllRemovedMeans(s.feeds, u);
  }

  // ---------------------------------------------------------------- entering

  /** A new user is active, no administrator, has active preferences and is who Google says; an identity or
      an address that any row holds, removed or not, is refused. */
  lemma EnrolledMeans(s: Sys, google: string, email: string, id: string)
    ensures Enrolled(s, google, email, id).Some? <==>
      && id != "" && id !in s.users && id !in s.prefs
      && forall u :: u in s.users ==> s.users[u].google != google && s.users[u].email != email
    ensures Enrolled(s, google, email, id).Some? ==>
      var t := Enrolled(s, google, email, id).value;
      && t.(users := s.users, prefs := s.prefs) == s
      && t.users == s.users[id := User(google, email, false, true, false, None, s.now)]
      && t.prefs == s.prefs[id := Flags(true, false)]
  {
  }

  predicate ActiveOf(s: Sys, google: string, u: string) {
    u in s.users && s.users[u].status && !s.users[u].removed && s.users[u].google == google
  }

  /** The user a login is of. */
  ghost predicate LogsIn(s: Sys, google: string, userId: string, u: string) {
    ActiveOf(s, google, u) || (u == userId && forall v :: !ActiveOf(s, google, v))
  }

  /** Only u's row differs, by the two stamps; and one access token is new. */
  predicate Stamped(s: Sys, t: Sys, e: Expiry, u: string, id: string)
    requires u in s.users
  {
    && t.appOn == s.appOn && t.now == s.now && t.feeds == s.feeds && t.prefs == s.prefs
    && t.issued == s.issued + {Claims(u, id, s.now + e.access)}
    && t.users == s.users[u := s.users[u].(lastActiveAt := s.now, lastLoginAt := Some(s.now))]
  }

  lemma OpenedMeans(s: Sys, e: Expiry, u: string, id: string)
    requires Active(s, u) && Opened(s, e, u, id).Some?
    ensures Stamped(s, Opened(s, e, u, id).value, e, u, id)
  {
  }

  /** A login is of the active user of the identity, or else of a new one; it stamps that user and touches
      nobody else's row. */
  lemma LoginMeans(s: Sys, e: Expiry, g: string, m: string, userId: string, id: string) returns (u: string)
    requires LoggedIn(s, e, g, m, userId, id).Some?
    ensures LogsIn(s, g, userId, u)
    ensures var t := LoggedIn(s, e, g, m, userId, id).value;
      if u in s.users then Stamped(s, t, e, u, id)
      else Enrolled(s, g, m, u).Some? && Stamped(Enrolled(s, g, m, u).value, t, e, u, id)
  {
    var found := ByGoogle(s, g);
    if found.Some? {
      u := found.value;
      OpenedMeans(s, e, u, id);
    } else {
      u := userId;
      forall v ensures !ActiveOf(s, g, v) {
        assert !IsGoogleUser(s, g, v);
      }
      EnrolledMeans(s, g, m, u);
      OpenedMeans(Enrolled(s, g, m, u).value, e, u, id);
    }
  }

  /** Its session lasts for the configured time; the user's other sessions end, nobody else's do. */
  lemma LoginSessions(s: Sys, e: Expiry, u: string, id: string)
    requires Opened(s, e, u, id).Some?
    ensures id !in s.tokens && id != ""
    ensures var t := Opened(s, e, u, id).value;
      && t.tokens.Keys == s.tokens.Keys + {id}
      && t.tokens[id] == Token(u, s.now + e.refresh, true, false)
      && (forall k :: k in s.tokens && s.tokens[k].user == u ==> t.tokens[k].removed)
      && (forall k :: k in s.tokens && s.tokens[k].user != u ==> t.tokens[k] == s.tokens[k])
  {
  }

  /** A refresh extends the very session by the configured time, issues an access token for the configured
      time, stamps its user, and touches nothing else. */
  lemma RefreshMeans(s: Sys, e: Expiry, id: string)
    requires Refreshed(s, e, id).Some?
    ensures id in s.tokens && s.tokens[id].user in s.users
    ensures var t, u := Refreshed(s, e, id).value, s.tokens[id].user;
      && t.appOn == s.appOn && t.now == s.now && t.feeds == s.feeds && t.prefs == s.prefs
      && t.tokens == s.tokens[id := s.tokens[id].(expires := s.now + e.refresh)]
      && t.issued == s.issued + {Claims(u, id, s.now + e.access)}
      && t.users == s.users[u := s.users[u].(lastActiveAt := s.now)]
  {
  }
}
