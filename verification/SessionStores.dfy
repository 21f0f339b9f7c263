/** The session tables as an object: the controllers' and middlewares' operations on it. A lookup that
    the database fails to answer is a parameter. */
module SessionStores {
  import opened Options
  import Accounts
  import opened Sessions

  datatype Found = Row(token: Token) | NotFound | Expired | Broken

  datatype Reply = Proceed | Unauthorized | Forbidden | Unavailable | ServerError

  class SessionStore {
    var users: map<string, Accounts.User>
    var prefs: map<string, Flags>
    var feeds: map<string, Accounts.Feed>
    var tokens: map<string, Token>
    var appOn: bool
    var now: int
    var issued: set<Claims>

    /** A migrated database: no users, and the application switched on. */
    constructor (now: int)
      ensures Safe(Contents()) && Contents() == Migrated(now)
    {
      users, prefs, feeds, tokens, appOn, issued := map[], map[], map[], map[], true, {};
      this.now := now;
    }

    function Contents(): Sys
      reads this
    {
      Sys(users, prefs, feeds, tokens, appOn, now, issued)
    }

    // ---------------------------------------------------------------- who may pass

    /** RefreshTokenController.FindByID. */
    method FindByID(id: string, fails: bool) returns (r: Found)
      ensures fails ==> r == Broken
      ensures !fails ==> (r.Row? <==> Live(Contents(), id)) && (r.Row? ==> r.token == tokens[id])
      ensures !fails ==>
        (r.Expired? <==> id in tokens && tokens[id].status && !tokens[id].removed && now > tokens[id].expires)
      ensures !fails ==> r != Broken
    {
      if fails {
        return Broken;
      }
      if id !in tokens || !tokens[id].status || tokens[id].removed {
        return NotFound;
      }
      if now > tokens[id].expires {
        return Expired;
      }
      r := Row(tokens[id]);
    }

    /** checkSession: an empty id is refused before the database is asked. */
    method CheckSession(id: string, fails: bool) returns (r: Found)
      ensures r.Row? <==> !fails && id != "" && Live(Contents(), id)
      ensures r == Broken <==> fails && id != ""
    {
      if id == "" {
        return NotFound;
      }
      r := FindByID(id, fails);
    }

    /** AdminResolver.IsAdmin: None when the database could not tell. */
    method AskAdmin(user: string, fails: bool) returns (r: Option<bool>)
      ensures r == if fails then None else Some(IsAdmin(Contents(), user))
    {
      if fails {
        return None;
      }
      if user !in users || !users[user].status || users[user].removed {
        return Some(false);
      }
      r := Some(users[user].admin);
    }

    /** IsRequestFromAdmin fails closed: whatever cannot be established makes it false. */
    method IsRequestFromAdmin(bearer: Option<Claims>, sessionFails: bool, userFails: bool) returns (admin: bool)
      requires bearer.Some? ==> Signed(Contents(), bearer.value)
      ensures admin <==> bearer.Some? && AuthenticatedAdmin(Contents(), bearer.value) && !sessionFails && !userFails
    {
      if bearer.None? {
        return false;
      }
      var session := CheckSession(bearer.value.session, sessionFails);
      if !session.Row? {
        return false;
      }
      var answer := AskAdmin(bearer.value.user, userFails);
      admin := answer.Some? && answer.value;
    }

    /** The maintenance guard. While the application is on, nobody's token is looked at; while it is off,
        a request passes exactly when it is an administrator's and every lookup worked. */
    method AppStatusGuard(bearer: Option<Claims>, systemFails: bool, sessionFails: bool,
                          userFails: bool) returns (r: Reply)
      requires bearer.Some? ==> Signed(Contents(), bearer.value)
      ensures r == ServerError <==> systemFails
      ensures !systemFails && appOn ==> r == Proceed
      ensures !systemFails && !appOn ==>
        r == if bearer.Some? && PassesGuard(Contents(), bearer.value) && !sessionFails && !userFails 
             then Proceed else Unavailable
    {
      if systemFails {
        return ServerError;
      }
      if appOn {
        return Proceed;
      }
      var admin := IsRequestFromAdmin(bearer, sessionFails, userFails);
      r := if admin then Proceed else Unavailable;
    }

    /** The chain in front of an administrator route. A lookup that failed is never taken for an answer
        about the user: 401 and 403 are said only on what the tables hold. */
    method AdminRoute(bearer: Option<Claims>, sessionFails: bool, userFails: bool) returns (r: Reply)
      requires bearer.Some? ==> Signed(Contents(), bearer.value)
      ensures r == Proceed
        <==> bearer.Some? && AuthenticatedAdmin(Contents(), bearer.value) && !sessionFails && !userFails
      ensures r == Unauthorized
        <==> bearer.None? || bearer.value.session == "" || (!sessionFails && !Live(Contents(), bearer.value.session))
      ensures r == Forbidden
        <==> (&& bearer.Some? && Authenticated(Contents(), bearer.value) && !IsAdmin(Contents(), bearer.value.user)
              && !sessionFails && !userFails)
      ensures r != Unavailable
    {
      if bearer.None? {
        return Unauthorized;
      }
      var session := CheckSession(bearer.value.session, sessionFails);
      if session.NotFound? || session.Expired? {
        return Unauthorized;
      }
      if session.Broken? {
        return ServerError;
      }
      var answer := AskAdmin(bearer.value.user, userFails);
      if answer.None? {
        return ServerError;
      }
      r := if answer.value then Proceed else Forbidden;
    }

    // ---------------------------------------------------------------- statements

    method RevokeRefreshToken(id: string)
      modifies this`tokens
      ensures tokens == Revoked(old(tokens), id)
      ensures !Live(Contents(), id) && forall k :: k != id ==> (Live(Contents(), k) <==> Live(old(Contents()), k))
    {
      if id in tokens && !tokens[id].removed {
        tokens := tokens[id := tokens[id].(status := false, removed := true)];
      }
    }

    method RevokeAllRefreshTokensByUserID(user: string)
      modifies this`tokens
      ensures tokens == AllRevoked(old(tokens), user)
      ensures forall k :: k in tokens && tokens[k].user == user ==> !Live(Contents(), k)
      ensures forall k :: k in old(tokens) && old(tokens)[k].user != user ==> k in tokens && tokens[k] == old(tokens)[k]
    {
      tokens := map k | k in tokens ::
        if tokens[k].user == user && !tokens[k].removed
        then tokens[k].(status := false, removed := true) else tokens[k];
    }

    method UpdateUserLastLogin(user: string)
      modifies this`users
      ensures users == SeenLogin(old(users), user, now)
    {
      if user in users && users[user].status && !users[user].removed {
        users := users[user := users[user].(lastLoginAt := Some(now))];
      }
    }

    method UpdateUserLastActive(user: string)
      modifies this`users
      ensures users == SeenActive(old(users), user, now)
    {
      if user in users && users[user].status && !users[user].removed {
        users := users[user := users[user].(lastActiveAt := now)];
      }
    }

    method SoftDeleteUserRow(user: string)
      modifies this`users
      ensures users == WithoutUser(old(users), user)
    {
      if user in users && !users[user].removed {
        users := users[user := users[user].(status := false, removed := true)];
      }
    }

    method SoftDeleteUserPreferences(user: string)
      modifies this`prefs
      ensures prefs == WithoutPrefs(old(prefs), user)
    {
      if user in prefs && !prefs[user].removed {
        prefs := prefs[user := Flags(false, true)];
      }
    }

    method SoftDeleteFeedsByUser(user: string)
      modifies this`feeds
      ensures feeds == Accounts.FeedsRemoved(old(feeds), user)
    {
      feeds := map k | k in feeds ::
        if feeds[k].user == user && !feeds[k].removed
        then feeds[k].(status := false, removed := true) else feeds[k];
    }

    method FindUserByGoogleID(google: string) returns (r: Option<string>)
      requires UsersDistinct(users)
      ensures r == ByGoogle(Contents(), google)
    {
      if u :| u in users && users[u].status && !users[u].removed && users[u].google == google {
        assert IsGoogleUser(Contents(), google, u);
        assert SameIdentity(users[u], users[ByGoogle(Contents(), google).value]);
        return Some(u);
      }
      assert forall u :: !IsGoogleUser(Contents(), google, u);
      r := None;
    }

    /** CreateUser: both inserts; false when a unique constraint or the database refused one. */
    method CreateUser(id: string, google: string, email: string, userFails: bool, prefsFail: bool) returns (ok: bool)
      modifies this`users, this`prefs
      ensures ok ==> Enrolled(old(Contents()), google, email, id) == Some(Contents())
      ensures !ok ==> userFails || prefsFail || Enrolled(old(Contents()), google, email, id).None?
    {
      if userFails || id == "" {
        return false;
      }
      if id in users || exists u :: u in users && (users[u].google == google || users[u].email == email) {
        return false;
      }
      users := users[id := Accounts.User(google, email, false, true, false, None, now)];
      if prefsFail || id in prefs {
        return false;
      }
      prefs := prefs[id := Flags(true, false)];
      ok := true;
    }

    // ---------------------------------------------------------------- transactions

    method Rollback(saved: Sys)
      modifies this`users, this`prefs, this`feeds, this`tokens
      ensures users == saved.users && prefs == saved.prefs && feeds == saved.feeds && tokens == saved.tokens
    {
      users, prefs, feeds, tokens := saved.users, saved.prefs, saved.feeds, saved.tokens;
    }

    /** The part of a login that follows the user lookup, up to the commit. */
    method OpenSession(e: Expiry, user: string, tokenId: string, fails: nat -> bool) returns (ok: bool)
      modifies this`users, this`tokens
      ensures ok ==>
        Opened(old(Contents()), e, user, tokenId) == Some(WithClaims(Contents(), Claims(user, tokenId, now + e.access)))
      ensures !ok ==> Opened(old(Contents()), e, user, tokenId).None? || exists i :: fails(i)
    {
      if fails(3) {
        return false;
      }
      RevokeAllRefreshTokensByUserID(user);
      if fails(4) {
        return false;
      }
      UpdateUserLastLogin(user);
      if fails(5) {
        return false;
      }
      UpdateUserLastActive(user);
      if fails(6) || user !in prefs || !prefs[user].status || prefs[user].removed {
        return false;
      }
      if fails(7) || tokenId == "" || tokenId in tokens {
        return false;
      }
      tokens := tokens[tokenId := Token(user, now + e.refresh, true, false)];
      ok := true;
    }

    /** GenerateAccessToken: after the commit, so that a failure leaves the session open. */
    method GenerateAccessToken(e: Expiry, user: string, session: string, fails: bool) returns (r: Option<Claims>)
      modifies this`issued
      ensures r.None? <==> fails
      ensures r.Some? ==> r.value == Claims(user, session, now + e.access)
      ensures Contents() == if r.Some? then WithClaims(old(Contents()), r.value) else old(Contents())
    {
      if fails {
        return None;
      }
      var claims := Claims(user, session, now + e.access);
      issued := issued + {claims};
      r := Some(claims);
    }

    method FindOrCreateUser(google: string, email: string, userId: string, findFails: bool, userFails: bool,
                            prefsFail: bool) returns (r: Option<string>)
      requires UsersDistinct(users)
      modifies this`users, this`prefs
      ensures r.Some? ==> Identified(old(Contents()), google, email, userId) == Some((Contents(), r.value))
      ensures r.None? ==>
        Identified(old(Contents()), google, email, userId).None? || findFails || userFails || prefsFail
    {
      if findFails {
        return None;
      }
      r := FindUserByGoogleID(google);
      if r.None? {
        var ok := CreateUser(userId, google, email, userFails, prefsFail);
        r := if ok then Some(userId) else None;
      }
    }

    /** The transaction of HandleGoogleCallback, after the identity exchange. fails says which statements
        the database refuses; then everything written so far is rolled back. */
    method LogInTables(e: Expiry, google: string, email: string, userId: string, tokenId: string, fails: nat -> bool)
      returns (user: Option<string>)
      requires UsersDistinct(users)
      modifies this`users, this`prefs, this`feeds, this`tokens
      ensures user.Some? ==>
        LoggedIn(old(Contents()), e, google, email, userId, tokenId)
          == Some(WithClaims(Contents(), Claims(user.value, tokenId, now + e.access)))
      ensures user.None? ==> Contents() == old(Contents())
      ensures user.None? ==> LoggedIn(old(Contents()), e, google, email, userId, tokenId).None? || exists i :: fails(i)
    {
      var saved := Contents();
      user := FindOrCreateUser(google, email, userId, fails(0), fails(1), fails(2));
      if user.None? {
        Rollback(saved);
        return;
      }
      var ok := OpenSession(e, user.value, tokenId, fails);
      if !ok {
        Rollback(saved);
        user := None;
      }
    }

    /** HandleGoogleCallback: the whole login with its access token; or no change; or, when only signing
        fails, the login without one. */
    method LogIn(e: Expiry, google: string, email: string, userId: string, tokenId: string, fails: nat -> bool,
                 signFails: bool)
      returns (r: Option<Claims>)
      requires UsersDistinct(users)
      modifies this`users, this`prefs, this`feeds, this`tokens, this`issued
      ensures var t := LoggedIn(old(Contents()), e, google, email, userId, tokenId);
        && (r.Some? ==> t == Some(Contents()) && r.value.session == tokenId && r.value in issued)
        && (r.None? && t.Some? && !(exists i :: fails(i)) ==>
              signFails && Contents() == t.value.(issued := old(issued)))
        && (r.None? ==>
              Contents() == old(Contents())
              || (signFails && t.Some? && Contents() == t.value.(issued := old(issued))))
    {
      var user := LogInTables(e, google, email, userId, tokenId, fails);
      if user.None? {
        return None;
      }
      r := GenerateAccessToken(e, user.value, tokenId, signFails);
    }

    /** The transaction of RefreshAccessToken. */
    method RefreshTables(e: Expiry, id: string, fails: nat -> bool) returns (user: Option<string>)
      modifies this`users, this`prefs, this`feeds, this`tokens
      ensures user.Some? ==>
        Refreshed(old(Contents()), e, id) == Some(WithClaims(Contents(), Claims(user.value, id, now + e.access)))
      ensures user.None? ==> Contents() == old(Contents())
      ensures user.None? ==> Refreshed(old(Contents()), e, id).None? || exists i :: fails(i)
    {
      var saved := Contents();
      var token := FindByID(id, fails(0));
      if !token.Row? {
        return None;
      }
      var owner := token.token.user;
      if fails(1) || owner !in users || !users[owner].status || users[owner].removed {
        return None;
      }
      if fails(2) || owner !in prefs || !prefs[owner].status || prefs[owner].removed || fails(3) {
        return None;
      }
      UpdateUserLastActive(owner);
      if fails(4) {
        Rollback(saved);
        return None;
      }
      tokens := tokens[id := tokens[id].(expires := now + e.refresh)];
      user := Some(owner);
    }

    /** RefreshAccessToken: as a login, the extension is committed before the access token is signed. */
    method RefreshAccess(e: Expiry, id: string, fails: nat -> bool, signFails: bool) returns (r: Option<Claims>)
      modifies this`users, this`prefs, this`feeds, this`tokens, this`issued
      ensures var t := Refreshed(old(Contents()), e, id);
        && (r.Some? ==> t == Some(Contents()) && r.value.session == id && r.value in issued)
        && (r.None? && t.Some? && !(exists i :: fails(i)) ==>
              signFails && Contents() == t.value.(issued := old(issued)))
        && (r.None? ==>
              Contents() == old(Contents())
              || (signFails && t.Some? && Contents() == t.value.(issued := old(issued))))
    {
      var user := RefreshTables(e, id, fails);
      if user.None? {
        return None;
      }
      r := GenerateAccessToken(e, user.value, id, signFails);
    }

    /** SoftDeleteUser: four updates, all or none. */
    method SoftDeleteUser(user: string, fails: nat -> bool) returns (ok: bool)
      modifies this`users, this`prefs, this`tokens, this`feeds
      ensures ok ==> Contents() == UserRemoved(old(Contents()), user)
      ensures !ok ==> Contents() == old(Contents()) && exists i :: fails(i)
    {
      var saved := Contents();
      ok := !fails(0);
      if ok {
        SoftDeleteUserRow(user);
        ok := !fails(1);
      }
      if ok {
        SoftDeleteUserPreferences(user);
        ok := !fails(2);
      }
      if ok {
        RevokeAllRefreshTokensByUserID(user);
        ok := !fails(3);
      }
      if ok {
        SoftDeleteFeedsByUser(user);
      } else {
        Rollback(saved);
      }
    }
  }
}
