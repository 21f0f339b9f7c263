/** Requests at the grain of transactions: the middlewares look at one moment (the guard, then the session,
    then the administrator's flag), the handler writes at a later one, and anything may happen in between. */
module Handlers {
  import opened Sessions

  /** Handle is the handler's transaction of a request that was let in earlier. Whole is a step that is one
      transaction: a login, a refresh, a removal, a promotion, the clock. */
  datatype Move =
    | Whole(step: Step)
    | Handle(step: Step)

  ghost function Moved(s: Sys, e: Expiry, m: Move): Sys {
    match m
    case Whole(step) => Next(s, e, step)
    case Handle(step) => if HasBearer(step) then Handled(s, e, step) else s
  }

  ghost function After(s: Sys, e: Expiry, moves: seq<Move>): Sys {
    if moves == [] then s else Moved(After(s, e, moves[..|moves| - 1]), e, moves[|moves| - 1])
  }

  /** The state after the first k moves. */
  ghost function At(s: Sys, e: Expiry, moves: seq<Move>, k: nat): Sys
    requires k <= |moves|
  {
    After(s, e, moves[..k])
  }

  /** The middlewares passed the request at moments g, i and j, one after another. */
  ghost predicate LetInAt(s: Sys, e: Expiry, before: seq<Move>, step: Step, g: nat, i: nat, j: nat)
    requires HasBearer(step)
  {
    && g <= i <= j <= |before|
    && (Guarded(step) ==> PassesGuard(At(s, e, before, g), step.bearer))
    && Authenticated(At(s, e, before, i), step.bearer)
    && (ForAdmins(step) ==> IsAdmin(At(s, e, before, j), step.bearer.user))
  }

  ghost predicate Fits(s: Sys, e: Expiry, before: seq<Move>, m: Move) {
    match m
    case Whole(step) => !HasBearer(step)
    case Handle(step) => HasBearer(step) && exists g: nat, i: nat, j: nat :: LetInAt(s, e, before, step, g, i, j)
  }

  ghost predicate Interleaved(s: Sys, e: Expiry, moves: seq<Move>) {
    moves == [] || (Interleaved(s, e, moves[..|moves| - 1]) && Fits(s, e, moves[..|moves| - 1], moves[|moves| - 1]))
  }

  /** A request let in and handled at one moment is the one step it is elsewhere. */
  lemma AtOnce(s: Sys, e: Expiry, step: Step)
    requires HasBearer(step)
    ensures Next(s, e, step) == if LetIn(s, step) then Moved(s, e, Handle(step)) else s
    ensures LetIn(s, step) <==> LetInAt(s, e, [], step, 0, 0, 0)
  {
  }

  /** So every run of whole requests is among these runs. */
  lemma {:induction false} SerialIsInterleaved(s: Sys, e: Expiry, steps: seq<Step>) returns (moves: seq<Move>)
    ensures Interleaved(s, e, moves) && After(s, e, moves) == Run(s, e, steps)
  {
    if steps == [] {
      return [];
    }
    var before := SerialIsInterleaved(s, e, steps[..|steps| - 1]);
    var step := steps[|steps| - 1];
    if HasBearer(step) && !LetIn(After(s, e, before), step) {
      return before;
    }
    moves := before + [if HasBearer(step) then Handle(step) else Whole(step)];
    assert moves[..|before|] == before && before[..|before|] == before;
    if HasBearer(step) {
      assert LetInAt(s, e, before, step, |before|, |before|, |before|);
    }
  }

  // ---------------------------------------------------------------- access tokens stay issued

  lemma {:induction false} IssuedStays(s: Sys, e: Expiry, moves: seq<Move>, k: nat)
    requires k <= |moves|
    ensures At(s, e, moves, k).issued <= After(s, e, moves).issued
  {
    if k == |moves| {
      assert moves[..k] == moves;
    } else {
      var front := moves[..|moves| - 1];
      assert front[..k] == moves[..k];
      IssuedStays(s, e, front, k);
      IssuedGrows(After(s, e, front), e, moves[|moves| - 1]);
    }
  }

  lemma IssuedGrows(s: Sys, e: Expiry, m: Move)
    ensures s.issued <= Moved(s, e, m).issued
  {
    if m.Whole? && !HasBearer(m.step) && !IsInternal(m.step) {
      EntryIssues(s, e, m.step);
    }
  }

  lemma EntryIssues(s: Sys, e: Expiry, step: Step)
    requires step.Login? || step.Refresh?
    ensures s.issued <= Next(s, e, step).issued
  {
  }

  lemma BearerIsIssued(s: Sys, e: Expiry, before: seq<Move>, step: Step)
    requires Fits(s, e, before, Handle(step))
    ensures step.bearer in After(s, e, before).issued
  {
    var g: nat, i: nat, j: nat :| LetInAt(s, e, before, step, g, i, j);
    IssuedStays(s, e, before, i);
  }

  // ---------------------------------------------------------------- what every interleaving keeps

  /** Distinct identities, active preferences of active users, live tokens of active users, one unrevoked
      token per user and claims that match their session hold under every interleaving. */
  lemma {:induction false} EveryInterleavingKeepsCore(s: Sys, e: Expiry, moves: seq<Move>)
    requires Core(s) && Interleaved(s, e, moves)
    ensures Core(After(s, e, moves))
  {
    if moves == [] {
    } else {
      var front, m := moves[..|moves| - 1], moves[|moves| - 1];
      EveryInterleavingKeepsCore(s, e, front);
      match m
      case Whole(step) => StepKeepsCore(After(s, e, front), e, step);
      case Handle(step) =>
        BearerIsIssued(s, e, front, step);
        HandlerKeepsCore(After(s, e, front), e, step);
    }
  }

  lemma {:induction false} PrefixInterleaved(s: Sys, e: Expiry, moves: seq<Move>, k: nat)
    requires Interleaved(s, e, moves) && k <= |moves|
    ensures Interleaved(s, e, moves[..k])
  {
    if k == |moves| {
      assert moves[..k] == moves;
    } else {
      assert moves[..|moves| - 1][..k] == moves[..k];
      PrefixInterleaved(s, e, moves[..|moves| - 1], k);
    }
  }

  // ---------------------------------------------------------------- feeds and their owners

  /** The move does not create a feed for a user who is gone. */
  predicate InTime(s: Sys, m: Move) {
    m.Handle? && m.step.CreateFeed? && m.step.id != "" ==> Active(s, m.step.bearer.user) || m.step.id in s.feeds
  }

  lemma MoveKeepsOwnersExactly(s: Sys, e: Expiry, before: seq<Move>, m: Move)
    requires Core(s) && Interleaved(s, e, before) && Fits(s, e, before, m)
    requires var t := After(s, e, before); FeedsFollow(t.users, t.feeds)
    ensures var t, u := After(s, e, before), After(s, e, before + [m]); FeedsFollow(u.users, u.feeds) <==> InTime(t, m)
  {
    var t := After(s, e, before);
    assert (before + [m])[..|before|] == before;
    EveryInterleavingKeepsCore(s, e, before);
    match m
    case Whole(step) => StepKeepsCore(t, e, step);
    case Handle(step) =>
      BearerIsIssued(s, e, before, step);
      if step.CreateFeed? {
        HandlerKeepsFeedsExactly(t, step.bearer.user, step.id, step.name, step.keywords);
      } else {
        HandlerKeepsCore(t, e, step);
      }
  }

  /** Every active feed has an active owner, now and at every moment before. */
  ghost predicate AlwaysOwned(s: Sys, e: Expiry, moves: seq<Move>) {
    && FeedsFollow(After(s, e, moves).users, After(s, e, moves).feeds)
    && (moves == [] || AlwaysOwned(s, e, moves[..|moves| - 1]))
  }

  ghost predicate AlwaysInTime(s: Sys, e: Expiry, moves: seq<Move>) {
    moves == []
    || (AlwaysInTime(s, e, moves[..|moves| - 1]) && InTime(After(s, e, moves[..|moves| - 1]), moves[|moves| - 1]))
  }

  /** It is so exactly when no feed is created for a user who was removed after being let in. */
  lemma {:induction false} OwnersAgreeExactly(s: Sys, e: Expiry, moves: seq<Move>)
    requires Safe(s) && Interleaved(s, e, moves)
    ensures AlwaysOwned(s, e, moves) <==> AlwaysInTime(s, e, moves)
  {
    if moves == [] {
    } else {
      var front := moves[..|moves| - 1];
      OwnersAgreeExactly(s, e, front);
      if AlwaysOwned(s, e, front) {
        assert FeedsFollow(After(s, e, front).users, After(s, e, front).feeds);
        MoveKeepsOwnersExactly(s, e, front, moves[|moves| - 1]);
        assert front + [moves[|moves| - 1]] == moves;
      }
    }
  }

  // ---------------------------------------------------------------- death, removal, the switch

  lemma MoveKeepsDead(s: Sys, e: Expiry, m: Move, id: string)
    requires Dead(s, id)
    ensures Dead(Moved(s, e, m), id)
  {
    match m
    case Whole(step) => StepKeepsDead(s, e, step, id);
    case Handle(step) =>
      if HasBearer(step) {
        HandlerKeepsDead(s, e, step, id);
      }
  }

  lemma HandlerKeepsDead(s: Sys, e: Expiry, step: Step, id: string)
    requires Dead(s, id) && HasBearer(step)
    ensures Dead(Handled(s, e, step), id)
  {
  }

  /** From the moment a session is revoked or has expired, nothing lets a request in by it, whatever
      handlers of requests let in before still run. */
  lemma {:induction false} DeathIsFinalAnyway(s: Sys, e: Expiry, moves: seq<Move>, k: nat, id: string)
    requires k <= |moves| && Dead(At(s, e, moves, k), id)
    ensures var t := After(s, e, moves);
      Dead(t, id) && Refreshed(t, e, id).None? && (forall c: Claims :: c.session == id ==> !Authenticated(t, c))
  {
    if k == |moves| {
      assert moves[..k] == moves;
    } else {
      var front := moves[..|moves| - 1];
      assert front[..k] == moves[..k];
      DeathIsFinalAnyway(s, e, front, k, id);
      MoveKeepsDead(After(s, e, front), e, moves[|moves| - 1], id);
    }
  }

  lemma HandlerKeepsUsers(s: Sys, e: Expiry, step: Step)
    requires HasBearer(step)
    ensures Handled(s, e, step).users == s.users
  {
  }

  lemma MoveKeepsRemoved(s: Sys, e: Expiry, m: Move, u: string)
    requires u in s.users && s.users[u].removed
    ensures u in Moved(s, e, m).users && Moved(s, e, m).users[u].removed
  {
    match m
    case Whole(step) => StepKeepsRemoved(s, e, step, u);
    case Handle(step) =>
      if HasBearer(step) {
        HandlerKeepsUsers(s, e, step);
      }
  }

  lemma {:induction false} RemovedStays(s: Sys, e: Expiry, moves: seq<Move>, k: nat, u: string)
    requires k <= |moves| && u in At(s, e, moves, k).users && At(s, e, moves, k).users[u].removed
    ensures u in After(s, e, moves).users && After(s, e, moves).users[u].removed
  {
    if k == |moves| {
      assert moves[..k] == moves;
    } else {
      var front := moves[..|moves| - 1];
      assert front[..k] == moves[..k];
      RemovedStays(s, e, front, k, u);
      MoveKeepsRemoved(After(s, e, front), e, moves[|moves| - 1], u);
    }
  }

  /** From the moment a user is removed, no token and no session of theirs is accepted. */
  lemma RemovedUserIsOutAnyway(s: Sys, e: Expiry, moves: seq<Move>, k: nat, u: string)
    requires Core(s) && Interleaved(s, e, moves)
    requires k <= |moves| && u in At(s, e, moves, k).users && At(s, e, moves, k).users[u].removed
    ensures var t := After(s, e, moves);
      && (forall id :: id in t.tokens && t.tokens[id].user == u ==> !Live(t, id))
      && (forall c: Claims :: c.user == u ==> !Authenticated(t, c))
  {
    EveryInterleavingKeepsCore(s, e, moves);
    RemovedStays(s, e, moves, k, u);
  }

  lemma OnlyToggleMovesSwitch(s: Sys, e: Expiry, m: Move)
    requires (m.Whole? ==> !HasBearer(m.step)) && Moved(s, e, m).appOn != s.appOn
    ensures m.Handle? && m.step.Toggle?
  {
  }

  /** When a handler moves the switch, its bearer was an administrator at some moment before. */
  lemma SwitchNeedsAdminBefore(s: Sys, e: Expiry, before: seq<Move>, m: Move)
    requires Fits(s, e, before, m) && Moved(After(s, e, before), e, m).appOn != After(s, e, before).appOn
    ensures m.Handle? && m.step.Toggle?
    ensures exists j :: 0 <= j <= |before| && IsAdmin(At(s, e, before, j), m.step.bearer.user)
  {
    OnlyToggleMovesSwitch(After(s, e, before), e, m);
    var g: nat, i: nat, j: nat :| LetInAt(s, e, before, m.step, g, i, j);
    assert IsAdmin(At(s, e, before, j), m.step.bearer.user);
  }
}
