/**
 Session and progress bookkeeping of the web application.

 The progress table is an abstract map from primary key to record. Each
 client carries a cookie session with up to three keys: the logged-in user,
 the id of the progress record being timed, and the start time of that
 record. Every route is a guarded transition on the pair; a redirect to the
 login page changes nothing.
 */
module Sessions {
  import opened Wrappers

  /** A row of the progress table. */
  datatype Progress = Progress(sessionTime: real, lookAwayCount: int, userId: int)

  /** The progress table, keyed by primary key. */
  type Store = map<int, Progress>

  /** The keys of one client's cookie session that the routes read and write. */
  datatype Session = Session(userId: Option<int>, currentSessionId: Option<int>, sessionStartTime: Option<real>)

  /** The state a request sees: the shared table and the requesting client's session. */
  datatype App = App(store: Store, session: Session)

  /** What a route answers with. */
  datatype Reply =
    | RedirectToLogin
    | RedirectToDashboard
    | LookawayUpdated
    | ServerError
    | DashboardPage(progress: map<int, Progress>)

  /** The state after a request, and the reply sent. */
  datatype Outcome = Outcome(app: App, reply: Reply)

  /** Both keys that ending a session and counting a look-away test for are present. */
  predicate HasActiveSession(s: Session) {
    s.userId.Some? && s.currentSessionId.Some?
  }

  /** The session with the timing keys removed and the user kept. */
  function Unbind(s: Session): (s': Session)
    ensures s'.userId == s.userId && s'.currentSessionId.None? && s'.sessionStartTime.None?
  {
    s.(currentSessionId := None, sessionStartTime := None)
  }

  /** Every record other than `id` is present in `after` exactly as in `before`. */
  ghost predicate OthersUnchanged(before: Store, after: Store, id: int) {
    forall k :: k in before && k != id ==> k in after && after[k] == before[k]
  }

  /** A non-empty set of keys has a member to pick. */
  lemma NonEmptyHasMember(keys: set<int>)
    requires keys != {}
    ensures exists k :: k in keys
  {
    if forall k :: k !in keys {
      assert false;
    }
  }

  /**
   The primary key the table hands out for a new row: one more than the
   largest key, or 1 for an empty table.
   */
  method FreshId(store: Store) returns (id: int)
    ensures id !in store
    ensures store == map[] ==> id == 1
    ensures store != map[] ==> id - 1 in store && forall k :: k in store ==> k < id
  {
    if store.Keys == {} {
      assert store == map[];
      return 1;
    }
    NonEmptyHasMember(store.Keys);
    var first :| first in store.Keys;
    var largest := first;
    var rest := store.Keys - {first};
    while rest != {}
      invariant rest <= store.Keys
      invariant largest in store
      invariant forall k :: k in store && k !in rest ==> k <= largest
      decreases rest
    {
      NonEmptyHasMember(rest);
      var k :| k in rest;
      if k > largest {
        largest := k;
      }
      rest := rest - {k};
    }
    id := largest + 1;
  }

  /**
   Start a session: without a logged-in user nothing happens; otherwise one
   new record for that user, with zero time and zero look-aways, is added
   under `freshId`, and the session is bound to it and to `now`.
   */
  function StartSession(app: App, now: real, freshId: int): (o: Outcome)
    requires freshId !in app.store
    ensures app.session.userId.None? ==> o == Outcome(app, RedirectToLogin)
    ensures app.session.userId.Some? ==>
              && o.reply == RedirectToDashboard
              && o.app.store.Keys == app.store.Keys + {freshId}
              && |o.app.store| == |app.store| + 1
              && o.app.store[freshId] == Progress(0.0, 0, app.session.userId.value)
              && OthersUnchanged(app.store, o.app.store, freshId)
              && o.app.session.userId == app.session.userId
              && o.app.session.currentSessionId == Some(freshId)
              && o.app.session.sessionStartTime == Some(now)
  {
    match app.session.userId
    case None => Outcome(app, RedirectToLogin)
    case Some(user) =>
      var store := app.store[freshId := Progress(0.0, 0, user)];
      var session := app.session.(currentSessionId := Some(freshId), sessionStartTime := Some(now));
      Outcome(App(store, session), RedirectToDashboard)
  }

  /**
   End a session: without both keys nothing happens. Otherwise the bound
   record, if it exists, gets the elapsed time `now - start` (not clamped,
   so it may be negative), and the timing keys are removed. A bound, existing
   record with no start time fails the request before anything is written.
   */
  function EndSession(app: App, now: real): (o: Outcome)
    ensures !HasActiveSession(app.session) ==> o == Outcome(app, RedirectToLogin)
    ensures HasActiveSession(app.session) && app.session.currentSessionId.value !in app.store ==>
              o == Outcome(App(app.store, Unbind(app.session)), RedirectToDashboard)
    ensures HasActiveSession(app.session) && app.session.currentSessionId.value in app.store ==>
              if app.session.sessionStartTime.None? then o == Outcome(app, ServerError)
              else
                var id := app.session.currentSessionId.value;
                && o.reply == RedirectToDashboard
                && o.app.session == Unbind(app.session)
                && o.app.store.Keys == app.store.Keys
                && o.app.store[id].sessionTime == now - app.session.sessionStartTime.value
                && o.app.store[id].lookAwayCount == app.store[id].lookAwayCount
                && o.app.store[id].userId == app.store[id].userId
                && OthersUnchanged(app.store, o.app.store, id)
  {
    if !HasActiveSession(app.session) then Outcome(app, RedirectToLogin)
    else
      var id := app.session.currentSessionId.value;
      if id in app.store then
        match app.session.sessionStartTime
        case None => Outcome(app, ServerError)
        case Some(start) =>
          var store := app.store[id := app.store[id].(sessionTime := now - start)];
          Outcome(App(store, Unbind(app.session)), RedirectToDashboard)
      else
        Outcome(App(app.store, Unbind(app.session)), RedirectToDashboard)
  }

  /**
   Count one look-away: without both keys nothing happens. Otherwise the
   bound record, if it exists, gets one more look-away; the reply reports
   success either way, and the session is never changed.
   */
  function UpdateLookaway(app: App): (o: Outcome)
    ensures !HasActiveSession(app.session) ==> o == Outcome(app, RedirectToLogin)
    ensures HasActiveSession(app.session) ==> o.reply == LookawayUpdated && o.app.session == app.session
    ensures HasActiveSession(app.session) && app.session.currentSessionId.value !in app.store ==>
              o.app == app
    ensures HasActiveSession(app.session) && app.session.currentSessionId.value in app.store ==>
              var id := app.session.currentSessionId.value;
              && o.app.store.Keys == app.store.Keys
              && o.app.store[id].lookAwayCount == app.store[id].lookAwayCount + 1
              && o.app.store[id].sessionTime == app.store[id].sessionTime
              && o.app.store[id].userId == app.store[id].userId
              && OthersUnchanged(app.store, o.app.store, id)
  {
    if !HasActiveSession(app.session) then Outcome(app, RedirectToLogin)
    else
      var id := app.session.currentSessionId.value;
      if id in app.store then
        var p := app.store[id];
        Outcome(app.(store := app.store[id := p.(lookAwayCount := p.lookAwayCount + 1)]), LookawayUpdated)
      else
        Outcome(app, LookawayUpdated)
  }

  /**
   The dashboard: without a logged-in user, a redirect; otherwise exactly
   the records owned by that user, as stored. Nothing is written.
   */
  function Dashboard(app: App): (o: Outcome)
    ensures o.app == app
    ensures app.session.userId.None? <==> o.reply == RedirectToLogin
    ensures app.session.userId.Some? ==>
              && o.reply.DashboardPage?
              && (forall k :: k in o.reply.progress <==> k in app.store && app.store[k].userId == app.session.userId.value)
              && (forall k :: k in o.reply.progress ==> o.reply.progress[k] == app.store[k])
  {
    match app.session.userId
    case None => Outcome(app, RedirectToLogin)
    case Some(user) =>
      Outcome(app, DashboardPage(map k | k in app.store && app.store[k].userId == user :: app.store[k]))
  }
}
