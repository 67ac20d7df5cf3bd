/** Properties relating the session routes to one another. */
module SessionProperties {
  import opened Wrappers
  import opened Sessions

  /**
   The state the routes keep consistent: look-away counts are never negative,
   the two timing keys are set together and only for a logged-in user, and the
   bound record exists and belongs to that user. Records are never deleted and a
   binding is only ever made to the row just created, so a bound id is never
   free for another client's new row.
   */
  ghost predicate Valid(app: App) {
    && (forall k :: k in app.store ==> app.store[k].lookAwayCount >= 0)
    && (app.session.currentSessionId.Some? <==> app.session.sessionStartTime.Some?)
    && (app.session.currentSessionId.Some? ==> app.session.userId.Some?)
    && (app.session.currentSessionId.Some? ==> app.session.currentSessionId.value in app.store)
    && (app.session.currentSessionId.Some? && app.session.currentSessionId.value in app.store ==>
          app.store[app.session.currentSessionId.value].userId == app.session.userId.value)
  }

  /** A client with no session keys, over a table with no negative count, starts in a consistent state. */
  lemma InitialValid(store: Store)
    requires forall k :: k in store ==> store[k].lookAwayCount >= 0
    ensures Valid(App(store, Session(None, None, None)))
  {
  }

  lemma StartPreservesValid(app: App, now: real, freshId: int)
    requires Valid(app) && freshId !in app.store
    ensures Valid(StartSession(app, now, freshId).app)
  {
  }

  lemma EndPreservesValid(app: App, now: real)
    requires Valid(app)
    ensures Valid(EndSession(app, now).app)
  {
  }

  lemma UpdatePreservesValid(app: App)
    requires Valid(app)
    ensures Valid(UpdateLookaway(app).app)
  {
  }

  /** Another client starting a session on the shared table keeps this client consistent. */
  lemma OtherStartPreservesValid(app: App, other: Session, now: real, freshId: int)
    requires Valid(app) && freshId !in app.store
    ensures Valid(App(StartSession(App(app.store, other), now, freshId).app.store, app.session))
  {
  }

  /** Another client ending a session on the shared table keeps this client consistent. */
  lemma OtherEndPreservesValid(app: App, other: Session, now: real)
    requires Valid(app)
    ensures Valid(App(EndSession(App(app.store, other), now).app.store, app.session))
  {
  }

  /** Another client counting a look-away on the shared table keeps this client consistent. */
  lemma OtherUpdatePreservesValid(app: App, other: Session)
    requires Valid(app)
    ensures Valid(App(UpdateLookaway(App(app.store, other)).app.store, app.session))
  {
  }

  /** In a consistent state, ending a session never fails on a missing start time. */
  lemma ValidEndNeverFails(app: App, now: real)
    requires Valid(app)
    ensures EndSession(app, now).reply != ServerError
  {
  }

  /** Once a session has been ended (or there was none), counting a look-away is redirected and changes nothing. */
  lemma UpdateAfterEndIsNoop(app: App, now: real)
    requires EndSession(app, now).reply != ServerError
    ensures var ended := EndSession(app, now).app;
            UpdateLookaway(ended) == Outcome(ended, RedirectToLogin)
  {
  }

  /** With a non-decreasing clock, the recorded duration is never negative. */
  lemma EndWithMonotoneClock(app: App, now: real)
    requires HasActiveSession(app.session) && app.session.currentSessionId.value in app.store
    requires app.session.sessionStartTime.Some? && app.session.sessionStartTime.value <= now
    ensures EndSession(app, now).app.store[app.session.currentSessionId.value].sessionTime >= 0.0
  {
  }

  /** If the clock goes backwards, the duration written is negative: nothing clamps it. */
  lemma BackwardClockWritesNegative(user: int, id: int)
    ensures var app := App(map[id := Progress(0.0, 0, user)], Session(Some(user), Some(id), Some(10.0)));
            EndSession(app, 4.0).app.store[id].sessionTime == -6.0
  {
  }

  /** `n` look-away updates in a row. */
  ghost function Lookaways(app: App, n: nat): App
    decreases n
  {
    if n == 0 then app else Lookaways(UpdateLookaway(app).app, n - 1)
  }

  /** `n` updates on a bound, existing record raise its count by `n` and touch nothing else. */
  lemma {:induction false} LookawaysCount(app: App, n: nat)
    requires HasActiveSession(app.session) && app.session.currentSessionId.value in app.store
    ensures var id := app.session.currentSessionId.value;
            var a := Lookaways(app, n);
            && a.session == app.session
            && a.store.Keys == app.store.Keys
            && a.store[id] == app.store[id].(lookAwayCount := app.store[id].lookAwayCount + n)
            && OthersUnchanged(app.store, a.store, id)
    decreases n
  {
    if n > 0 {
      var next := UpdateLookaway(app).app;
      LookawaysCount(next, n - 1);
    }
  }

  /**
   Start a session, count `n` look-aways, end it: the new record holds `n`
   look-aways and the elapsed clock time, belongs to the user, shows on the
   user's dashboard, and every other record is as before.
   */
  lemma SessionRoundTrip(app: App, start: real, freshId: int, n: nat, stop: real)
    requires app.session.userId.Some? && freshId !in app.store
    ensures var started := StartSession(app, start, freshId).app;
            var ended := EndSession(Lookaways(started, n), stop);
            var user := app.session.userId.value;
            && ended.reply == RedirectToDashboard
            && freshId in ended.app.store
            && ended.app.store[freshId] == Progress(stop - start, n, user)
            && OthersUnchanged(app.store, ended.app.store, freshId)
            && ended.app.session == Session(Some(user), None, None)
            && var page := Dashboard(ended.app).reply;
               freshId in page.progress && page.progress[freshId] == Progress(stop - start, n, user)
  {
    var started := StartSession(app, start, freshId).app;
    LookawaysCount(started, n);
  }

  /** Two different users' dashboards never show the same record. */
  lemma DashboardsDisjoint(store: Store, a: Session, b: Session)
    requires a.userId.Some? && b.userId.Some? && a.userId != b.userId
    ensures Dashboard(App(store, a)).reply.progress.Keys !! Dashboard(App(store, b)).reply.progress.Keys
  {
  }
}
