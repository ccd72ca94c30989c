/** The decision logic of the application's middleware. A middleware is
    modelled as a function from the incoming request, the response headers
    written so far and its collaborators' answers to a `Step`: whether it
    hands the (possibly changed) request to the next handler, answers the
    client itself, or crashes; the headers it leaves; and the storage calls
    it made. */
module Middleware {
  import opened Wrappers
  import opened Http
  import opened Models
  import Helpers

  /** `Next(req)`: the next handler is called exactly once, with `req`.
      `Respond(reply)`: the middleware answers and the next handler is not
      called. `Panic`: the goroutine panics (a nil pointer is dereferenced). */
  datatype Outcome = Next(req: Request) | Respond(reply: Reply) | Panic

  datatype Step = Step(outcome: Outcome, headers: Headers, calls: seq<StoreCall>)

  /** What the user lookup returns: a possibly nil user and a possibly nil error. */
  datatype UserLookup = UserLookup(user: Option<User>, err: Option<StoreError>)

  const XssProtectionHeader: string := "X-XSS-Protection"
  const FrameOptionsHeader: string := "X-Frame-Options"
  const CacheControlHeader: string := "Cache-Control"
  const LoginPath: string := "/user/login"

  /** `secureHeaders`: sets the anti-XSS and anti-framing headers and always
      passes the request on unchanged. */
  function SecureHeaders(r: Request, h: Headers): (s: Step)
    ensures s.outcome == Next(r) && s.calls == []
    ensures HeaderValues(s.headers, XssProtectionHeader) == ["1; mode=block"]
    ensures HeaderValues(s.headers, FrameOptionsHeader) == ["deny"]
    ensures forall k :: k != XssProtectionHeader && k != FrameOptionsHeader ==>
      HeaderValues(s.headers, k) == HeaderValues(h, k)
  {
    var h1 := HeaderSet(h, XssProtectionHeader, "1; mode=block");
    var h2 := HeaderSet(h1, FrameOptionsHeader, "deny");
    Step(Next(r), h2, [])
  }

  /** `requireAuthentication`: an unauthenticated request is redirected to
      the login page with 303 and goes no further; an authenticated one gets
      `Cache-Control: no-store` added and is passed on unchanged. */
  function RequireAuthentication(r: Request, h: Headers): (s: Step)
    ensures s.calls == []
    ensures !Helpers.IsAuthenticated(r.ctx) ==>
      s.outcome == Respond(RedirectReply(303, LoginPath)) && s.headers == h
    ensures Helpers.IsAuthenticated(r.ctx) ==>
      && s.outcome == Next(r)
      && HeaderValues(s.headers, CacheControlHeader) == HeaderValues(h, CacheControlHeader) + ["no-store"]
      && forall k :: k != CacheControlHeader ==> HeaderValues(s.headers, k) == HeaderValues(h, k)
  {
    if !Helpers.IsAuthenticated(r.ctx) then
      Step(Respond(RedirectReply(StatusSeeOther, LoginPath)), h, [])
    else
      Step(Next(r), HeaderAdd(h, CacheControlHeader, "no-store"), [])
  }

  /** `authenticate`: looks up the user named by the session, if any, and
      records in the request context that the request is authenticated.
      The soft failure (no such user, or an inactive one) is tested before
      the hard failure (any other lookup error). When the lookup returns a
      nil user together with an error other than "no record", or with no
      error at all, the test of the user's active flag dereferences the nil
      pointer: that is the `Panic` outcome. */
  function Authenticate(r: Request, h: Headers, users: int -> UserLookup): (s: Step)
    ensures s.headers == h
    // no user id in the session: no lookup, request passed on untouched
    ensures s.calls == [] <==> AuthenticatedUserIdKey !in r.session
    ensures AuthenticatedUserIdKey !in r.session ==> s.outcome == Next(r)
    ensures AuthenticatedUserIdKey in r.session ==>
      var id := SessionGetInt(r.session, AuthenticatedUserIdKey);
      var look := users(id);
      && s.calls == [GetUser(id)]
      // soft failure: stale key removed, flag left alone, request passed on
      && (look.err == Some(ErrNoRecord) || (look.user.Some? && !look.user.value.active) ==>
            s.outcome == Next(Request(r.ctx, r.session - {AuthenticatedUserIdKey})))
      // nil user and not "no record": nil dereference
      && (s.outcome == Panic <==> look.err != Some(ErrNoRecord) && look.user.None?)
      // active user and a real error: 500, next not called
      && (s.outcome.Respond? <==>
            look.user.Some? && look.user.value.active && look.err.Some? && look.err != Some(ErrNoRecord))
      && (s.outcome.Respond? ==> s.outcome.reply == Helpers.ServerError(look.err.value))
      // active user, no error: flag set, session untouched
      && (look.user.Some? && look.user.value.active && look.err.None? ==>
            s.outcome == Next(Request(WithAuthenticated(r.ctx), r.session)))
  {
    if AuthenticatedUserIdKey !in r.session then
      Step(Next(r), h, [])
    else
      var id := SessionGetInt(r.session, AuthenticatedUserIdKey);
      var look := users(id);
      var calls := [GetUser(id)];
      if look.err == Some(ErrNoRecord) then
        Step(Next(r.(session := r.session - {AuthenticatedUserIdKey})), h, calls)
      else if look.user.None? then
        Step(Panic, h, calls)
      else if !look.user.value.active then
        Step(Next(r.(session := r.session - {AuthenticatedUserIdKey})), h, calls)
      else if look.err.Some? then
        Step(Respond(Helpers.ServerError(look.err.value)), h, calls)
      else
        Step(Next(r.(ctx := WithAuthenticated(r.ctx))), h, calls)
  }

  // ---------------------------------------------------------------------
  // Properties

  /** An inactive user is a soft failure even when the lookup also reports
      a hard error: the soft branch is tested first, so there is no 500. */
  lemma InactiveBeatsLookupError(r: Request, h: Headers, users: int -> UserLookup, u: User, text: string)
    requires AuthenticatedUserIdKey in r.session
    requires users(SessionGetInt(r.session, AuthenticatedUserIdKey)) == UserLookup(Some(u), Some(ErrOther(text)))
    requires !u.active
    ensures Authenticate(r, h, users).outcome == Next(r.(session := r.session - {AuthenticatedUserIdKey}))
  {
  }

  /** Whenever `authenticate` passes a request on that still names a user in
      its session, that user was found, is active, and the request is marked
      authenticated: a stale key never survives the step. */
  lemma KeptKeyMeansAuthenticated(r: Request, h: Headers, users: int -> UserLookup)
    requires Authenticate(r, h, users).outcome.Next?
    requires AuthenticatedUserIdKey in r.session
    ensures var out := Authenticate(r, h, users).outcome.req;
      var look := users(SessionGetInt(r.session, AuthenticatedUserIdKey));
      AuthenticatedUserIdKey in out.session <==>
        look.user.Some? && look.user.value.active && look.err.None? && Helpers.IsAuthenticated(out.ctx)
  {
  }

  /** Running `authenticate` again on the request it passed on changes
      nothing more (given the same storage answers). */
  lemma AuthenticateIdempotent(r: Request, h: Headers, users: int -> UserLookup)
    requires Authenticate(r, h, users).outcome.Next?
    ensures var r' := Authenticate(r, h, users).outcome.req;
      Authenticate(r', h, users).outcome == Next(r')
  {
  }

  /** `requireAuthentication` running inside `secureHeaders` keeps the two
      security headers on both of its paths. */
  lemma RequireAuthenticationKeepsSecureHeaders(r: Request, h: Headers)
    ensures var s1 := SecureHeaders(r, h);
      var s2 := RequireAuthentication(s1.outcome.req, s1.headers);
      && HeaderGet(s2.headers, XssProtectionHeader) == "1; mode=block"
      && HeaderGet(s2.headers, FrameOptionsHeader) == "deny"
  {
  }

  // ---------------------------------------------------------------------
  // The nil-user dereference

  /** A lookup that returns a nil user with any error other than "no
      record" (a storage failure reported the usual Go way), or with no error
      at all, makes `authenticate` dereference the nil user instead of
      answering 500 or passing the request on. */
  lemma AuthenticateNilUserPanics(r: Request, h: Headers, users: int -> UserLookup)
    requires AuthenticatedUserIdKey in r.session
    requires users(SessionGetInt(r.session, AuthenticatedUserIdKey)).user.None?
    requires users(SessionGetInt(r.session, AuthenticatedUserIdKey)).err != Some(ErrNoRecord)
    ensures Authenticate(r, h, users).outcome == Panic
  {
  }

  /** `authenticate` with the hard error tested before the user is looked
      at: "no record" and a missing or inactive user are soft failures, any
      other error is a 500, and only an active user with no error is
      authenticated. */
  function AuthenticateGuarded(r: Request, h: Headers, users: int -> UserLookup): (s: Step)
    ensures s.headers == h
    ensures s.outcome != Panic
    ensures AuthenticatedUserIdKey !in r.session ==> s == Step(Next(r), h, [])
    ensures AuthenticatedUserIdKey in r.session ==>
      var id := SessionGetInt(r.session, AuthenticatedUserIdKey);
      var look := users(id);
      && s.calls == [GetUser(id)]
      && (s.outcome.Respond? <==> look.err.Some? && look.err != Some(ErrNoRecord))
      && (s.outcome.Respond? ==> s.outcome.reply == Helpers.ServerError(look.err.value))
      && (look.user.Some? && look.user.value.active && look.err.None? ==>
            s.outcome == Next(Request(WithAuthenticated(r.ctx), r.session)))
      && (!(look.user.Some? && look.user.value.active && look.err.None?) && !s.outcome.Respond? ==>
            s.outcome == Next(Request(r.ctx, r.session - {AuthenticatedUserIdKey})))
  {
    if AuthenticatedUserIdKey !in r.session then
      Step(Next(r), h, [])
    else
      var id := SessionGetInt(r.session, AuthenticatedUserIdKey);
      var look := users(id);
      var calls := [GetUser(id)];
      if look.err == Some(ErrNoRecord) then
        Step(Next(r.(session := r.session - {AuthenticatedUserIdKey})), h, calls)
      else if look.err.Some? then
        Step(Respond(Helpers.ServerError(look.err.value)), h, calls)
      else if look.user.None? || !look.user.value.active then
        Step(Next(r.(session := r.session - {AuthenticatedUserIdKey})), h, calls)
      else
        Step(Next(r.(ctx := WithAuthenticated(r.ctx))), h, calls)
  }

  /** The lookup follows Go's convention: a user exactly when there is no error. */
  predicate Conventional(look: UserLookup) {
    look.user.Some? <==> look.err.None?
  }

  /** On lookups that follow Go's convention the guarded version does what
      `authenticate` does wherever `authenticate` does not crash, and where
      it crashes the guarded version answers 500. */
  lemma GuardedAgrees(r: Request, h: Headers, users: int -> UserLookup)
    requires AuthenticatedUserIdKey in r.session ==> Conventional(users(SessionGetInt(r.session, AuthenticatedUserIdKey)))
    ensures Authenticate(r, h, users).outcome != Panic ==> AuthenticateGuarded(r, h, users) == Authenticate(r, h, users)
    ensures Authenticate(r, h, users).outcome == Panic ==>
      AuthenticateGuarded(r, h, users).outcome.Respond? && AuthenticateGuarded(r, h, users).outcome.reply.status == 500
  {
  }
}
