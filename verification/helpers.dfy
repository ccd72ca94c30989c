/** The application's response helpers, the authentication query on the
    request context, and the default data every rendered page receives. */
module Helpers {
  import opened Wrappers
  import opened Http
  import Models
  import Forms

  /** `serverError`: a generic 500 page. The error is only logged, so the
      reply is the same whatever the error says. */
  function ServerError(err: Models.StoreError): (r: Reply)
    ensures r.ErrorReply? && r.status == 500
    ensures r.text == "Internal Server Error"
  {
    ErrorReply(StatusInternalServerError, StatusText(StatusInternalServerError))
  }

  /** `clientError`: the given status with its standard reason phrase. */
  function ClientError(status: int): (r: Reply)
    ensures r.ErrorReply? && r.status == status && r.text == StatusText(status)
  {
    ErrorReply(status, StatusText(status))
  }

  /** `notFound`: the client error 404. */
  function NotFound(): (r: Reply)
    ensures r == ClientError(404)
    ensures r == ErrorReply(404, "Not Found")
  {
    ClientError(StatusNotFound)
  }

  /** `isAuthenticated`: the boolean the context holds under the
      authentication key; false when it holds nothing there, or a value
      that is not a boolean. */
  function IsAuthenticated(ctx: Context): (r: bool)
    ensures r <==> ctx.authFlag == Some(Flag(true))
  {
    match ctx.authFlag
    case Some(Flag(b)) => b
    case _ => false
  }

  /** The data handed to a page template. */
  datatype TemplateData = TemplateData(
    csrfToken: string,
    currentYear: int,
    flash: string,
    form: Option<Forms.Form>,
    isAuthenticated: bool,
    snippet: Option<Models.Snippet>,
    snippets: seq<Models.Snippet>)

  /** A template data record with every field at its zero value. */
  const EmptyTemplateData: TemplateData := TemplateData("", 0, "", None, false, None, [])

  /** `addDefaultData`: starts from `td`, or from a fresh zero record when
      `td` is nil, and fills in the CSRF token, the current year, the flash
      message popped from the session, and the authentication flag. The CSRF
      token and the year come from outside (the CSRF library and the clock).
      Returns the data and the session after the pop. */
  function AddDefaultData(td: Option<TemplateData>, r: Request, csrfToken: string, year: int)
    : (res: (TemplateData, Session))
    ensures var base := td.GetOr(EmptyTemplateData);
      && res.0.form == base.form
      && res.0.snippet == base.snippet
      && res.0.snippets == base.snippets
    ensures res.0.isAuthenticated == IsAuthenticated(r.ctx)
    ensures res.0.csrfToken == csrfToken && res.0.currentYear == year
    ensures FlashKey in r.session && r.session[FlashKey].StringValue? ==> res.0.flash == r.session[FlashKey].s
    ensures !(FlashKey in r.session && r.session[FlashKey].StringValue?) ==> res.0.flash == ""
    ensures res.1 == r.session - {FlashKey}
  {
    var data := if td.None? then EmptyTemplateData else td.value;
    var popped := SessionPopString(r.session, FlashKey);
    var data' := data.(csrfToken := csrfToken, currentYear := year, flash := popped.0,
                       isAuthenticated := IsAuthenticated(r.ctx));
    (data', popped.1)
  }

  /** A flash message is shown once: rendering again with the session the
      first render left behind carries no flash, and the other session
      entries survive both renders. */
  lemma FlashShownOnce(td: Option<TemplateData>, td2: Option<TemplateData>, r: Request,
                       csrfToken: string, year: int)
    ensures var first := AddDefaultData(td, r, csrfToken, year);
      var second := AddDefaultData(td2, r.(session := first.1), csrfToken, year);
      && second.0.flash == ""
      && second.1 == first.1
      && (forall k :: k in r.session && k != FlashKey ==> k in second.1 && second.1[k] == r.session[k])
  {
  }

  /** The flag `authenticate` stores in the context is the one
      `isAuthenticated` reads back as true. */
  lemma AuthenticatedAfterWith(ctx: Context)
    ensures IsAuthenticated(WithAuthenticated(ctx))
    ensures !IsAuthenticated(Context(None))
  {
  }
}
