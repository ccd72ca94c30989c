/** The decision logic of the snippet handlers: which storage calls a
    request leads to and what the client is sent back. Page rendering is a
    collaborator: a handler's answer is either a reply it writes directly or
    the name of a page template with the data to render it with. */
module Handlers {
  import opened Wrappers
  import opened Text
  import opened Http
  import opened Models
  import opened Forms
  import FormErrors
  import Helpers

  datatype Response = Direct(reply: Reply) | Render(page: string, data: Helpers.TemplateData)

  datatype HandlerResult = HandlerResult(response: Response, calls: seq<StoreCall>)

  const CreatePage: string := "create.page.tmpl"
  const ShowPage: string := "show.page.tmpl"
  /** The query parameter the router fills with the `:id` path segment. */
  const IdParam: string := ":id"

  const TitleField: string := "title"
  const ContentField: string := "content"
  const ExpiresField: string := "expires"
  const MaxTitleLength: int := 100
  const ExpiryOptions: seq<string> := ["365", "7", "1"]

  // ---------------------------------------------------------------------
  // showSnippet

  /** `showSnippet`: the `:id` parameter must parse as an `int` and be at
      least 1, otherwise 404 without touching storage; then the snippet is
      fetched once, a missing record is 404, any other storage error 500,
      and a found snippet is rendered on the show page. */
  function ShowSnippet(query: Values, snippets: int -> Result<Snippet, StoreError>): (res: HandlerResult)
    ensures var id := Atoi(ValuesGet(query, IdParam));
      id.None? || id.value < 1 ==> res == HandlerResult(Direct(Helpers.NotFound()), [])
    ensures var id := Atoi(ValuesGet(query, IdParam));
      id.Some? && id.value >= 1 ==>
        && res.calls == [GetSnippet(id.value)]
        && (snippets(id.value) == Failure(ErrNoRecord) ==> res.response == Direct(ErrorReply(404, "Not Found")))
        && (snippets(id.value).Failure? && snippets(id.value).error.ErrOther? ==>
              res.response == Direct(ErrorReply(500, "Internal Server Error")))
        && (snippets(id.value).Success? ==>
              res.response == Render(ShowPage, Helpers.EmptyTemplateData.(snippet := Some(snippets(id.value).value))))
  {
    var id := Atoi(ValuesGet(query, IdParam));
    if id.None? || id.value < 1 then
      HandlerResult(Direct(Helpers.NotFound()), [])
    else
      var calls := [GetSnippet(id.value)];
      match snippets(id.value)
      case Failure(err) =>
        if err == ErrNoRecord then HandlerResult(Direct(Helpers.NotFound()), calls)
        else HandlerResult(Direct(Helpers.ServerError(err)), calls)
      case Success(s) =>
        HandlerResult(Render(ShowPage, Helpers.EmptyTemplateData.(snippet := Some(s))), calls)
  }

  // ---------------------------------------------------------------------
  // createSnippetForm

  /** `createSnippetForm`: renders the create page with a fresh form built
      from no values; the form is valid and carries no messages. */
  function CreateSnippetForm(): (res: HandlerResult)
    ensures res.calls == [] && res.response.Render? && res.response.page == CreatePage
    ensures res.response.data.form.Some?
    ensures var f := res.response.data.form.value;
      f.values == map[] && Valid(f) && forall g :: FormErrors.Messages(f.errors, g) == []
  {
    HandlerResult(Render(CreatePage, Helpers.EmptyTemplateData.(form := Some(New(map[])))), [])
  }

  // ---------------------------------------------------------------------
  // createSnippet

  const SnippetFields: seq<string> := [TitleField, ContentField, ExpiresField]

  /** The rules `createSnippet` applies, in order: the three fields are
      required, the title is at most 100 code points, and the expiry is one
      of "365", "7" or "1". */
  function ValidateSnippet(f: Form): (r: Form)
    ensures r.values == f.values
    ensures FormErrors.WellFormed(f.errors) ==> FormErrors.WellFormed(r.errors)
  {
    var f1 := Required(f, SnippetFields);
    var f2 := MaxLength(f1, TitleField, MaxTitleLength);
    PermittedValues(f2, ExpiresField, ExpiryOptions)
  }

  lemma SnippetFieldsCount()
    ensures Count(SnippetFields, TitleField) == 1
    ensures Count(SnippetFields, ContentField) == 1
    ensures Count(SnippetFields, ExpiresField) == 1
  {
    var rest := SnippetFields[1..];
    assert rest == [ContentField, ExpiresField];
    assert rest[1..] == [ExpiresField];
    assert rest[1..][1..] == [];
    assert Count(rest[1..], ExpiresField) == 1;
  }

  /** `Required` over the create form's fields adds at most one message to each. */
  lemma RequiredSnippetField(f: Form, g: string)
    requires g in SnippetFields
    ensures FormErrors.Messages(Required(f, SnippetFields).errors, g)
      == FormErrors.Messages(f.errors, g) + (if Blank(Get(f, g)) then [BlankMessage] else [])
  {
    SnippetFieldsCount();
    RequiredMessages(f, SnippetFields, g);
    assert Repeat(BlankMessage, 1) == [BlankMessage];
  }

  /** The title may get "cannot be blank" and then "too long"; a title of
      more than 100 white-space characters gets both. */
  lemma ValidateSnippetTitle(f: Form)
    ensures var t := Get(f, TitleField);
      FormErrors.Messages(ValidateSnippet(f).errors, TitleField) == FormErrors.Messages(f.errors, TitleField)
        + (if Blank(t) then [BlankMessage] else [])
        + (if t != "" && |t| > MaxTitleLength then [TooLongMessage(MaxTitleLength)] else [])
  {
    var f1 := Required(f, SnippetFields);
    var f2 := MaxLength(f1, TitleField, MaxTitleLength);
    var r := PermittedValues(f2, ExpiresField, ExpiryOptions);
    assert r == ValidateSnippet(f);
    RequiredSnippetField(f, TitleField);
    assert Get(f1, TitleField) == Get(f, TitleField);
    assert FormErrors.Messages(r.errors, TitleField) == FormErrors.Messages(f2.errors, TitleField);
  }

  /** The content may get "cannot be blank" and nothing else. */
  lemma ValidateSnippetContent(f: Form)
    ensures var c := Get(f, ContentField);
      FormErrors.Messages(ValidateSnippet(f).errors, ContentField) == FormErrors.Messages(f.errors, ContentField)
        + (if Blank(c) then [BlankMessage] else [])
  {
    var f1 := Required(f, SnippetFields);
    var f2 := MaxLength(f1, TitleField, MaxTitleLength);
    var r := PermittedValues(f2, ExpiresField, ExpiryOptions);
    assert r == ValidateSnippet(f);
    RequiredSnippetField(f, ContentField);
    assert FormErrors.Messages(f2.errors, ContentField) == FormErrors.Messages(f1.errors, ContentField);
    assert FormErrors.Messages(r.errors, ContentField) == FormErrors.Messages(f2.errors, ContentField);
  }

  /** The expiry may get "cannot be blank" and then "is invalid"; a value of
      white space only gets both. */
  lemma ValidateSnippetExpires(f: Form)
    ensures var e := Get(f, ExpiresField);
      FormErrors.Messages(ValidateSnippet(f).errors, ExpiresField) == FormErrors.Messages(f.errors, ExpiresField)
        + (if Blank(e) then [BlankMessage] else [])
        + (if e != "" && e !in ExpiryOptions then [InvalidMessage] else [])
  {
    var f1 := Required(f, SnippetFields);
    var f2 := MaxLength(f1, TitleField, MaxTitleLength);
    var r := PermittedValues(f2, ExpiresField, ExpiryOptions);
    assert r == ValidateSnippet(f);
    RequiredSnippetField(f, ExpiresField);
    assert FormErrors.Messages(f2.errors, ExpiresField) == FormErrors.Messages(f1.errors, ExpiresField);
    assert Get(f2, ExpiresField) == Get(f, ExpiresField);
  }

  /** No field outside the three gets a message. */
  lemma ValidateSnippetOthers(f: Form)
    ensures forall g :: g !in SnippetFields ==>
      FormErrors.Messages(ValidateSnippet(f).errors, g) == FormErrors.Messages(f.errors, g)
  {
    forall g | g !in SnippetFields
      ensures FormErrors.Messages(ValidateSnippet(f).errors, g) == FormErrors.Messages(f.errors, g)
    {
      ValidateSnippetOther(f, g);
    }
  }

  lemma ValidateSnippetOther(f: Form, g: string)
    requires g !in SnippetFields
    ensures FormErrors.Messages(ValidateSnippet(f).errors, g) == FormErrors.Messages(f.errors, g)
  {
    var f1 := Required(f, SnippetFields);
    var f2 := MaxLength(f1, TitleField, MaxTitleLength);
    var r := PermittedValues(f2, ExpiresField, ExpiryOptions);
    assert r == ValidateSnippet(f);
    RequiredMessages(f, SnippetFields, g);
    assert FormErrors.Messages(f1.errors, g) == FormErrors.Messages(f.errors, g);
    assert FormErrors.Messages(f2.errors, g) == FormErrors.Messages(f1.errors, g);
  }

  /** The closed form of an acceptable submission: a title that is not all
      white space and has at most 100 code points, content that is not all
      white space, and an expiry of exactly "1", "7" or "365". */
  predicate SnippetAcceptable(v: Values) {
    var t := ValuesGet(v, TitleField);
    var c := ValuesGet(v, ContentField);
    var e := ValuesGet(v, ExpiresField);
    && !AllSpace(t) && |t| <= 100
    && !AllSpace(c)
    && (e == "1" || e == "7" || e == "365")
  }

  /** The title condition of `SnippetAcceptable` is "the title collects no message". */
  lemma TitleCondition(t: string)
    ensures (!AllSpace(t) && |t| <= 100) <==> !Blank(t) && !(t != "" && |t| > MaxTitleLength)
  {
    assert Blank(t) <==> AllSpace(t);
  }

  /** The expiry condition of `SnippetAcceptable` is "the expiry collects no message". */
  lemma ExpiresCondition(e: string)
    ensures (e == "1" || e == "7" || e == "365") ==> !Blank(e) && !(e != "" && e !in ExpiryOptions)
    ensures !Blank(e) && !(e != "" && e !in ExpiryOptions) ==> (e == "1" || e == "7" || e == "365")
  {
    assert Blank(e) <==> AllSpace(e);
    if e == "1" || e == "7" || e == "365" {
      ExpiryOptionNotBlank(e);
    }
  }

  lemma ExpiryOptionNotBlank(e: string)
    requires e == "1" || e == "7" || e == "365"
    ensures !AllSpace(e)
  {
    assert !IsSpace(e[0]);
  }

  /** The validated create form is valid exactly when the submission is
      acceptable in the closed form above. */
  lemma SnippetFormValid(v: Values)
    ensures Valid(ValidateSnippet(New(v))) ==> SnippetAcceptable(v)
    ensures SnippetAcceptable(v) ==> Valid(ValidateSnippet(New(v)))
  {
    ValidOnlyIfAcceptable(v);
    AcceptableIsValid(v);
  }

  lemma ValidOnlyIfAcceptable(v: Values)
    ensures Valid(ValidateSnippet(New(v))) ==> SnippetAcceptable(v)
  {
    var f := New(v);
    var r := ValidateSnippet(f);
    if Valid(r) {
      assert FormErrors.WellFormed(r.errors);
      assert FormErrors.Messages(r.errors, TitleField) == [];
      assert FormErrors.Messages(r.errors, ContentField) == [];
      assert FormErrors.Messages(r.errors, ExpiresField) == [];
      ValidateSnippetTitle(f);
      ValidateSnippetContent(f);
      ValidateSnippetExpires(f);
      TitleCondition(Get(f, TitleField));
      ExpiresCondition(Get(f, ExpiresField));
      assert Blank(Get(f, ContentField)) <==> AllSpace(Get(f, ContentField));
    }
  }

  lemma AcceptableIsValid(v: Values)
    ensures SnippetAcceptable(v) ==> Valid(ValidateSnippet(New(v)))
  {
    if SnippetAcceptable(v) {
      var f := New(v);
      AcceptableFieldsClean(v);
      ValidateSnippetOthers(f);
      NoMessagesIsValid(ValidateSnippet(f), f);
    }
  }

  /** An acceptable submission leaves each of the three fields without messages. */
  lemma AcceptableFieldsClean(v: Values)
    requires SnippetAcceptable(v)
    ensures forall g :: g in SnippetFields ==> FormErrors.Messages(ValidateSnippet(New(v)).errors, g) == []
  {
    AcceptableTitleClean(v);
    AcceptableContentClean(v);
    AcceptableExpiresClean(v);
  }

  lemma AcceptableTitleClean(v: Values)
    requires SnippetAcceptable(v)
    ensures FormErrors.Messages(ValidateSnippet(New(v)).errors, TitleField) == []
  {
    var f := New(v);
    ValidateSnippetTitle(f);
    TitleCondition(Get(f, TitleField));
  }

  lemma AcceptableContentClean(v: Values)
    requires SnippetAcceptable(v)
    ensures FormErrors.Messages(ValidateSnippet(New(v)).errors, ContentField) == []
  {
    var f := New(v);
    ValidateSnippetContent(f);
    assert Blank(Get(f, ContentField)) <==> AllSpace(Get(f, ContentField));
  }

  lemma AcceptableExpiresClean(v: Values)
    requires SnippetAcceptable(v)
    ensures FormErrors.Messages(ValidateSnippet(New(v)).errors, ExpiresField) == []
  {
    var f := New(v);
    ValidateSnippetExpires(f);
    ExpiresCondition(Get(f, ExpiresField));
  }

  /** The message a title longer than 100 code points receives. */
  lemma TitleTooLongText()
    ensures TooLongMessage(MaxTitleLength) == "This field is too long (maximum is 100 characters)"
  {
  }

  lemma NoMessagesIsValid(r: Form, f: Form)
    requires FormErrors.WellFormed(r.errors)
    requires forall g :: FormErrors.Messages(f.errors, g) == []
    requires forall g :: g in SnippetFields ==> FormErrors.Messages(r.errors, g) == []
    requires forall g :: g !in SnippetFields ==> FormErrors.Messages(r.errors, g) == FormErrors.Messages(f.errors, g)
    ensures Valid(r)
  {
    forall g ensures FormErrors.Messages(r.errors, g) == [] {
      if g !in SnippetFields {
        assert FormErrors.Messages(f.errors, g) == [];
      }
    }
  }

  /** `createSnippet`, starting from the parsed form values: an invalid
      submission re-renders the create page with the form (values and
      errors) and never touches storage; a valid one inserts the snippet
      once and redirects with 303 to its page, or answers 500 when the
      insert fails. */
  function CreateSnippet(postForm: Values, insert: (string, string, string) -> Result<int, StoreError>)
    : (res: HandlerResult)
    ensures var form := ValidateSnippet(New(postForm));
      !SnippetAcceptable(postForm) ==>
        && res.calls == []
        && res.response == Render(CreatePage, Helpers.EmptyTemplateData.(form := Some(form)))
        && form.values == postForm
    ensures var t, c, e := ValuesGet(postForm, TitleField), ValuesGet(postForm, ContentField), ValuesGet(postForm, ExpiresField);
      SnippetAcceptable(postForm) ==>
        && res.calls == [InsertSnippet(t, c, e)]
        && (insert(t, c, e).Success? ==>
              res.response == Direct(RedirectReply(303, "/snippet/" + IntToString(insert(t, c, e).value))))
        && (insert(t, c, e).Failure? ==> res.response == Direct(ErrorReply(500, "Internal Server Error")))
  {
    var form := ValidateSnippet(New(postForm));
    SnippetFormValid(postForm);
    if !Valid(form) then
      HandlerResult(Render(CreatePage, Helpers.EmptyTemplateData.(form := Some(form))), [])
    else
      var t, c, e := Get(form, TitleField), Get(form, ContentField), Get(form, ExpiresField);
      var calls := [InsertSnippet(t, c, e)];
      match insert(t, c, e)
      case Failure(err) => HandlerResult(Direct(Helpers.ServerError(err)), calls)
      case Success(id) =>
        HandlerResult(Direct(RedirectReply(StatusSeeOther, "/snippet/" + IntToString(id))), calls)
  }

  /** The page a successful create redirects to names the new snippet: when
      the router hands its last segment to `showSnippet`, the snippet looked
      up is the one just inserted. */
  lemma CreateThenShow(postForm: Values, insert: (string, string, string) -> Result<int, StoreError>,
                       snippets: int -> Result<Snippet, StoreError>, id: int)
    requires SnippetAcceptable(postForm)
    requires insert(ValuesGet(postForm, TitleField), ValuesGet(postForm, ContentField),
                    ValuesGet(postForm, ExpiresField)) == Success(id)
    requires 1 <= id <= MaxInt
    ensures CreateSnippet(postForm, insert).response == Direct(RedirectReply(303, "/snippet/" + IntToString(id)))
    ensures ShowSnippet(map[IdParam := [IntToString(id)]], snippets).calls == [GetSnippet(id)]
  {
    AtoiIntToString(id);
  }
}
