# Snippetbox request decisions in Dafny

This project models the decision logic at the core of snippetbox, a small Go
web application for posting short text snippets. It covers three pieces.

- **The form validation engine** (`pkg/forms`). A form is the submitted values
  (field name to list of values) plus an error map (field name to list of
  messages). Each rule reads the first value of one field and either appends
  one message to that field or does nothing. `Valid` holds when the error map
  is empty.
- **The authentication middleware** (`cmd/web/middleware.go`) and the response
  helpers in `cmd/web/helpers.go`. Each middleware is a pure function from the
  request (context and session), the response headers written so far and the
  user lookup's answer to a `Step`. A step records one of three outcomes: the
  next handler is called exactly once with a given request, the middleware
  answers itself, or the code crashes. It also records the headers left
  behind and the storage calls made.
- **The snippet handlers** (`cmd/web/handlers.go`). `showSnippet`,
  `createSnippetForm` and `createSnippet` are functions from the parsed query
  or form values and the storage collaborator's answers to a direct reply or a
  page to render, together with the storage calls they made.

Modelling choices:

- Strings are sequences of code points, so `utf8.RuneCountInString(s)` is `|s|`.
- `strings.TrimSpace` is written out over Go's `unicode.IsSpace` table.
  `strconv.Atoi` and `%d` are written out for Go's 64-bit `int`.
- Storage is a function parameter: `int -> UserLookup` for users,
  `int -> Result<Snippet, StoreError>` for snippet lookups, and a three-argument
  function for inserts. Every result lists the calls made, so "no lookup" and
  "never inserts" can be stated.
- The regular expression of `MatchesPattern` is a parameter `string -> bool`.
- In `authenticate`, the lookup can return a nil user with an error other than
  "no record" (or with no error at all). The Go code then reads `user.Active`
  through a nil pointer. This is modelled as the explicit outcome `Panic`, not
  excluded by a precondition.
- The route table (cmd/web/routes.go) puts neither `authenticate` nor `NoSurf`
  in any chain, and it registers no `/ping` route, although the test at
  cmd/web/handlers_test.go:23 requests one. The model follows the code and
  states no end-to-end authentication property.
- The shown `templateData` and `application` types lack fields the handlers
  use, so that code does not compile as shown. The model gives
  `TemplateData` the fields the handlers and `addDefaultData` use.

Modules: `Wrappers` (Option, Result), `Text`, `FormErrors`, `Forms`, `Models`,
`Http`, `Helpers`, `Middleware`, `Handlers`. Each is in its own `.dfy` file.

## Model

| member | source | states |
|---|---|---|
| `Text.TrimSpace` | pkg/forms/form.go:35 | trimming white space leaves "" exactly when every code point is white space |
| `Text.IsSpaceAscii` | pkg/forms/form.go:35 | the white space `strings.TrimSpace` removes: within ASCII exactly tab, line feed, vertical tab, form feed, carriage return and space; NEL, no-break space and the ideographic space count; the zero-width space and the byte order mark do not |
| `Text.Atoi` | cmd/web/handlers.go:26 | a value is returned exactly when the text is an optional sign followed by decimal digits and the number fits a 64-bit int, and the value is that number |
| `Text.IntToString` | cmd/web/handlers.go:80 | `%d` output is non-empty, starts with '-' exactly for negatives, and is otherwise all digits, with no leading zero: 0 prints as exactly "0", no other number's output starts with '0', and a minus sign is never followed by '0' |
| `Text.AtoiIntToString` | cmd/web/handlers.go:80 | every int printed with `%d` is parsed back by `Atoi` to the same int |
| `Text.IntToStringInjective` | cmd/web/handlers.go:80 | two ints print the same under `%d` exactly when they are equal |
| `FormErrors.Add` | pkg/forms/errors.go:8-10 | the message is appended after the field's earlier messages; a field with no entry gets the list `[m]`; every other field keeps its list; the map then has the field as a key; non-empty lists stay non-empty |
| `FormErrors.Get` | pkg/forms/errors.go:13-20 | "" when the field has no messages, otherwise its first message |
| `FormErrors.GetStableUnderAdd` | pkg/forms/errors.go:13-20 | once a field has a message, no later `Add` to any field changes its `Get` |
| `FormErrors.GetAfterFirstAdd` | pkg/forms/errors.go:8-20 | the first message added to a field is what `Get` then returns |
| `FormErrors.EmptyIffNoMessages` | pkg/forms/form.go:96-98 | on error maps built by `Add`, having no keys is the same as no field having a message |
| `Forms.ValuesGet` | pkg/forms/form.go:34 | the value a rule reads is the first submitted value, or "" when the key is absent or its list is empty |
| `Forms.New` | pkg/forms/form.go:23-28 | a new form keeps the data unchanged, has no messages on any field, and is valid |
| `Forms.Valid` | pkg/forms/form.go:96-98 | on well-formed error maps, the form is valid exactly when no field has any message |
| `Forms.Required` | pkg/forms/form.go:32-39 | values unchanged; each field gets one "cannot be blank" per time it is listed if its value trims to "", and nothing otherwise |
| `Forms.MaxLength` | pkg/forms/form.go:43-52 | only the field's errors change; an empty value is skipped; otherwise a "too long" message naming the bound is appended exactly when the value has more than d code points |
| `Forms.MinLength` | pkg/forms/form.go:73-81 | only the field's errors change; an empty value is skipped; otherwise a "too short" message naming the bound is appended exactly when the value has fewer than d code points |
| `Forms.LengthMessagesNameBound` | pkg/forms/form.go:50-79 | the messages `TooLongMessage` and `TooShortMessage` (`MaxLength` and `MinLength`) carry their bound, printed with `%d`: two messages of one kind are equal exactly when their bounds are, and no "too long" message equals a "too short" one |
| `Forms.AnyEqual` | pkg/forms/form.go:62-66 | the scan over the options finds a match exactly when the value is one of them |
| `Forms.PermittedValues` | pkg/forms/form.go:56-69 | only the field's errors change; an empty value is skipped; otherwise "This field is invalid" is appended exactly when the untrimmed value equals none of the options |
| `Forms.MatchesPattern` | pkg/forms/form.go:85-93 | only the field's errors change; an empty value is skipped; otherwise "This field is invalid" is appended exactly when the pattern does not match |
| `Forms.AppendedValid` | pkg/forms/form.go:96-98 | after a rule on a well-formed form, the form is valid exactly when it was valid before and the rule appended nothing |
| `Forms.RequiredValid` | pkg/forms/form.go:32-39 | after `Required`, a well-formed form is valid exactly when it was valid and no listed field is blank |
| `Forms.RequiredStep` | pkg/forms/form.go:33-38 | checking one listed field adds its blank message exactly when its value is blank, so the messages still owed by the rest of the list add up to those owed by the whole list |
| `Forms.MaxLengthBoundary` | pkg/forms/form.go:49 | a value of exactly d code points passes `MaxLength(d)`; one of d+1 code points gets the "too long" message |
| `Forms.MinMaxExclusive` | pkg/forms/form.go:43-81 | with lo <= hi, `MinLength(lo)` and `MaxLength(hi)` never both reject a value |
| `Http.HeaderSet` | cmd/web/middleware.go:17-18 | the header then has exactly the one given value; other headers are untouched |
| `Http.HeaderAdd` | cmd/web/middleware.go:62 | the value is appended after the header's existing values; other headers are untouched |
| `Http.SessionPopString` | cmd/web/helpers.go:71 | the string stored under the key is returned ("" if absent or not a string), and the key is removed from the session |
| `Helpers.ServerError` | cmd/web/helpers.go:14-21 | the reply is always 500 with "Internal Server Error", whatever the error says |
| `Http.StatusTexts` | cmd/web/helpers.go:20-24 | `http.StatusText` gives "See Other", "Bad Request", "Not Found" and "Internal Server Error" for the codes the application sends |
| `Http.UnknownStatusText` | cmd/web/helpers.go:18-20 | a code below 100 or from 600 up has the empty reason phrase |
| `Helpers.ClientError` | cmd/web/helpers.go:23-25 | the reply has the given status and its standard text |
| `Helpers.NotFound` | cmd/web/helpers.go:27-29 | `notFound` is `clientError(404)`, the reply 404 "Not Found" |
| `Helpers.IsAuthenticated` | cmd/web/helpers.go:80-87 | true exactly when the context holds the boolean true under the key; false when it holds nothing or a non-boolean |
| `Helpers.AddDefaultData` | cmd/web/helpers.go:59-77 | a nil record is replaced by a fresh zero record; the form and snippet fields are kept; the auth flag is `isAuthenticated(r)`; the flash message is popped from the session |
| `Helpers.FlashShownOnce` | cmd/web/helpers.go:69-71 | the flash message is popped: a second render from the session the first one left carries no flash, and every other session entry survives |
| `Middleware.SecureHeaders` | cmd/web/middleware.go:15-21 | leaves exactly one value for each security header, `X-XSS-Protection: 1; mode=block` and `X-Frame-Options: deny`, replacing any earlier values, leaves other headers alone, and always calls next with the same request |
| `Middleware.RequireAuthentication` | cmd/web/middleware.go:51-66 | unauthenticated: a 303 redirect to /user/login, next not called, headers unchanged; authenticated: `Cache-Control: no-store` added and next called with the same request |
| `Middleware.Authenticate` | cmd/web/middleware.go:84-111 | no user id in the session: no lookup and the request passes unchanged. Otherwise one lookup. "No record" or an inactive user removes the id and passes on. A nil user without "no record" crashes. An active user with another error gets the `serverError` reply (500) and next is not called. An active user without error passes on with the auth flag set and the session untouched |
| `Http.SessionGetInt` | cmd/web/middleware.go:97 | the integer stored under the key is returned; a non-zero result means the key holds exactly that integer (0 for an absent or non-integer entry) |
| `Http.WithAuthenticated` | cmd/web/middleware.go:109 | the new context holds boolean true under the authentication key |
| `Helpers.AuthenticatedAfterWith` | cmd/web/middleware.go:109 | the flag `authenticate` stores is read back as authenticated by `isAuthenticated`, and an empty context is not authenticated |
| `Middleware.InactiveBeatsLookupError` | cmd/web/middleware.go:98-105 | an inactive user reported together with a hard error is a soft failure, not a 500, because the soft test comes first |
| `Middleware.KeptKeyMeansAuthenticated` | cmd/web/middleware.go:97-110 | if `authenticate` passes on a request that still names a user, that user was found, is active, and the request is marked authenticated |
| `Middleware.AuthenticateIdempotent` | cmd/web/middleware.go:84-111 | running `authenticate` again on the request it passed on, with the same storage answers, passes that request on unchanged |
| `Middleware.RequireAuthenticationKeepsSecureHeaders` | cmd/web/middleware.go:15-66 | behind `secureHeaders`, both security headers survive `requireAuthentication` on either of its paths |
| `Middleware.AuthenticateNilUserPanics` | cmd/web/middleware.go:98 | a lookup returning a nil user with any error other than "no record", or with no error at all, makes `authenticate` crash |
| `Middleware.AuthenticateGuarded` | cmd/web/middleware.go:97-105 | with the error tested first, the step never crashes, answers 500 exactly on a non-"no record" error, and authenticates exactly an active user reported with no error; every other lookup, "no record" included, drops the session key and passes on |
| `Middleware.GuardedAgrees` | cmd/web/middleware.go:97-110 | on lookups that return a user exactly when there is no error, the guarded step equals `authenticate` wherever that does not crash, and answers 500 where it does |
| `Handlers.ShowSnippet` | cmd/web/handlers.go:23-44 | an id that does not parse or is below 1 gives 404 with no lookup. Otherwise the snippet is fetched once: "no record" gives 404, any other error 500, and a found snippet renders the show page |
| `Handlers.CreateSnippetForm` | cmd/web/handlers.go:46-51 | renders the create page with a form built from no values, which is valid and carries no messages |
| `Handlers.ValidateSnippet` | cmd/web/handlers.go:63-65 | the create rules keep the submitted values and keep the error map well formed |
| `Handlers.ValidateSnippetTitle` | cmd/web/handlers.go:63-64 | the title gets "cannot be blank" if it trims to "", then "too long (maximum is 100 characters)" if it is non-empty with more than 100 code points |
| `Handlers.ValidateSnippetContent` | cmd/web/handlers.go:63 | the content gets exactly one "cannot be blank" if it trims to "", and nothing otherwise |
| `Handlers.ValidateSnippetExpires` | cmd/web/handlers.go:63-65 | the expiry gets "cannot be blank" if it trims to "", then "is invalid" if it is non-empty and not one of "365", "7", "1" |
| `Handlers.ValidateSnippetOthers` | cmd/web/handlers.go:63-65 | no field other than title, content and expires gets a message |
| `Handlers.SnippetFormValid` | cmd/web/handlers.go:63-68 | the create form is valid exactly when the title is not all white space and has at most 100 code points, the content is not all white space, and the expiry is exactly "1", "7" or "365" |
| `Handlers.CreateSnippet` | cmd/web/handlers.go:53-81 | an unacceptable submission re-renders the create page with the same form, values and errors, and makes no storage call. An acceptable one calls `Insert(title, content, expires)` once, then redirects 303 to `/snippet/<id>`, or answers 500 if the insert fails |
| `Handlers.CreateThenShow` | cmd/web/handlers.go:73-80 | the redirect after a successful create names the new id, and `showSnippet` given that path segment looks up exactly that id |
| `Handlers.TitleTooLongText` | pkg/forms/form.go:50 | a title over the limit receives exactly "This field is too long (maximum is 100 characters)" |

## Findings

| source | as written | input that shows it | evidently intended | confidence | as-written member | corrected member |
|---|---|---|---|---|---|---|
| cmd/web/middleware.go:98 | `errors.Is(err, ErrNoRecord) \|\| !user.Active` reads `user.Active` before any `err != nil` test | the session holds `authenticatedUserID` and the lookup returns a nil user with a non-"no record" error (the usual Go way of reporting a database failure) | answer 500, as the following `else if err != nil` branch shows | not executed; high | `Middleware.AuthenticateNilUserPanics` | `Middleware.AuthenticateGuarded` |

`UserModel.Get` in pkg/models/mysql/users.go:49-51 is a stub that returns a nil
user and a nil error. Through that stub, the as-written `authenticate` would
crash on every request whose session names a user. `AuthenticateGuarded`
treats a nil user without an error as a missing record.

## Left out

- Routing (cmd/web/routes.go): pattern matching and first-match order live in the external `pat` router, and chain composition lives in `alice`. The application supplies only the route table.
- `recoverPanic`, `logRequest` and `NoSurf`: Go's panic recovery, logging I/O and an external CSRF library.
- `render` and the template cache (cmd/web/helpers.go:31-55, cmd/web/templates.go): template execution and file globbing. A handler's result names the page and the data passed to `render`. `render` also lacks a `return` after reporting a missing template (cmd/web/helpers.go:35-37); that path is not modelled.
- `humanDate`: time formatting. Its layout string is not Go's reference layout.
- The `home` handler and the signup, login and logout handlers. `home` answers 500 through `serverError` when fetching the latest snippets fails, and otherwise forwards the snippets to `render`. The other handlers are not among the source files.
- Storage (pkg/models/mysql): SQL and bcrypt. Stores are function parameters. `errors.Is` is modelled as equality with `ErrNoRecord`, so wrapped errors are not modelled.
- `main.go`: flags, TLS, the listener and timeouts. The session lifetime and cookies are left out too.
- The `ParseForm` failure in `createSnippet` (cmd/web/handlers.go:55-58): it writes 400 but does not return. `CreateSnippet` starts from already-parsed values.
- `Forms.MatchesPattern`: the regular expression engine and `EmailRX` are not modelled. The pattern is a parameter.
- `Text.TrimSpace`: works on code points. Go's handling of invalid UTF-8 bytes is not modelled. The contract states only when the result is empty, which is the only use the forms engine makes of it; the trimmed text itself is not specified.
- `Forms.Valid`: relates validity to the absence of messages only for well-formed error maps, that is, maps where every listed field holds at least one message. `New` and every rule keep the map well formed, so every form the application builds is covered.
- `Http.HeaderSet` and `Http.HeaderAdd`: header names are stored as given. Go's canonicalisation of header names (`X-Xss-Protection`) is not modelled. Every lookup in the model uses the same spelling as the writer.
- `Helpers.ServerError`: the log entry with the stack trace is not modelled. Nor are the `Content-Type` and `X-Content-Type-Options` headers that `http.Error` writes. The same holds for the 500 reply of `Middleware.Authenticate`, whose contract keeps the headers unchanged.
- `Helpers.ClientError`: the headers `http.Error` adds and the trailing newline of its body are not modelled. The reply carries the status and the text.
- `Middleware.RequireAuthentication`: the `Location` header and the short HTML body `http.Redirect` writes are not modelled. The reply carries the status and the target path.
- `Helpers.AddDefaultData`: the CSRF token and the current year come from an external library and the clock, so they are parameters.
- `Http.SessionGetInt`: assumes the session library's `GetInt` returns 0 for an absent or non-integer value.
- The request context is reduced to the authentication entry. Other context values are not modelled.
