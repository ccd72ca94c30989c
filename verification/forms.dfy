/** The form validation engine: a form holds the submitted values (field name
    to the list of values posted for it) and the error messages the rules
    have accumulated. Each rule reads the first value of one field and either
    appends one message to that field's errors or leaves the form alone;
    submitted values are never changed and errors never shrink. */
module Forms {
  import opened Text
  import FormErrors

  /** Go's `url.Values`: the values submitted under each field name. */
  type Values = map<string, seq<string>>

  /** `url.Values.Get`: the first value submitted for `key`, or "" when the
      key is absent or has no values. */
  function ValuesGet(v: Values, key: string): (r: string)
    ensures key !in v || v[key] == [] ==> r == ""
    ensures key in v && v[key] != [] ==> r == v[key][0]
  {
    if key in v && |v[key]| > 0 then v[key][0] else ""
  }

  datatype Form = Form(values: Values, errors: FormErrors.Errors)

  const BlankMessage: string := "This field cannot be blank"
  const InvalidMessage: string := "This field is invalid"

  /** The message of `MaxLength` for the bound `d`, printed with `%d`. */
  function TooLongMessage(d: int): string {
    "This field is too long (maximum is " + IntToString(d) + " characters)"
  }

  /** The message of `MinLength` for the bound `d`, printed with `%d`. */
  function TooShortMessage(d: int): string {
    "This field is too short (minimum is " + IntToString(d) + " characters)"
  }

  /** Each length message names its bound: two messages of the same kind are
      equal exactly when their bounds are, and a "too long" message is never
      a "too short" one. */
  lemma {:induction false} LengthMessagesNameBound(a: int, b: int)
    ensures TooLongMessage(a) == TooLongMessage(b) <==> a == b
    ensures TooShortMessage(a) == TooShortMessage(b) <==> a == b
    ensures TooLongMessage(a) != TooShortMessage(b)
  {
    FramedInjective("This field is too long (maximum is ", IntToString(a), IntToString(b), " characters)");
    FramedInjective("This field is too short (minimum is ", IntToString(a), IntToString(b), " characters)");
    IntToStringInjective(a, b);
    assert TooLongMessage(a)[18] != TooShortMessage(b)[18];
  }

  /** Text between a fixed prefix and a fixed suffix is determined by the whole. */
  lemma FramedInjective(p: string, x: string, y: string, q: string)
    ensures p + x + q == p + y + q ==> x == y
  {
    if p + x + q == p + y + q {
      assert x == (p + x + q)[|p|..|p| + |x|];
      assert y == (p + y + q)[|p|..|p| + |y|];
    }
  }

  /** The value a rule inspects: the first value submitted for `field`. */
  function Get(f: Form, field: string): string {
    ValuesGet(f.values, field)
  }

  /** `r` is `f` with the messages `added` appended to the errors of `field`
      and nothing else changed: same values, same errors for every other field. */
  ghost predicate Appended(f: Form, r: Form, field: string, added: seq<string>) {
    && r.values == f.values
    && FormErrors.Messages(r.errors, field) == FormErrors.Messages(f.errors, field) + added
    && (forall g :: g != field ==> FormErrors.Messages(r.errors, g) == FormErrors.Messages(f.errors, g))
    && (FormErrors.WellFormed(f.errors) ==> FormErrors.WellFormed(r.errors))
  }

  /** Add `message` to `field` when `failed`, otherwise leave the form alone. */
  function Check(f: Form, field: string, failed: bool, message: string): (r: Form)
    ensures Appended(f, r, field, if failed then [message] else [])
  {
    if failed then f.(errors := FormErrors.Add(f.errors, field, message)) else f
  }

  /** `forms.New`: the submitted values, with no errors yet. */
  function New(data: Values): (f: Form)
    ensures f.values == data
    ensures forall g :: FormErrors.Messages(f.errors, g) == []
    ensures FormErrors.WellFormed(f.errors) && Valid(f)
  {
    Form(data, map[])
  }

  /** `Form.Valid`: no field has an error entry. On the well-formed error maps
      the rules build this means no field has any message. */
  function Valid(f: Form): (r: bool)
    ensures FormErrors.WellFormed(f.errors) ==> (r <==> forall g :: FormErrors.Messages(f.errors, g) == [])
  {
    assert FormErrors.WellFormed(f.errors) ==>
      (FormErrors.IsEmpty(f.errors) <==> forall g :: FormErrors.Messages(f.errors, g) == [])
    by {
      if FormErrors.WellFormed(f.errors) {
        FormErrors.EmptyIffNoMessages(f.errors);
      }
    }
    FormErrors.IsEmpty(f.errors)
  }

  // ---------------------------------------------------------------------
  // Rules

  /** How many times `x` occurs in `xs`. */
  function Count(xs: seq<string>, x: string): (n: nat)
    ensures n == 0 <==> x !in xs
  {
    if |xs| == 0 then 0 else (if xs[0] == x then 1 else 0) + Count(xs[1..], x)
  }

  /** `k` copies of `m`. */
  function Repeat(m: string, k: nat): (r: seq<string>)
    ensures |r| == k
    ensures forall i :: 0 <= i < k ==> r[i] == m
  {
    if k == 0 then [] else [m] + Repeat(m, k - 1)
  }

  /** `Form.Required(fields...)`: every listed field whose value is empty or
      white space only gets one "cannot be blank" message per time it is
      listed; unlisted fields and non-blank fields are untouched. */
  function Required(f: Form, fields: seq<string>): (r: Form)
    ensures r.values == f.values
    ensures forall g ::
      FormErrors.Messages(r.errors, g)
      == FormErrors.Messages(f.errors, g) + Repeat(BlankMessage, if Blank(Get(f, g)) then Count(fields, g) else 0)
    ensures FormErrors.WellFormed(f.errors) ==> FormErrors.WellFormed(r.errors)
    decreases |fields|
  {
    if |fields| == 0 then f
    else
      var field := fields[0];
      var f1 := Check(f, field, Blank(Get(f, field)), BlankMessage);
      assert forall g :: Get(f1, g) == Get(f, g);
      var r := Required(f1, fields[1..]);
      assert forall g ::
        FormErrors.Messages(r.errors, g)
        == FormErrors.Messages(f.errors, g) + Repeat(BlankMessage, if Blank(Get(f, g)) then Count(fields, g) else 0)
      by {
        forall g
          ensures FormErrors.Messages(r.errors, g)
            == FormErrors.Messages(f.errors, g) + Repeat(BlankMessage, if Blank(Get(f, g)) then Count(fields, g) else 0)
        {
          RequiredStep(f, fields, g);
        }
      }
      r
  }

  /** After checking the head of `fields`, the messages still owed to `g` by
      the tail add up to those owed by the whole list. */
  ghost predicate BlankCheckShifted(f: Form, f1: Form, fields: seq<string>, g: string)
    requires |fields| > 0
  {
    FormErrors.Messages(f1.errors, g)
      + Repeat(BlankMessage, if Blank(Get(f, g)) then Count(fields[1..], g) else 0)
    == FormErrors.Messages(f.errors, g)
      + Repeat(BlankMessage, if Blank(Get(f, g)) then Count(fields, g) else 0)
  }

  /** One step of `Required`: checking the head field settles its share of
      the blank messages. */
  lemma RequiredStep(f: Form, fields: seq<string>, g: string)
    requires |fields| > 0
    ensures BlankCheckShifted(f, Check(f, fields[0], Blank(Get(f, fields[0])), BlankMessage), fields, g)
  {
  }

  /** `Form.MaxLength`: an empty value is skipped; otherwise the field is
      rejected exactly when it has more than `d` code points. */
  function MaxLength(f: Form, field: string, d: int): (r: Form)
    ensures Appended(f, r, field,
      if Get(f, field) != "" && |Get(f, field)| > d then [TooLongMessage(d)] else [])
  {
    var value := Get(f, field);
    if value == "" then f
    else Check(f, field, |value| > d, TooLongMessage(d))
  }

  /** `Form.MinLength`: an empty value is skipped; otherwise the field is
      rejected exactly when it has fewer than `d` code points. */
  function MinLength(f: Form, field: string, d: int): (r: Form)
    ensures Appended(f, r, field,
      if Get(f, field) != "" && |Get(f, field)| < d then [TooShortMessage(d)] else [])
  {
    var value := Get(f, field);
    if value == "" then f
    else Check(f, field, |value| < d, TooShortMessage(d))
  }

  /** The scan `PermittedValues` makes over its options: true as soon as one
      option equals `value` exactly. */
  function AnyEqual(value: string, opts: seq<string>): (found: bool)
    ensures found <==> value in opts
  {
    if |opts| == 0 then false
    else if value == opts[0] then true
    else AnyEqual(value, opts[1..])
  }

  /** `Form.PermittedValues`: an empty value is skipped; otherwise the field is
      rejected exactly when its value, untrimmed, equals none of `opts`. */
  function PermittedValues(f: Form, field: string, opts: seq<string>): (r: Form)
    ensures Appended(f, r, field,
      if Get(f, field) != "" && Get(f, field) !in opts then [InvalidMessage] else [])
  {
    var value := Get(f, field);
    if value == "" then f
    else Check(f, field, !AnyEqual(value, opts), InvalidMessage)
  }

  /** `Form.MatchesPattern`: an empty value is skipped; otherwise the field is
      rejected exactly when the pattern does not match. The regular
      expression engine is the parameter `matches`. */
  function MatchesPattern(f: Form, field: string, matches: string -> bool): (r: Form)
    ensures Appended(f, r, field,
      if Get(f, field) != "" && !matches(Get(f, field)) then [InvalidMessage] else [])
  {
    var value := Get(f, field);
    if value == "" then f
    else Check(f, field, !matches(value), InvalidMessage)
  }

  // ---------------------------------------------------------------------
  // Properties

  /** A rule that appends to one field keeps a well-formed form valid exactly
      when it was valid before and the rule appended nothing. */
  lemma {:induction false} AppendedValid(f: Form, r: Form, field: string, added: seq<string>)
    requires FormErrors.WellFormed(f.errors)
    requires Appended(f, r, field, added)
    ensures Valid(r) <==> Valid(f) && added == []
  {
  }

  /** `Required` keeps a well-formed form valid exactly when it was valid and
      no listed field is blank. */
  lemma RequiredValid(f: Form, fields: seq<string>)
    requires FormErrors.WellFormed(f.errors)
    ensures Valid(Required(f, fields)) ==> Valid(f) && NoneBlank(f, fields)
    ensures Valid(f) && NoneBlank(f, fields) ==> Valid(Required(f, fields))
  {
  }

  /** No field listed in `fields` is blank in `f`. */
  ghost predicate NoneBlank(f: Form, fields: seq<string>) {
    forall g :: g in fields ==> !Blank(Get(f, g))
  }

  /** The messages `Required` leaves on one field, restated for that field alone. */
  lemma RequiredMessages(f: Form, fields: seq<string>, g: string)
    ensures var k := if Blank(Get(f, g)) then Count(fields, g) else 0;
      && FormErrors.Messages(Required(f, fields).errors, g) == FormErrors.Messages(f.errors, g) + Repeat(BlankMessage, k)
      && (k == 0 <==> !(g in fields && Blank(Get(f, g))))
  {
  }

  /** Exactly `d` code points passes `MaxLength(field, d)`; one more fails. */
  lemma MaxLengthBoundary(f: Form, field: string, d: int)
    requires Get(f, field) != ""
    ensures |Get(f, field)| == d ==> MaxLength(f, field, d) == f
    ensures |Get(f, field)| == d + 1 ==>
      FormErrors.Messages(MaxLength(f, field, d).errors, field)
        == FormErrors.Messages(f.errors, field) + [TooLongMessage(d)]
  {
  }

  /** With `lo <= hi`, `MinLength(lo)` and `MaxLength(hi)` never both reject
      the same value. */
  lemma MinMaxExclusive(f: Form, field: string, lo: int, hi: int)
    requires lo <= hi
    ensures MinLength(f, field, lo) == f || MaxLength(f, field, hi) == f
  {
  }
}
