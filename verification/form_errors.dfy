/** The per-field error messages a form accumulates while it is validated:
    a map from field name to the messages added for it, in order. */
module FormErrors {

  type Errors = map<string, seq<string>>

  /** The messages recorded for `field`; a field without an entry has none
      (Go reads a missing map key as the nil slice). */
  function Messages(e: Errors, field: string): seq<string> {
    if field in e then e[field] else []
  }

  /** Every entry holds at least one message. `Add` is the only writer, so
      every error map the validator builds has this shape. */
  predicate WellFormed(e: Errors) {
    forall f :: f in e ==> |e[f]| > 0
  }

  /** No field has an entry. */
  predicate IsEmpty(e: Errors) {
    |e| == 0
  }

  /** `errors.Add`: append `message` to the messages of `field`. */
  function Add(e: Errors, field: string, message: string): (r: Errors)
    ensures Messages(r, field) == Messages(e, field) + [message]
    ensures forall f :: f != field ==> Messages(r, f) == Messages(e, f)
    ensures r.Keys == e.Keys + {field}
    ensures WellFormed(e) ==> WellFormed(r)
  {
    e[field := Messages(e, field) + [message]]
  }

  /** `errors.Get`: the first message recorded for `field`, or "" if there is none. */
  function Get(e: Errors, field: string): (r: string)
    ensures Messages(e, field) == [] ==> r == ""
    ensures Messages(e, field) != [] ==> r == Messages(e, field)[0]
  {
    var es := Messages(e, field);
    if |es| == 0 then "" else es[0]
  }

  /** Once a field has a message, adding further messages (to it or to any
      other field) never changes what `Get` reports for it. */
  lemma GetStableUnderAdd(e: Errors, field: string, other: string, message: string)
    requires Messages(e, field) != []
    ensures Get(Add(e, other, message), field) == Get(e, field)
  {
  }

  /** The first message added to a field is the one `Get` reports. */
  lemma GetAfterFirstAdd(e: Errors, field: string, message: string)
    requires Messages(e, field) == []
    ensures Get(Add(e, field, message), field) == message
  {
  }

  /** In a well-formed error map, "no entries" and "no field has a message"
      are the same thing. */
  lemma EmptyIffNoMessages(e: Errors)
    requires WellFormed(e)
    ensures IsEmpty(e) <==> forall f :: Messages(e, f) == []
  {
    if !IsEmpty(e) {
      var f :| f in e;
      assert Messages(e, f) != [];
    }
  }
}
