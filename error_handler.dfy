/**
 * The last middleware of the application: it turns an error passed on by a
 * route into a reply. A duplicate-key error from the store comes first, then
 * a schema validation error, then a malformed id; anything else is answered
 * 500 with no detail.
 */
module ErrorHandler {
  import opened Wrappers

  /** One failing field of a validation error. */
  datatype FieldError = FieldError(message: string)

  /**
   * The parts of an error the handler looks at: the numeric `code` (if any),
   * the `name`, the keys of `keyPattern` in their order, and the failing
   * fields of a validation error.
   */
  datatype Error = Error(
    code: Option<int>,
    name: string,
    keyPattern: seq<string>,
    errors: map<string, FieldError>)

  /** The `data` part of the reply. */
  datatype Data =
    | DuplicateField(field: Option<string>)   // `{ field }`; None when the key is undefined
    | FieldMessages(messages: map<string, string>)
    | ErrorText(error: string)                 // `{ error }`
    | NoData                                   // `{}`

  datatype ErrorReply = ErrorReply(status: nat, message: string, data: Data)

  /** The four kinds of error the handler tells apart. */
  datatype Kind = DuplicateKey | Validation | Cast | Internal

  const DuplicateKeyCode := 11000

  /** The first test that fires decides the kind. */
  function Classify(err: Error): (k: Kind)
    ensures k == DuplicateKey <==> err.code == Some(DuplicateKeyCode)
    ensures k == Validation <==> err.code != Some(DuplicateKeyCode) && err.name == "ValidationError"
    ensures k == Cast <==> err.code != Some(DuplicateKeyCode) && err.name == "CastError"
  {
    if err.code == Some(DuplicateKeyCode) then DuplicateKey
    else if err.name == "ValidationError" then Validation
    else if err.name == "CastError" then Cast
    else Internal
  }

  /** `Object.keys(err.keyPattern)[0]`: the first key, or undefined when there is none. */
  function FirstKey(keyPattern: seq<string>): (field: Option<string>)
    ensures field.None? <==> keyPattern == []
    ensures field.Some? ==> field.value == keyPattern[0] && field.value in keyPattern
  {
    if keyPattern == [] then None else Some(keyPattern[0])
  }

  /** The text string concatenation gives for the key: "undefined" when there is none. */
  function KeyText(field: Option<string>): string {
    if field.Some? then field.value else "undefined"
  }

  /** The message of every failing field, under the field's name. */
  function Messages(errors: map<string, FieldError>): (m: map<string, string>)
    ensures m.Keys == errors.Keys
    ensures forall f :: f in m ==> m[f] == errors[f].message
  {
    map f | f in errors :: errors[f].message
  }

  /** The reply for an error, by kind. */
  function Response(err: Error): (r: ErrorReply)
    ensures r.status == 400 <==> Classify(err) != Internal
    ensures r.status == 500 <==> Classify(err) == Internal
  {
    match Classify(err)
    case DuplicateKey =>
      var field := FirstKey(err.keyPattern);
      ErrorReply(400, "Duplicate entry: " + KeyText(field) + " already exists", DuplicateField(field))
    case Validation => ErrorReply(400, "Validation error", FieldMessages(Messages(err.errors)))
    case Cast => ErrorReply(400, "Invalid ID format", ErrorText("The provided ID is not valid"))
    case Internal => ErrorReply(500, "Internal server error", NoData)
  }

  /** The `for…in` loop of the validation branch: copy each field's message. */
  method CollectMessages(errors: map<string, FieldError>) returns (out: map<string, string>)
    ensures out == Messages(errors)
  {
    out := map[];
    var pending := errors.Keys;
    while pending != {}
      invariant pending <= errors.Keys
      invariant out.Keys == errors.Keys - pending
      invariant forall f :: f in out ==> out[f] == errors[f].message
      decreases pending
    {
      var f :| f in pending;
      out := out[f := errors[f].message];
      pending := pending - {f};
    }
  }

  /** The handler: the reply `Response` describes. */
  method Handle(err: Error) returns (r: ErrorReply)
    ensures r == Response(err)
  {
    if err.code == Some(DuplicateKeyCode) {
      var field := FirstKey(err.keyPattern);
      return ErrorReply(400, "Duplicate entry: " + KeyText(field) + " already exists", DuplicateField(field));
    }
    if err.name == "ValidationError" {
      var messages := CollectMessages(err.errors);
      return ErrorReply(400, "Validation error", FieldMessages(messages));
    }
    if err.name == "CastError" {
      return ErrorReply(400, "Invalid ID format", ErrorText("The provided ID is not valid"));
    }
    return ErrorReply(500, "Internal server error", NoData);
  }

  // Properties

  /**
   * A duplicate-key error is answered the same whatever its name and
   * validation details: the code test comes before the name tests.
   */
  lemma DuplicateKeyTakesPrecedence(err: Error, name: string, errors: map<string, FieldError>)
    requires err.code == Some(DuplicateKeyCode)
    ensures Response(err) == Response(err.(name := name, errors := errors))
    ensures Response(err).data == DuplicateField(FirstKey(err.keyPattern))
  {
  }

  /** The duplicate-key reply names the first key of the pattern, in the message and in the data. */
  lemma DuplicateKeyNamesField(err: Error)
    requires err.code == Some(DuplicateKeyCode) && err.keyPattern != []
    ensures var r := Response(err);
            && r.status == 400
            && r.data == DuplicateField(Some(err.keyPattern[0]))
            && r.message == "Duplicate entry: " + err.keyPattern[0] + " already exists"
  {
  }

  /** A validation reply maps every failing field, and only those, to its message. */
  lemma ValidationListsEveryField(err: Error)
    requires Classify(err) == Validation
    ensures var r := Response(err);
            && r.status == 400 && r.message == "Validation error"
            && r.data.FieldMessages?
            && r.data.messages.Keys == err.errors.Keys
            && forall f :: f in err.errors ==> r.data.messages[f] == err.errors[f].message
  {
  }

  /** A malformed id is answered 400 "Invalid ID format" unless the code says duplicate key. */
  lemma CastIsInvalidId(err: Error)
    requires err.name == "CastError" && err.code != Some(DuplicateKeyCode)
    ensures Response(err) == ErrorReply(400, "Invalid ID format", ErrorText("The provided ID is not valid"))
  {
  }

  /** Every other error gets the same reply: nothing about it reaches the client. */
  lemma InternalRevealsNothing(e1: Error, e2: Error)
    requires Classify(e1) == Internal && Classify(e2) == Internal
    ensures Response(e1) == Response(e2)
    ensures Response(e1) == ErrorReply(500, "Internal server error", NoData)
  {
  }
}
