/** `GlobalExceptionHandler`: the controller advice that turns exceptions
    escaping a controller into a uniform error body. The timestamp is left out. */
module ExceptionHandling {
  import opened Http

  /** A binding error on one field of a request body. */
  datatype FieldError = FieldError(field: string, defaultMessage: string)

  /** The `message` of an error body: plain text, or the field-to-message
      map the validation handler builds (kept as a map, not rendered). */
  datatype Detail = Text(text: string) | FieldMessages(messages: map<string, string>)

  datatype ErrorResponse = ErrorResponse(status: int, error: string, message: Detail)

  /** The exceptions the advice is registered for. */
  datatype HandledException =
    | MethodArgumentNotValid(errors: seq<FieldError>)
    | MethodArgumentTypeMismatch(name: string, requiredType: string)
    | Thrown(exception: Exception)

  /** The map `put` builds when the binding errors are visited in order. */
  function Collected(errors: seq<FieldError>): map<string, string>
    decreases |errors|
  {
    if |errors| == 0 then map[]
    else Collected(errors[..|errors| - 1])[errors[|errors| - 1].field := errors[|errors| - 1].defaultMessage]
  }

  /** Every field that has an error has an entry, and no other field does. */
  lemma {:induction false} CollectedKeys(errors: seq<FieldError>)
    ensures forall f :: f in Collected(errors) <==> exists i :: 0 <= i < |errors| && errors[i].field == f
    decreases |errors|
  {
    if |errors| > 0 {
      var init := errors[..|errors| - 1];
      CollectedKeys(init);
      forall f ensures f in Collected(errors) <==> exists i :: 0 <= i < |errors| && errors[i].field == f {
        if f in Collected(errors) && f != errors[|errors| - 1].field {
          assert f in Collected(init);
          var i :| 0 <= i < |init| && init[i].field == f;
          assert errors[i] == init[i];
        }
        if exists i :: 0 <= i < |errors| && errors[i].field == f {
          var i :| 0 <= i < |errors| && errors[i].field == f;
          if i < |init| {
            assert init[i] == errors[i];
          }
        }
      }
    }
  }

  /** A field that failed more than once reports its last error's message. */
  lemma {:induction false} CollectedLastWins(errors: seq<FieldError>, i: int)
    requires 0 <= i < |errors|
    requires forall j :: i < j < |errors| ==> errors[j].field != errors[i].field
    ensures errors[i].field in Collected(errors)
    ensures Collected(errors)[errors[i].field] == errors[i].defaultMessage
    decreases |errors|
  {
    if i < |errors| - 1 {
      var init := errors[..|errors| - 1];
      assert forall j :: i < j < |init| ==> init[j].field != init[i].field by {
        forall j | i < j < |init| ensures init[j].field != init[i].field {
          assert init[j] == errors[j];
        }
      }
      CollectedLastWins(init, i);
      assert init[i] == errors[i];
    }
  }

  /** `handleValidationExceptions`: the binding errors are put into a map
      one by one, so a later error on the same field overwrites an earlier one. */
  method HandleValidationExceptions(errors: seq<FieldError>) returns (reply: Reply<ErrorResponse>)
    ensures reply.status == StatusBadRequest
    ensures reply.body == ErrorResponse(StatusBadRequest, "Validation failed", FieldMessages(Collected(errors)))
  {
    var messages: map<string, string> := map[];
    var k := 0;
    while k < |errors|
      invariant 0 <= k <= |errors|
      invariant messages == Collected(errors[..k])
    {
      assert errors[..k + 1][..k] == errors[..k];
      messages := messages[errors[k].field := errors[k].defaultMessage];
      k := k + 1;
    }
    assert errors[..|errors|] == errors;
    reply := Reply(StatusBadRequest, ErrorResponse(StatusBadRequest, "Validation failed", FieldMessages(messages)));
  }

  /** `handleTypeMismatch`: a path or query parameter of the wrong type. */
  function HandleTypeMismatch(name: string, requiredType: string): (reply: Reply<ErrorResponse>)
    ensures reply.status == StatusBadRequest && reply.body.status == reply.status
    ensures reply.body.error == "Invalid parameter type"
    ensures reply.body.message == Text("Parameter '" + name + "' should be of type " + requiredType)
  {
    var text := "Parameter '" + name + "' should be of type " + requiredType;
    Reply(StatusBadRequest, ErrorResponse(StatusBadRequest, "Invalid parameter type", Text(text)))
  }

  /** `handleIllegalArgument`: 400 with the exception's own message. */
  function HandleIllegalArgument(message: string): (reply: Reply<ErrorResponse>)
    ensures reply.status == StatusBadRequest && reply.body.status == reply.status
    ensures reply.body.error == "Invalid argument" && reply.body.message == Text(message)
  {
    Reply(StatusBadRequest, ErrorResponse(StatusBadRequest, "Invalid argument", Text(message)))
  }

  /** `handleGenericException`: 500 with the exception's own message. */
  function HandleGenericException(message: string): (reply: Reply<ErrorResponse>)
    ensures reply.status == StatusInternalServerError && reply.body.status == reply.status
    ensures reply.body.error == "Internal server error" && reply.body.message == Text(message)
  {
    Reply(StatusInternalServerError, ErrorResponse(StatusInternalServerError, "Internal server error", Text(message)))
  }

  /** Spring's choice of the most specific handler for an exception. */
  method HandleException(e: HandledException) returns (reply: Reply<ErrorResponse>)
    ensures reply.body.status == reply.status
    ensures reply.status == StatusInternalServerError <==> e.Thrown? && e.exception.RuntimeException?
    ensures reply.status != StatusInternalServerError ==> reply.status == StatusBadRequest
    ensures e.MethodArgumentNotValid? ==>
      reply == Reply(StatusBadRequest, ErrorResponse(StatusBadRequest, "Validation failed", FieldMessages(Collected(e.errors))))
    ensures e.MethodArgumentTypeMismatch? ==> reply == HandleTypeMismatch(e.name, e.requiredType)
    ensures e.Thrown? && e.exception.IllegalArgumentException? ==> reply == HandleIllegalArgument(e.exception.message)
    ensures e.Thrown? && e.exception.RuntimeException? ==> reply == HandleGenericException(e.exception.message)
    ensures e.Thrown? ==> reply.body.message == Text(e.exception.message)
  {
    match e {
      case MethodArgumentNotValid(errors) =>
        reply := HandleValidationExceptions(errors);
      case MethodArgumentTypeMismatch(name, requiredType) =>
        reply := HandleTypeMismatch(name, requiredType);
      case Thrown(IllegalArgumentException(message)) =>
        reply := HandleIllegalArgument(message);
      case Thrown(RuntimeException(message)) =>
        reply := HandleGenericException(message);
    }
  }
}
