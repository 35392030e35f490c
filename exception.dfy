/**
 * The exceptions the services throw and the HTTP responses the two
 * exception mappers turn them into.
 */
module Exceptions {

  /**
   * An exception message. ResourceNotFoundException(resource, id) and
   * DuplicateResourceException(resource, field, value) format their own
   * text; the model keeps their arguments instead of the rendered string.
   */
  datatype Message =
    | Text(text: string)
    | NotFoundById(resource: string, id: int)
    | DuplicateValue(resource: string, field: string, value: string)

  /** What a WebApplicationException wraps. */
  datatype Cause = JsonProcessing | OtherCause | NoCause

  datatype AppException =
    | ResourceNotFound(message: Message)
    | DuplicateResource(message: Message)
    | ReferentialIntegrity(message: Message)
    | ConstraintViolation(violations: seq<string>)
    | WebApplication(cause: Cause)
    | Unexpected

  const NotFound := 404
  const Conflict := 409
  const BadRequest := 400
  const InternalServerError := 500

  /** A JAX-RS response: a status and a JSON object body. */
  datatype Response = Response(status: int, body: map<string, Message>)

  /** createErrorResponse: a fresh map holding the message under "error" and nothing else. */
  function ErrorBody(message: Message): (body: map<string, Message>)
    ensures body.Keys == {"error"} && body["error"] == message
  {
    map["error" := message]
  }
}

/** The catch-all ExceptionMapper<Exception>. */
module GlobalExceptionHandler {
  import opened Exceptions

  /** toResponse: the first matching case of the if-chain decides status and message. */
  function ToResponse(e: AppException): (r: Response)
    ensures r.body.Keys == {"error"}
    ensures e.ResourceNotFound? ==> r == Response(NotFound, ErrorBody(e.message))
    ensures (e.DuplicateResource? || e.ReferentialIntegrity?) ==> r == Response(Conflict, ErrorBody(e.message))
    ensures e == WebApplication(JsonProcessing) ==> r == Response(BadRequest, ErrorBody(Text("Invalid JSON format")))
  {
    if e.ResourceNotFound? then Response(NotFound, ErrorBody(e.message))
    else if e.DuplicateResource? then Response(Conflict, ErrorBody(e.message))
    else if e.ReferentialIntegrity? then Response(Conflict, ErrorBody(e.message))
    else if e.WebApplication? && e.cause == JsonProcessing then
      Response(BadRequest, ErrorBody(Text("Invalid JSON format")))
    else Response(InternalServerError, ErrorBody(Text("Internal server error")))
  }

  /**
   * The classification is total and exclusive: 500 with the fixed text is
   * returned exactly for exceptions none of the four cases names, which
   * includes a WebApplicationException with any other cause; and the
   * exception's own message is echoed exactly for the 404 and 409 cases.
   */
  lemma {:induction false} Classification(e: AppException)
    ensures ToResponse(e).status in {NotFound, Conflict, BadRequest, InternalServerError}
    ensures ToResponse(e).status == InternalServerError <==>
      !(e.ResourceNotFound? || e.DuplicateResource? || e.ReferentialIntegrity? || e == WebApplication(JsonProcessing))
    ensures ToResponse(e).status == InternalServerError ==> ToResponse(e).body["error"] == Text("Internal server error")
    ensures ToResponse(e).status in {NotFound, Conflict} <==>
      (e.ResourceNotFound? || e.DuplicateResource? || e.ReferentialIntegrity?)
    ensures ToResponse(WebApplication(OtherCause)).status == InternalServerError
    ensures ToResponse(WebApplication(NoCause)).status == InternalServerError
  {
  }
}

/** The ExceptionMapper<ConstraintViolationException> for failed bean validation. */
module ValidationExceptionHandler {
  import opened Exceptions

  /** Collectors.joining(sep): the parts with sep between neighbours. */
  function Join(parts: seq<string>, sep: string): string
  {
    if |parts| == 0 then ""
    else if |parts| == 1 then parts[0]
    else Join(parts[..|parts| - 1], sep) + sep + parts[|parts| - 1]
  }

  /** Two messages join into one text with the separator between them. */
  lemma {:induction false} JoinPair(a: string, b: string, sep: string)
    ensures Join([a, b], sep) == a + sep + b
  {
    assert [a, b][..1] == [a];
  }

  function SumLengths(parts: seq<string>): nat {
    if parts == [] then 0 else SumLengths(parts[..|parts| - 1]) + |parts[|parts| - 1]|
  }

  function CountChar(s: string, c: char): nat {
    if s == [] then 0 else CountChar(s[..|s| - 1], c) + (if s[|s| - 1] == c then 1 else 0)
  }

  /** toResponse: 400 with the violation messages joined by ", " under "error". */
  function ToResponse(violations: seq<string>): (r: Response)
    ensures r.status == BadRequest
    ensures r.body.Keys == {"error"}
    ensures violations == [] ==> r.body["error"] == Text("")
    ensures |violations| == 1 ==> r.body["error"] == Text(violations[0])
    ensures r.body["error"] == Text(Join(violations, ", "))
  {
    Response(BadRequest, ErrorBody(Text(Join(violations, ", "))))
  }

  /**
   * The joined text starts with the first message and ends with the last,
   * so there is no leading or trailing separator, and its length is the
   * messages' lengths plus one separator between each neighbouring pair.
   */
  lemma {:induction false} JoinShape(parts: seq<string>, sep: string)
    requires parts != []
    ensures var r := Join(parts, sep);
      && |r| == SumLengths(parts) + (|parts| - 1) * |sep|
      && |parts[0]| <= |r| && r[..|parts[0]|] == parts[0]
      && r[|r| - |parts[|parts| - 1]|..] == parts[|parts| - 1]
    decreases |parts|
  {
    if |parts| > 1 {
      var init := parts[..|parts| - 1];
      JoinShape(init, sep);
      assert init[0] == parts[0];
      var r := Join(parts, sep);
      var j := Join(init, sep);
      assert r == j + sep + parts[|parts| - 1];
      assert r[..|parts[0]|] == j[..|parts[0]|];
    }
  }

  lemma {:induction false} CountCharAppend(a: string, b: string, c: char)
    ensures CountChar(a + b, c) == CountChar(a, c) + CountChar(b, c)
    decreases |b|
  {
    if b == [] {
      assert a + b == a;
    } else {
      assert (a + b)[..|a + b| - 1] == a + b[..|b| - 1];
      CountCharAppend(a, b[..|b| - 1], c);
    }
  }

  /**
   * When no message contains a comma, the joined text of n >= 1 messages
   * holds exactly n - 1 commas: one per separator.
   */
  lemma {:induction false} JoinSeparatorCount(parts: seq<string>)
    requires parts != []
    requires forall i :: 0 <= i < |parts| ==> CountChar(parts[i], ',') == 0
    ensures CountChar(Join(parts, ", "), ',') == |parts| - 1
    decreases |parts|
  {
    if |parts| > 1 {
      var init := parts[..|parts| - 1];
      JoinSeparatorCount(init);
      CountCharAppend(Join(init, ", "), ", ", ',');
      CountCharAppend(Join(init, ", ") + ", ", parts[|parts| - 1], ',');
      assert CountChar(", ", ',') == 1 by {
        assert ", "[..1] == ",";
        assert ","[..0] == "";
      }
    }
  }
}

/**
 * Which mapper JAX-RS runs: the one registered for the closest exception
 * type, so a ConstraintViolationException goes to the validation mapper and
 * everything else to the catch-all.
 */
module ExceptionMapping {
  import opened Exceptions
  import GlobalExceptionHandler
  import ValidationExceptionHandler
  import opened Dto
  import opened Wrappers

  function Dispatch(e: AppException): (r: Response)
    ensures r.body.Keys == {"error"}
    ensures e.ConstraintViolation? ==> r.status == BadRequest
    ensures e.ConstraintViolation? ==> r == ValidationExceptionHandler.ToResponse(e.violations)
    ensures !e.ConstraintViolation? ==> r == GlobalExceptionHandler.ToResponse(e)
  {
    if e.ConstraintViolation? then ValidationExceptionHandler.ToResponse(e.violations)
    else GlobalExceptionHandler.ToResponse(e)
  }

  /**
   * Creating a product with an empty name and value -10 is refused with 400
   * and both messages; so is a raw material with an empty name and stock -10.
   */
  lemma {:induction false} InvalidCreateIsBadRequest()
    ensures var v := ProductRequestViolations(ProductRequestDto(Some(""), Some(-10.0)));
      && !ValidProductRequest(ProductRequestDto(Some(""), Some(-10.0)))
      && Dispatch(ConstraintViolation(v))
         == Response(BadRequest, map["error" := Text("Name is required" + ", " + "Value must be greater than zero")])
    ensures var v := RawMaterialRequestViolations(RawMaterialRequestDto(Some(""), Some(-10.0)));
      && Dispatch(ConstraintViolation(v)).status == BadRequest
      && Dispatch(ConstraintViolation(v)).body["error"]
         == Text("Name is required" + ", " + "Stock quantity must be greater than or equal to zero")
  {
    InvalidCreateRequests();
    ValidationExceptionHandler.JoinPair("Name is required", "Value must be greater than zero", ", ");
    ValidationExceptionHandler.JoinPair("Name is required", "Stock quantity must be greater than or equal to zero", ", ");
  }
}
