/** The backend simulator's encounter call: an encounter record is created with status
    Created, a note describing it is posted to the extension, and the record's status,
    status code, response text and error message are then set from what came back. The
    outcome of the HTTP exchange (and of reading and parsing its body) is an input. */
module EncounterService {
  import opened Text

  datatype EncounterStatus = Created | Processing | Completed | Failed

  /** `EncounterSimulationRequest`. */
  datatype SimulationRequest = SimulationRequest(name: string, description: Option<string>)

  /** What `JsonSerializer.Deserialize<ProcessResponse>` makes of the response body: a
      `JsonException`, the JSON literal `null`, or a response with its two fields. */
  datatype ParseOutcome = NotJson | JsonNull | Parsed(success: bool, message: Option<string>)

  /** Reading the body of a response: an exception with its message, or the text read. */
  datatype BodyOutcome = BodyThrew(message: string) | Body(content: string, parsed: ParseOutcome)

  /** The HTTP exchange: the post threw an exception with this message, or a response came
      back with a numeric status, the name the status formats to (`BadRequest`), a reason
      phrase that may be missing, and what reading its body gives. */
  datatype HttpOutcome =
    | Threw(message: string)
    | Responded(statusCode: int, statusName: string, reasonPhrase: Option<string>, body: BodyOutcome)

  /** The part of the posted `DragonStandardPayload` the service fills in. */
  datatype Payload = Payload(
    correlationId: string,
    sessionStart: int,
    tenantId: string,
    payloadVersion: string,
    schemaVersion: string,
    language: string,
    priority: string,
    title: string,
    documentType: string,
    legacyId: string,
    content: string)

  /** `HttpResponseMessage.IsSuccessStatusCode`. */
  predicate IsSuccessStatusCode(code: int) {
    200 <= code <= 299
  }

  const ProcessingFailed := "Extension processing failed"
  const CallFailedPrefix := "Extension API call failed with status "

  /** The note text: the name, then " - " and the description only when there is a
      non-empty one. */
  function NoteContent(request: SimulationRequest): (c: string)
    ensures StartsWith(c, "Encounter: " + request.name)
    ensures request.description.None? || request.description.value == "" ==> c == "Encounter: " + request.name
    ensures request.description.Some? && request.description.value != "" ==>
              c == "Encounter: " + request.name + " - " + request.description.value
  {
    var head := "Encounter: " + request.name;
    var c := head + (if request.description.None? || request.description.value == "" then ""
                     else " - " + request.description.value);
    assert c[..|head|] == head;
    c
  }

  /** The payload posted for an encounter with this id and creation time. */
  function BuildPayload(id: string, createdAt: int, request: SimulationRequest): (p: Payload)
    ensures p.correlationId == id && p.legacyId == id && p.sessionStart == createdAt
    ensures p.title == request.name && p.content == NoteContent(request)
  {
    Payload(id, createdAt, "dragon-backend-simulator", "1.0", "1.0", "en-US", "normal",
            request.name, "Encounter Simulation", id, NoteContent(request))
  }

  /** `$"Extension API call failed with status {StatusCode}: {ReasonPhrase}"`; a missing
      reason phrase formats as nothing. */
  function CallFailedMessage(statusName: string, reasonPhrase: Option<string>): string {
    CallFailedPrefix + statusName + ": " + (if reasonPhrase.Some? then reasonPhrase.value else "")
  }

  /** The fields the call sets once the exchange is over. */
  datatype Settled = Settled(
    status: EncounterStatus,
    statusCode: Option<int>,
    externalApiResponse: Option<string>,
    errorMessage: Option<string>)

  /** The status decision: what the fields hold after the exchange, by the branches of the
      `try` block and its `catch`. */
  function Settle(outcome: HttpOutcome): (r: Settled)
    ensures r.status == Completed || r.status == Failed
    ensures r.status == Failed <==> r.errorMessage.Some?
  {
    match outcome
    case Threw(m) => Settled(Failed, None, None, Some(m))
    case Responded(code, name, reason, body) =>
      if !IsSuccessStatusCode(code) then Settled(Failed, Some(code), None, Some(CallFailedMessage(name, reason)))
      else
        match body
        case BodyThrew(m) => Settled(Failed, None, None, Some(m))
        case Body(content, parsed) =>
          if parsed.Parsed? && !parsed.success then
            Settled(Failed, Some(code), Some(content),
                    Some(if parsed.message.Some? then parsed.message.value else ProcessingFailed))
          else Settled(Completed, Some(code), Some(content), None)
  }

  /** The call completes exactly when a success status came back, its body was read, and
      the body is not a response reporting `success: false`. */
  lemma CompletedIff(outcome: HttpOutcome)
    ensures Settle(outcome).status == Completed <==>
              && outcome.Responded?
              && IsSuccessStatusCode(outcome.statusCode)
              && outcome.body.Body?
              && !(outcome.body.parsed.Parsed? && !outcome.body.parsed.success)
  {
  }

  /** A success status whose body reports failure gives Failed with its message, or the
      default message when it has none; the status code and response text are kept. */
  lemma ReportedFailure(code: int, name: string, reason: Option<string>, content: string, message: Option<string>)
    requires IsSuccessStatusCode(code)
    ensures var s := Settle(Responded(code, name, reason, Body(content, Parsed(false, message))));
            && s.status == Failed
            && s.statusCode == Some(code)
            && s.externalApiResponse == Some(content)
            && s.errorMessage == Some(if message.Some? then message.value else "Extension processing failed")
  {
  }

  /** A success status whose body is not JSON (or is `null`) stays Completed with no error. */
  lemma UnparsedBodyCompletes(code: int, name: string, reason: Option<string>, content: string, parsed: ParseOutcome)
    requires IsSuccessStatusCode(code) && !parsed.Parsed?
    ensures Settle(Responded(code, name, reason, Body(content, parsed))) == Settled(Completed, Some(code), Some(content), None)
  {
  }

  /** Any other status fails with the code and a message naming the status and reason,
      whatever the body holds. */
  lemma ErrorStatusFails(code: int, name: string, reason: Option<string>, body: BodyOutcome)
    requires !IsSuccessStatusCode(code)
    ensures var s := Settle(Responded(code, name, reason, body));
            && s.status == Failed
            && s.statusCode == Some(code)
            && s.errorMessage == Some("Extension API call failed with status " + name + ": " + (if reason.Some? then reason.value else ""))
  {
  }

  /** An exception fails the call with the exception's message and no status code. */
  lemma ExceptionFails(message: string)
    ensures Settle(Threw(message)) == Settled(Failed, None, None, Some(message))
  {
  }

  /** A status code is recorded exactly when a response came back and, for a success status,
      its body could be read; it is then the response's code. */
  lemma StatusCodeRecorded(outcome: HttpOutcome)
    ensures Settle(outcome).statusCode.Some? <==>
              outcome.Responded? && (IsSuccessStatusCode(outcome.statusCode) ==> outcome.body.Body?)
    ensures Settle(outcome).statusCode.Some? ==> Settle(outcome).statusCode.value == outcome.statusCode
  {
  }

  /** `ExtensionResponse`, the encounter record the call fills in. */
  class Encounter {
    var id: string
    var name: string
    var description: Option<string>
    var createdAt: int
    var completedAt: Option<int>
    var status: EncounterStatus
    var statusCode: Option<int>
    var externalApiResponse: Option<string>
    var errorMessage: Option<string>

    /** The fields the exchange decides. */
    function Outcome(): Settled
      reads this
    {
      Settled(status, statusCode, externalApiResponse, errorMessage)
    }

    /** The object initialiser: a new encounter in status Created. */
    constructor(id: string, request: SimulationRequest, createdAt: int)
      ensures this.id == id && name == request.name && description == request.description
      ensures this.createdAt == createdAt && completedAt.None?
      ensures Outcome() == Settled(Created, None, None, None)
    {
      this.id := id;
      name := request.name;
      description := request.description;
      this.createdAt := createdAt;
      completedAt := None;
      status := Created;
      statusCode := None;
      externalApiResponse := None;
      errorMessage := None;
    }
  }

  /** `CallExtensionAsync`: `null` (for the `ArgumentNullException`) when there is no
      request; otherwise the payload posted and a new encounter whose settled fields are
      `Settle(outcome)`, with the completion time set. `id` is the fresh GUID's text and
      the two times are the clock readings. */
  method CallExtension(request: Option<SimulationRequest>, id: string, createdAt: int, completedAt: int, outcome: HttpOutcome)
    returns (e: Encounter?, sent: Option<Payload>)
    ensures e == null <==> request.None?
    ensures sent.Some? <==> request.Some?
    ensures request.Some? ==> sent.value == BuildPayload(id, createdAt, request.value)
    ensures e != null ==> fresh(e)
    ensures e != null ==> e.id == id && e.name == request.value.name && e.description == request.value.description
    ensures e != null ==> e.createdAt == createdAt && e.completedAt == Some(completedAt)
    ensures e != null ==> e.Outcome() == Settle(outcome)
  {
    if request.None? {
      return null, None;
    }
    var encounter := new Encounter(id, request.value, createdAt);
    var payload := BuildPayload(encounter.id, encounter.createdAt, request.value);
    match outcome {
      case Threw(m) =>
        encounter.status := Failed;
        encounter.errorMessage := Some(m);
      case Responded(code, name, reason, body) =>
        if IsSuccessStatusCode(code) {
          match body {
            case BodyThrew(m) =>
              encounter.status := Failed;
              encounter.errorMessage := Some(m);
            case Body(content, parsed) =>
              encounter.status := Completed;
              encounter.externalApiResponse := Some(content);
              encounter.statusCode := Some(code);
              if parsed.Parsed? && !parsed.success {
                encounter.status := Failed;
                encounter.errorMessage := Some(if parsed.message.Some? then parsed.message.value else ProcessingFailed);
              }
          }
        } else {
          encounter.status := Failed;
          encounter.statusCode := Some(code);
          encounter.errorMessage := Some(CallFailedMessage(name, reason));
        }
    }
    encounter.completedAt := Some(completedAt);
    return encounter, Some(payload);
  }

  /** The request the simulator's tests send: "Test Encounter" with "Test Description",
      without a description, and with an empty one. */
  lemma ContentWithDescription()
    ensures NoteContent(SimulationRequest("Test Encounter", Some("Test Description"))) == "Encounter: Test Encounter - Test Description"
  {
  }

  lemma ContentWithoutDescription()
    ensures NoteContent(SimulationRequest("Test Encounter", None)) == "Encounter: Test Encounter"
  {
  }

  lemma ContentWithEmptyDescription()
    ensures NoteContent(SimulationRequest("Test Encounter", Some(""))) == "Encounter: Test Encounter"
  {
  }

  /** A 400 response with reason "Bad Request" gives the message the tests expect. */
  lemma BadRequestMessage()
    ensures Settle(Responded(400, "BadRequest", Some("Bad Request"), Body("Bad Request", NotJson))).errorMessage
              == Some("Extension API call failed with status BadRequest: Bad Request")
  {
    assert CallFailedMessage("BadRequest", Some("Bad Request")) == "Extension API call failed with status BadRequest: Bad Request";
  }
}
