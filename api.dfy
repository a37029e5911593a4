/**
 * The HTTP surface (api/api.go): each handler calls the service and turns
 * its result into a status and a JSON body through `respondWithError` or
 * `respondWithSuccess`. Routing, JSON encoding and decoding, logging and the
 * server itself are not modelled: a request body arrives already decoded
 * (`Ok(request)`) or as the decoder's error text (`Err(message)`), and the
 * encoded value is kept as a `Body`.
 *
 * The newer variant of the handlers puts an authorization step in front of
 * every route but `/health`; `Authorization` and `Serve` model it as its
 * tests (pkg/api/api_test.go) pin it down.
 */
module Api {
  import opened Wrappers
  import opened Errors
  import opened ObjectIds
  import opened Models
  import opened Store
  import opened External
  import opened Service

  const StatusOK := 200
  const StatusNoContent := 204
  const StatusBadRequest := 400
  const StatusUnauthorized := 401
  const StatusInternalServerError := 500

  const JsonContentType := "application/json; charset=utf-8"

  const HealthyMessage := "API is running and connected to database"
  const AmbiguousMessage := "more than one note returned for given ID"

  /** A value the handlers encode as the response body. */
  datatype Body =
    | Null                          // the nil body of a 204
    | Text(text: string)            // a JSON string
    | OneNote(note: Note)           // a JSON object
    | NoteList(notes: seq<Note>)    // a JSON array
    | ErrorObject(message: string)  // {"error": message}

  /** What a client sees: the status, the Content-Type header and the body, if any was written. */
  datatype Response = Response(status: int, contentType: string, body: Option<Body>)

  /** `respondWithError`: the status, and `{"error": message}` unless the message is empty. */
  function ErrorResponse(code: int, message: string): (r: Response)
    ensures r.status == code && r.contentType == JsonContentType
    ensures r.body.None? <==> message == ""
    ensures r.body.Some? ==> r.body.value == ErrorObject(message)
  {
    Response(code, JsonContentType, if message == "" then None else Some(ErrorObject(message)))
  }

  /** `respondWithSuccess`: the status, and the encoded value unless the status is 204. */
  function SuccessResponse(code: int, body: Body): (r: Response)
    ensures r.status == code && r.contentType == JsonContentType
    ensures r.body.None? <==> code == StatusNoContent
    ensures r.body.Some? ==> r.body.value == body
  {
    Response(code, JsonContentType, if code == StatusNoContent then None else Some(body))
  }

  /** A service error is a 500 carrying the error's text; success is a 200 carrying `success`. */
  function ServiceResponse(err: Option<Error>, success: Body): (r: Response)
    ensures r.status == StatusOK <==> err.None?
    ensures err.Some? ==> r == ErrorResponse(StatusInternalServerError, Message(err.value))
    ensures err.None? ==> r == SuccessResponse(StatusOK, success)
  {
    match err
    case Some(e) => ErrorResponse(StatusInternalServerError, Message(e))
    case None => SuccessResponse(StatusOK, success)
  }

  /** `checkHealth`'s decision on the ping result. */
  function HealthResponse(err: Option<Error>): (r: Response)
    ensures r.status == StatusOK <==> err.None?
    ensures err.Some? ==> r == ErrorResponse(StatusInternalServerError, Message(err.value))
    ensures err.None? ==> r.body == Some(Text(HealthyMessage))
  {
    ServiceResponse(err, Text(HealthyMessage))
  }

  /** `getNotes`'s decision on the listing. */
  function ListResponse(r: Result<seq<Note>, Error>): (resp: Response)
    ensures resp.status == StatusOK <==> r.Ok?
    ensures r.Err? ==> resp == ErrorResponse(StatusInternalServerError, Message(r.error))
    ensures r.Ok? ==> resp.body == Some(NoteList(r.value))
  {
    match r
    case Err(e) => ServiceResponse(Some(e), Null)
    case Ok(notes) => ServiceResponse(None, NoteList(notes))
  }

  /**
   * `getNote`'s decision: an error is a 500 with its text, more than one
   * note a 500 with `AmbiguousMessage`, no note a bodiless 204, one note a
   * 200 with that note.
   */
  function NoteResponse(r: Result<seq<Note>, Error>): (resp: Response)
    ensures r.Err? ==> resp == ErrorResponse(StatusInternalServerError, Message(r.error))
    ensures r.Ok? && |r.value| > 1 ==> resp == ErrorResponse(StatusInternalServerError, AmbiguousMessage)
    ensures r.Ok? && |r.value| == 0 ==> resp.status == StatusNoContent && resp.body.None?
    ensures r.Ok? && |r.value| == 1 ==> resp.status == StatusOK && resp.body == Some(OneNote(r.value[0]))
  {
    if r.Err? then ErrorResponse(StatusInternalServerError, Message(r.error))
    else if |r.value| > 1 then ErrorResponse(StatusInternalServerError, AmbiguousMessage)
    else if |r.value| == 0 then SuccessResponse(StatusNoContent, Null)
    else SuccessResponse(StatusOK, OneNote(r.value[0]))
  }

  /** The edit confirmation: the id quoted between a fixed prefix and suffix. */
  function UpdatedMessage(id: string): (r: string)
    ensures |r| == |id| + 36
    ensures r[..14] == "Note with ID '" && r[14..14 + |id|] == id && r[14 + |id|..] == "' updated successfully"
  {
    "Note with ID '" + id + "' updated successfully"
  }

  /** The create confirmation, misspelling included. */
  function CreatedMessage(id: string): (r: string)
    ensures |r| == |id| + 35
    ensures r[..14] == "Note with ID '" && r[14..14 + |id|] == id && r[14 + |id|..] == "' created successfuly"
  {
    "Note with ID '" + id + "' created successfuly"
  }

  /** The delete confirmation. */
  function DeletedMessage(id: string): (r: string)
    ensures |r| == |id| + 36
    ensures r[..14] == "Note with ID '" && r[14..14 + |id|] == id && r[14 + |id|..] == "' deleted successfully"
  {
    "Note with ID '" + id + "' deleted successfully"
  }

  /** A confirmation names its note and its operation: equal confirmations are for the same id and the same operation. */
  lemma ConfirmationsIdentifyNote(a: string, b: string)
    ensures UpdatedMessage(a) == UpdatedMessage(b) ==> a == b
    ensures CreatedMessage(a) == CreatedMessage(b) ==> a == b
    ensures DeletedMessage(a) == DeletedMessage(b) ==> a == b
    ensures UpdatedMessage(a) != DeletedMessage(b) && UpdatedMessage(a) != CreatedMessage(b) && CreatedMessage(a) != DeletedMessage(b)
  {
    var ua, ub, ca, cb, da, db := UpdatedMessage(a), UpdatedMessage(b), CreatedMessage(a), CreatedMessage(b), DeletedMessage(a), DeletedMessage(b);
    assert ua[|ua| - 20] == 'u' && ub[|ub| - 20] == 'u';
    assert da[|da| - 20] == 'd' && db[|db| - 20] == 'd';
    assert ca[|ca| - 19] == 'c' && cb[|cb| - 19] == 'c' && cb[|cb| - 20] == ' ' && ca[|ca| - 20] == ' ';
  }

  /**
   * For a well-formed id the cardinality rule never fires: the lookup gives
   * a 200 with the stored note, or a bodiless 204 when there is none.
   */
  lemma GetNoteById(notes: map<ObjectId, Note>, id: string, r: Result<seq<Note>, Error>)
    requires Consistent(notes) && id != "" && ObjectIdFromHex(id).Ok? && Answers(notes, id, None, r)
    ensures var oid := ObjectIdFromHex(id).value;
      NoteResponse(r) == if oid in notes then SuccessResponse(StatusOK, OneNote(notes[oid]))
                         else SuccessResponse(StatusNoContent, Null)
    ensures NoteResponse(r) != ErrorResponse(StatusInternalServerError, AmbiguousMessage)
  {
    AnswersById(notes, id, r);
  }

  /** A malformed id is a 500 (not a 400) carrying the decoder's message, and the store is not asked. */
  lemma GetNoteInvalidId(notes: map<ObjectId, Note>, id: string, fault: Option<string>, r: Result<seq<Note>, Error>)
    requires id != "" && ObjectIdFromHex(id).Err? && Answers(notes, id, fault, r)
    ensures NoteResponse(r) == ErrorResponse(StatusInternalServerError, Message(ObjectIdFromHex(id).error))
    ensures NoteResponse(r).body.Some?
  {
    var e := ObjectIdFromHex(id).error;
    assert e.IsIdError();
  }

  /** `http.ResponseWriter` as a recorder sees it. */
  class ResponseWriter {
    /** The Content-Type header, `""` while unset. */
    var contentType: string
    /** The status written, if any; writing a body first makes it 200. */
    var status: Option<int>
    /** The values encoded into the body, in order. */
    var written: seq<Body>

    constructor ()
      ensures Pristine()
    {
      contentType := "";
      status := None;
      written := [];
    }

    /** Nothing has been written yet. */
    predicate Pristine()
      reads this
    {
      contentType == "" && status.None? && written == []
    }

    /** The response recorded so far. */
    function Recorded(): Response
      reads this
    {
      Response(status.GetOr(StatusOK), contentType, if written == [] then None else Some(written[0]))
    }

    /** `Header().Set("Content-Type", v)`: headers can change only until the status is written. */
    method SetContentType(v: string)
      modifies this
      ensures contentType == (if old(status).None? then v else old(contentType))
      ensures status == old(status) && written == old(written)
    {
      if status.None? {
        contentType := v;
      }
    }

    /** `WriteHeader`: the first status written sticks. */
    method WriteHeader(code: int)
      modifies this
      ensures status == (if old(status).None? then Some(code) else old(status))
      ensures contentType == old(contentType) && written == old(written)
    {
      if status.None? {
        status := Some(code);
      }
    }

    /** `json.NewEncoder(w).Encode(v)`: writes the value, with an implicit 200 if no status was written. */
    method Encode(b: Body)
      modifies this
      ensures status == (if old(status).None? then Some(StatusOK) else old(status))
      ensures contentType == old(contentType) && written == old(written) + [b]
    {
      if status.None? {
        status := Some(StatusOK);
      }
      written := written + [b];
    }
  }

  /** `respondWithError` on a fresh writer. */
  method RespondWithError(w: ResponseWriter, code: int, message: string)
    requires w.Pristine()
    modifies w
    ensures w.Recorded() == ErrorResponse(code, message)
  {
    w.SetContentType(JsonContentType);
    w.WriteHeader(code);
    if message == "" {
      return;
    }
    w.Encode(ErrorObject(message));
  }

  /** `respondWithSuccess` on a fresh writer. */
  method RespondWithSuccess(w: ResponseWriter, code: int, body: Body)
    requires w.Pristine()
    modifies w
    ensures w.Recorded() == SuccessResponse(code, body)
  {
    w.SetContentType(JsonContentType);
    w.WriteHeader(code);
    if code != StatusNoContent {
      w.Encode(body);
    }
  }

  /** `checkHealth`. */
  method CheckHealth(svc: NotesService, w: ResponseWriter, fault: Option<string>)
    requires w.Pristine()
    modifies w
    ensures w.Recorded() == HealthResponse(Fault(fault))
  {
    var err := svc.Ping(fault);
    if err.Some? {
      RespondWithError(w, StatusInternalServerError, Message(err.value));
      return;
    }
    RespondWithSuccess(w, StatusOK, Text(HealthyMessage));
  }

  /** `getNotes`: the listing of every note. */
  method ListNotes(svc: NotesService, w: ResponseWriter, fault: Option<string>)
    requires svc.Valid() && w.Pristine()
    modifies w
    ensures exists r :: Answers(svc.dao.notes, "", fault, r) && w.Recorded() == ListResponse(r)
  {
    var r := svc.GetNotes("", fault);
    if r.Err? {
      RespondWithError(w, StatusInternalServerError, Message(r.error));
      return;
    }
    RespondWithSuccess(w, StatusOK, NoteList(r.value));
  }

  /** `getNote`: the note with the path id, under the cardinality rule. */
  method GetNote(svc: NotesService, w: ResponseWriter, id: string, fault: Option<string>)
    requires svc.Valid() && w.Pristine()
    modifies w
    ensures exists r :: Answers(svc.dao.notes, id, fault, r) && w.Recorded() == NoteResponse(r)
  {
    var r := svc.GetNotes(id, fault);
    if r.Err? {
      RespondWithError(w, StatusInternalServerError, Message(r.error));
      return;
    } else if |r.value| > 1 {
      RespondWithError(w, StatusInternalServerError, AmbiguousMessage);
      return;
    } else if |r.value| == 0 {
      RespondWithSuccess(w, StatusNoContent, Null);
      return;
    }
    RespondWithSuccess(w, StatusOK, OneNote(r.value[0]));
  }

  /** `editNote`: a body that does not decode is a 400 and the service is not called. */
  method EditNote(svc: NotesService, w: ResponseWriter, id: string, body: Result<NoteRequest, string>, fault: Option<string>)
    requires svc.Valid() && w.Pristine()
    modifies w, svc.dao
    ensures svc.Valid()
    ensures body.Err? ==> w.Recorded() == ErrorResponse(StatusBadRequest, body.error) && svc.dao.notes == old(svc.dao.notes)
    ensures body.Ok? ==>
      && w.Recorded() == ServiceResponse(UpdateError(old(svc.dao.notes), id, fault), Text(UpdatedMessage(id)))
      && svc.dao.notes == AfterUpdate(old(svc.dao.notes), id, body.value, fault)
  {
    if body.Err? {
      RespondWithError(w, StatusBadRequest, body.error);
      return;
    }
    var err := svc.UpdateNote(id, body.value, fault);
    if err.Some? {
      RespondWithError(w, StatusInternalServerError, Message(err.value));
      return;
    }
    RespondWithSuccess(w, StatusOK, Text(UpdatedMessage(id)));
  }

  /** `createNote`: the confirmation quotes the new note's hex id. */
  method CreateNote(svc: NotesService, w: ResponseWriter, body: Result<NoteRequest, string>,
                    freshId: ObjectId, now: Timestamp, fault: Option<string>)
    requires svc.Valid() && w.Pristine() && freshId !in svc.dao.notes
    modifies w, svc.dao
    ensures svc.Valid()
    ensures body.Err? ==> w.Recorded() == ErrorResponse(StatusBadRequest, body.error) && svc.dao.notes == old(svc.dao.notes)
    ensures body.Ok? ==> w.Recorded() == ServiceResponse(Fault(fault), Text(CreatedMessage(Hex(freshId))))
    ensures body.Ok? && fault.None? ==> svc.dao.notes == old(svc.dao.notes)[freshId := NewNote(body.value, freshId, now)]
    ensures body.Ok? && fault.Some? ==> svc.dao.notes == old(svc.dao.notes)
  {
    if body.Err? {
      RespondWithError(w, StatusBadRequest, body.error);
      return;
    }
    var id, err := svc.CreateNote(body.value, freshId, now, fault);
    if err.Some? {
      RespondWithError(w, StatusInternalServerError, Message(err.value));
      return;
    }
    RespondWithSuccess(w, StatusOK, Text(CreatedMessage(id)));
  }

  /** `deleteNote`. */
  method DeleteNote(svc: NotesService, w: ResponseWriter, id: string, fault: Option<string>)
    requires svc.Valid() && w.Pristine()
    modifies w, svc.dao
    ensures svc.Valid()
    ensures w.Recorded() == ServiceResponse(DeleteError(old(svc.dao.notes), id, fault), Text(DeletedMessage(id)))
    ensures svc.dao.notes == AfterDelete(old(svc.dao.notes), id, fault)
  {
    var err := svc.DeleteNote(id, fault);
    if err.Some? {
      RespondWithError(w, StatusInternalServerError, Message(err.value));
      return;
    }
    RespondWithSuccess(w, StatusOK, Text(DeletedMessage(id)));
  }

  const NoHeaderMessage := "no authorization header found"
  const FormatMessage := "authorization header must be in format 'Bearer'"
  const BearerPrefix := "Bearer "

  /**
   * The token of an `Authorization` header (`""` when the header is absent):
   * the header must be `Bearer`, one space, and a non-empty token without
   * spaces.
   */
  function BearerToken(header: string): (r: Result<string, string>)
    ensures header == "" ==> r == Err(NoHeaderMessage)
    ensures header != "" && r.Err? ==> r == Err(FormatMessage)
    ensures r.Ok? ==> header == BearerPrefix + r.value && r.value != "" && ' ' !in r.value
  {
    if header == "" then Err(NoHeaderMessage)
    else if |header| > |BearerPrefix| && header[..|BearerPrefix|] == BearerPrefix && ' ' !in header[|BearerPrefix|..] then
      Ok(header[|BearerPrefix|..])
    else Err(FormatMessage)
  }

  /** Every token of the accepted shape is read back from its header. */
  lemma BearerRoundTrip(token: string)
    requires token != "" && ' ' !in token
    ensures BearerToken(BearerPrefix + token) == Ok(token)
  {
    var h := BearerPrefix + token;
    assert h[..|BearerPrefix|] == BearerPrefix && h[|BearerPrefix|..] == token;
  }

  /** `Authorization: test` is rejected for its shape, `Authorization: Bearer test` carries `test`. */
  lemma BearerExamples()
    ensures BearerToken("test") == Err(FormatMessage)
    ensures BearerToken("Bearer test") == Ok("test")
  {
    assert "Bearer test" == BearerPrefix + "test";
    BearerRoundTrip("test");
  }

  /**
   * The authorization step: a missing or malformed header is a 400, a token
   * the login service rejects is a 401 with the validator's error text;
   * otherwise the caller's token.
   */
  function Authorization(header: string, loginServiceUrl: string, validation: Reply): (r: Result<string, Response>)
    ensures r.Ok? <==> BearerToken(header).Ok? && PostError(loginServiceUrl, "login service url cannot be empty", validation).None?
    ensures r.Ok? ==> header == BearerPrefix + r.value
    ensures BearerToken(header).Err? ==> r == Err(ErrorResponse(StatusBadRequest, BearerToken(header).error))
    ensures BearerToken(header).Ok? && r.Err? ==>
      r.error.status == StatusUnauthorized &&
      r.error == ErrorResponse(StatusUnauthorized, Message(PostError(loginServiceUrl, "login service url cannot be empty", validation).value))
  {
    match BearerToken(header)
    case Err(m) => Err(ErrorResponse(StatusBadRequest, m))
    case Ok(token) =>
      match PostError(loginServiceUrl, "login service url cannot be empty", validation)
      case Some(e) => Err(ErrorResponse(StatusUnauthorized, Message(e)))
      case None => Ok(token)
  }

  /** Only a 200 from a configured login service lets a well-formed bearer through. */
  lemma AuthorizedOnlyWhenValidated(header: string, loginServiceUrl: string, validation: Reply)
    requires Authorization(header, loginServiceUrl, validation).Ok?
    ensures loginServiceUrl != "" && validation == Status(OkCode)
    ensures BearerToken(header) == Ok(Authorization(header, loginServiceUrl, validation).value)
  {
  }

  /** The validation requests the authorization step makes: one, when the header is well formed and the login URL set. */
  function ValidationRequests(header: string, loginServiceUrl: string): (r: seq<Request>)
    ensures r == [] <==> BearerToken(header).Err? || loginServiceUrl == ""
    ensures r != [] ==> r == [Request(loginServiceUrl + "/token", header, [])]
  {
    match BearerToken(header)
    case Err(_) => []
    case Ok(token) => Posted(loginServiceUrl, "/token", "Bearer " + token, [])
  }

  /** The authorization step on a fresh writer: on failure the response is written; on success nothing is. */
  method Authorize(svc: NotesService, w: ResponseWriter, header: string, validation: Reply) returns (token: Option<string>)
    requires svc.ext != null && w.Pristine()
    modifies w, svc.ext
    ensures var a := Authorization(header, svc.ext.loginServiceUrl, validation);
      && (a.Ok? ==> token == Some(a.value) && w.Pristine())
      && (a.Err? ==> token.None? && w.Recorded() == a.error)
    ensures svc.ext.sent == old(svc.ext.sent) + ValidationRequests(header, svc.ext.loginServiceUrl)
    ensures svc.ext.token == old(svc.ext.token)
  {
    var bearer := BearerToken(header);
    if bearer.Err? {
      RespondWithError(w, StatusBadRequest, bearer.error);
      return None;
    }
    var err := svc.ValidateToken(bearer.value, validation);
    if err.Some? {
      RespondWithError(w, StatusUnauthorized, Message(err.value));
      return None;
    }
    token := Some(bearer.value);
  }

  /**
   * `sendToContentService` after authorization: store the caller's token,
   * then upload the note. When the upload panics on an empty listing the
   * handler never reaches a response: nothing is written.
   */
  method SaveNote(svc: NotesService, w: ResponseWriter, token: string, id: string, fault: Option<string>,
                  reply: Reply, confirmation: string)
    requires svc.Valid() && svc.ext != null && w.Pristine()
    modifies w, svc.ext
    ensures svc.ext.token == token
    ensures IndexesEmpty(svc.dao.notes, id, fault) ==> w.Pristine() && svc.ext.sent == old(svc.ext.sent)
    ensures LookupFilter(id).Err? ==>
      w.Recorded() == ErrorResponse(StatusInternalServerError, Message(LookupFilter(id).error)) && svc.ext.sent == old(svc.ext.sent)
    ensures LookupFilter(id).Ok? && fault.Some? ==>
      w.Recorded() == ErrorResponse(StatusInternalServerError, fault.value) && svc.ext.sent == old(svc.ext.sent)
    ensures LookupFilter(id).Ok? && fault.None? && !IndexesEmpty(svc.dao.notes, id, fault) ==>
      && w.Recorded() == ServiceResponse(PostError(svc.ext.contentServiceUrl, "content service url cannot be empty", reply), Text(confirmation))
      && exists k :: k in Selected(svc.dao.notes, LookupFilter(id).value) &&
           svc.ext.sent == old(svc.ext.sent) + Posted(svc.ext.contentServiceUrl, "/upload", "Bearer " + token, Form(svc.dao.notes[k]))
  {
    svc.SetToken(token);
    var err, panicked := svc.SendToContentService(id, fault, reply);
    if panicked {
      return;
    }
    if err.Some? {
      RespondWithError(w, StatusInternalServerError, Message(err.value));
      return;
    }
    RespondWithSuccess(w, StatusOK, Text(confirmation));
  }

  /** A request to one of the authorized routes, with what its collaborators will answer. */
  datatype Route =
    | ListNotesRoute(fault: Option<string>)
    | GetNoteRoute(id: string, fault: Option<string>)
    | EditNoteRoute(id: string, body: Result<NoteRequest, string>, fault: Option<string>)
    | CreateNoteRoute(body: Result<NoteRequest, string>, freshId: ObjectId, now: Timestamp, fault: Option<string>)
    | DeleteNoteRoute(id: string, fault: Option<string>)
    | SaveNoteRoute(id: string, fault: Option<string>, reply: Reply, confirmation: string)

  /**
   * An authorized route: the authorization step first; when it fails, its
   * response is the answer and the route's service operation is never
   * reached: the store, the stored token and the uploads are untouched.
   */
  method Serve(svc: NotesService, w: ResponseWriter, header: string, validation: Reply, route: Route)
    requires svc.Valid() && svc.ext != null && w.Pristine()
    requires route.CreateNoteRoute? ==> route.freshId !in svc.dao.notes
    modifies w, svc.dao, svc.ext
    ensures svc.Valid()
    ensures var a := Authorization(header, svc.ext.loginServiceUrl, validation);
      a.Err? ==>
        && w.Recorded() == a.error
        && svc.dao.notes == old(svc.dao.notes)
        && svc.ext.token == old(svc.ext.token)
        && svc.ext.sent == old(svc.ext.sent) + ValidationRequests(header, svc.ext.loginServiceUrl)
    ensures var a := Authorization(header, svc.ext.loginServiceUrl, validation);
      a.Ok? && !route.SaveNoteRoute? ==>
        && svc.ext.token == old(svc.ext.token)
        && svc.ext.sent == old(svc.ext.sent) + ValidationRequests(header, svc.ext.loginServiceUrl)
    ensures var a := Authorization(header, svc.ext.loginServiceUrl, validation);
      a.Ok? && route.ListNotesRoute? ==>
        svc.dao.notes == old(svc.dao.notes) &&
        exists r :: Answers(svc.dao.notes, "", route.fault, r) && w.Recorded() == ListResponse(r)
    ensures var a := Authorization(header, svc.ext.loginServiceUrl, validation);
      a.Ok? && route.GetNoteRoute? ==>
        svc.dao.notes == old(svc.dao.notes) &&
        exists r :: Answers(svc.dao.notes, route.id, route.fault, r) && w.Recorded() == NoteResponse(r)
    ensures var a := Authorization(header, svc.ext.loginServiceUrl, validation);
      a.Ok? && route.EditNoteRoute? ==>
        if route.body.Err? then
          w.Recorded() == ErrorResponse(StatusBadRequest, route.body.error) && svc.dao.notes == old(svc.dao.notes)
        else
          && w.Recorded() == ServiceResponse(UpdateError(old(svc.dao.notes), route.id, route.fault), Text(UpdatedMessage(route.id)))
          && svc.dao.notes == AfterUpdate(old(svc.dao.notes), route.id, route.body.value, route.fault)
    ensures var a := Authorization(header, svc.ext.loginServiceUrl, validation);
      a.Ok? && route.CreateNoteRoute? ==>
        if route.body.Err? then
          w.Recorded() == ErrorResponse(StatusBadRequest, route.body.error) && svc.dao.notes == old(svc.dao.notes)
        else
          && w.Recorded() == ServiceResponse(Fault(route.fault), Text(CreatedMessage(Hex(route.freshId))))
          && svc.dao.notes == if route.fault.None? then old(svc.dao.notes)[route.freshId := NewNote(route.body.value, route.freshId, route.now)]
                              else old(svc.dao.notes)
    ensures var a := Authorization(header, svc.ext.loginServiceUrl, validation);
      a.Ok? && route.DeleteNoteRoute? ==>
        && w.Recorded() == ServiceResponse(DeleteError(old(svc.dao.notes), route.id, route.fault), Text(DeletedMessage(route.id)))
        && svc.dao.notes == AfterDelete(old(svc.dao.notes), route.id, route.fault)
    ensures var a := Authorization(header, svc.ext.loginServiceUrl, validation);
      a.Ok? && route.SaveNoteRoute? ==>
        && svc.dao.notes == old(svc.dao.notes)
        && svc.ext.token == a.value
        && var id, fault := route.id, route.fault;
           var checked := old(svc.ext.sent) + ValidationRequests(header, svc.ext.loginServiceUrl);
           && (LookupFilter(id).Err? ==>
                 w.Recorded() == ErrorResponse(StatusInternalServerError, Message(LookupFilter(id).error)) && svc.ext.sent == checked)
           && (LookupFilter(id).Ok? && fault.Some? ==>
                 w.Recorded() == ErrorResponse(StatusInternalServerError, fault.value) && svc.ext.sent == checked)
           && (IndexesEmpty(svc.dao.notes, id, fault) ==> w.Pristine() && svc.ext.sent == checked)
           && (LookupFilter(id).Ok? && fault.None? && !IndexesEmpty(svc.dao.notes, id, fault) ==>
                 && w.Recorded() == ServiceResponse(PostError(svc.ext.contentServiceUrl, "content service url cannot be empty", route.reply), Text(route.confirmation))
                 && exists k :: k in Selected(svc.dao.notes, LookupFilter(id).value) &&
                      svc.ext.sent == checked + Posted(svc.ext.contentServiceUrl, "/upload", "Bearer " + a.value, Form(svc.dao.notes[k])))
  {
    var token := Authorize(svc, w, header, validation);
    if token.None? {
      return;
    }
    match route
    case ListNotesRoute(fault) => ListNotes(svc, w, fault);
    case GetNoteRoute(id, fault) => GetNote(svc, w, id, fault);
    case EditNoteRoute(id, body, fault) => EditNote(svc, w, id, body, fault);
    case CreateNoteRoute(body, freshId, now, fault) => CreateNote(svc, w, body, freshId, now, fault);
    case DeleteNoteRoute(id, fault) => DeleteNote(svc, w, id, fault);
    case SaveNoteRoute(id, fault, reply, confirmation) => SaveNote(svc, w, token.value, id, fault, reply, confirmation);
  }
}
