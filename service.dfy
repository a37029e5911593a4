/**
 * `NotesService` (pkg/service/service_impl.go; service/service_impl.go is
 * the older copy of its CRUD part, the same class with no outbound client,
 * `ext == null`). Each operation decodes the path id, builds the filter and
 * update documents, and hands them to the store; every error comes back
 * unchanged. The freshly generated id and the clock reading of `CreateNote`
 * are parameters, as are the collaborators' answers.
 */
module Service {
  import opened Wrappers
  import opened Utf8
  import opened Errors
  import opened ObjectIds
  import opened Models
  import opened Store
  import opened UploadName
  import opened External

  /** The filter `GetNotes` queries with: empty for `""`, else the `_id` binding of the decoded id. */
  function LookupFilter(id: string): (r: Result<Filter, Error>)
    ensures id == "" ==> r == Ok(map[])
    ensures id != "" && ObjectIdFromHex(id).Err? ==> r == Err(ObjectIdFromHex(id).error)
    ensures id != "" && ObjectIdFromHex(id).Ok? ==> r == Ok(IdFilter(ObjectIdFromHex(id).value))
  {
    var filter: Filter := map[];
    if id == "" then Ok(filter)
    else match ObjectIdFromHex(id)
      case Err(e) => Err(e)
      case Ok(oid) => Ok(filter[IdField := oid])
  }

  /** The answers `GetNotes` may give over `notes`: the decode error, the store's error, or a listing of the selection. */
  ghost predicate Answers(notes: map<ObjectId, Note>, id: string, fault: Option<string>, r: Result<seq<Note>, Error>) {
    match LookupFilter(id)
    case Err(e) => r == Err(e)
    case Ok(f) =>
      if fault.Some? then r == Err(Failure(fault.value))
      else r.Ok? && Lists(r.value, notes, Selected(notes, f))
  }

  /** `GetNotes("")` answers with every stored note, each once. */
  lemma AnswersAll(notes: map<ObjectId, Note>, r: Result<seq<Note>, Error>)
    requires Answers(notes, "", None, r)
    ensures r.Ok? && Lists(r.value, notes, notes.Keys)
  {
    SelectedAll(notes);
  }

  /** `GetNotes(id)` for a valid id answers with exactly that note, or with nothing. */
  lemma AnswersById(notes: map<ObjectId, Note>, id: string, r: Result<seq<Note>, Error>)
    requires Consistent(notes) && id != "" && ObjectIdFromHex(id).Ok? && Answers(notes, id, None, r)
    ensures var oid := ObjectIdFromHex(id).value;
      r == Ok(if oid in notes then [notes[oid]] else [])
  {
    var oid := ObjectIdFromHex(id).value;
    SelectedById(notes, oid);
    ListsSmall(r.value, notes, Selected(notes, IdFilter(oid)), oid);
  }

  /** An id that does not decode is answered with its decode error, whatever the store holds or would say. */
  lemma AnswersInvalidId(notes: map<ObjectId, Note>, id: string, fault: Option<string>, r: Result<seq<Note>, Error>)
    requires id != "" && ObjectIdFromHex(id).Err? && Answers(notes, id, fault, r)
    ensures r.Err? && r.error.IsIdError() && r == Err(ObjectIdFromHex(id).error)
  {
  }

  /** The `$set` document of `UpdateNote`: name and text, nothing else. */
  function UpdateOf(req: NoteRequest): (u: Update)
    ensures forall n: Note :: Applied(n, u) == n.(name := req.name, text := req.text)
  {
    Set(map["name" := req.name, "text" := req.text])
  }

  /** The error `UpdateNote` returns. */
  function UpdateError(notes: map<ObjectId, Note>, id: string, fault: Option<string>): (r: Option<Error>)
    ensures ObjectIdFromHex(id).Err? <==> r.Some? && r.value.IsIdError()
    ensures r.None? <==> ObjectIdFromHex(id).Ok? && fault.None? && ObjectIdFromHex(id).value in notes
  {
    match ObjectIdFromHex(id)
    case Err(e) => Some(e)
    case Ok(oid) =>
      if fault.Some? then Some(Failure(fault.value))
      else if oid in notes then None
      else Some(NoDocuments)
  }

  /** The store after `UpdateNote`. */
  function AfterUpdate(notes: map<ObjectId, Note>, id: string, req: NoteRequest, fault: Option<string>): (r: map<ObjectId, Note>)
    ensures r.Keys == notes.Keys
    ensures forall k | k in notes && ObjectIdFromHex(id) != Ok(k) :: r[k] == notes[k]
  {
    match ObjectIdFromHex(id)
    case Err(_) => notes
    case Ok(oid) =>
      if fault.None? && oid in notes then notes[oid := Applied(notes[oid], UpdateOf(req))] else notes
  }

  /**
   * `UpdateNote` changes only the name and text of the note with the given
   * id; its id and timestamp stay, every other note stays, and a failed
   * update changes nothing. An id that does not decode fails with its decode
   * error; an id that is not stored fails with "mongo: no documents in result".
   */
  lemma UpdateScope(notes: map<ObjectId, Note>, id: string, req: NoteRequest, fault: Option<string>)
    requires Consistent(notes)
    ensures var after := AfterUpdate(notes, id, req, fault);
      && Consistent(after)
      && after.Keys == notes.Keys
      && (UpdateError(notes, id, fault).Some? ==> after == notes)
      && (UpdateError(notes, id, fault).None? ==>
            var oid := ObjectIdFromHex(id).value;
            && after[oid] == Note(oid, req.name, notes[oid].lastEditedTs, req.text)
            && forall k | k in notes && k != oid :: after[k] == notes[k])
    ensures ObjectIdFromHex(id).Err? ==> UpdateError(notes, id, fault) == Some(ObjectIdFromHex(id).error)
    ensures ObjectIdFromHex(id).Err? ==> UpdateError(notes, id, fault).value.IsIdError()
    ensures ObjectIdFromHex(id).Ok? && fault.Some? ==> UpdateError(notes, id, fault) == Some(Failure(fault.value))
    ensures ObjectIdFromHex(id).Ok? && fault.None? ==>
      (UpdateError(notes, id, fault).None? <==> ObjectIdFromHex(id).value in notes)
    ensures UpdateError(notes, id, fault).Some? && ObjectIdFromHex(id).Ok? && fault.None? ==>
      Message(UpdateError(notes, id, fault).value) == "mongo: no documents in result"
  {
  }

  /** The error `DeleteNote` returns. */
  function DeleteError(notes: map<ObjectId, Note>, id: string, fault: Option<string>): (r: Option<Error>)
    ensures ObjectIdFromHex(id).Err? <==> r.Some? && r.value.IsIdError()
    ensures r.None? <==> ObjectIdFromHex(id).Ok? && fault.None? && ObjectIdFromHex(id).value in notes
  {
    match ObjectIdFromHex(id)
    case Err(e) => Some(e)
    case Ok(oid) =>
      if fault.Some? then Some(Failure(fault.value))
      else if oid in notes then None
      else Some(NoNotesDeleted)
  }

  /** The store after `DeleteNote`. */
  function AfterDelete(notes: map<ObjectId, Note>, id: string, fault: Option<string>): (r: map<ObjectId, Note>)
    ensures r.Keys <= notes.Keys && forall k | k in r :: r[k] == notes[k]
    ensures forall k | k in notes && ObjectIdFromHex(id) != Ok(k) :: k in r
  {
    match ObjectIdFromHex(id)
    case Err(_) => notes
    case Ok(oid) => if fault.None? && oid in notes then notes - {oid} else notes
  }

  /**
   * `DeleteNote` removes exactly the note with the given id and leaves
   * the rest; it fails without touching the store on an id that does not
   * decode, returns the store's error verbatim, and fails with
   * "no notes were deleted" when no note has that id.
   */
  lemma DeleteScope(notes: map<ObjectId, Note>, id: string, fault: Option<string>)
    requires Consistent(notes)
    ensures var after := AfterDelete(notes, id, fault);
      && Consistent(after)
      && (DeleteError(notes, id, fault).Some? ==> after == notes)
      && (DeleteError(notes, id, fault).None? ==>
            var oid := ObjectIdFromHex(id).value;
            oid in notes && after.Keys == notes.Keys - {oid} && forall k | k in after :: after[k] == notes[k])
    ensures ObjectIdFromHex(id).Err? ==> DeleteError(notes, id, fault) == Some(ObjectIdFromHex(id).error)
    ensures ObjectIdFromHex(id).Err? ==> DeleteError(notes, id, fault).value.IsIdError()
    ensures ObjectIdFromHex(id).Ok? && fault.Some? ==> DeleteError(notes, id, fault) == Some(Failure(fault.value))
    ensures ObjectIdFromHex(id).Ok? && fault.None? && ObjectIdFromHex(id).value !in notes ==>
      Message(DeleteError(notes, id, fault).value) == "no notes were deleted"
    ensures DeleteError(notes, id, fault).None? <==>
      ObjectIdFromHex(id).Ok? && fault.None? && ObjectIdFromHex(id).value in notes
  {
  }

  /** The note `CreateNote` stores: the request's name and text under the fresh id, stamped `now`. */
  function NewNote(req: NoteRequest, freshId: ObjectId, now: Timestamp): (n: Note)
    ensures n.id == freshId && n.lastEditedTs == now
    ensures n.name == req.name && n.text == req.text
  {
    Note(freshId, req.name, now, req.text)
  }

  /**
   * Create, then look up by the returned id: the id string decodes to the
   * fresh id, and the lookup answers with exactly the new note, which
   * carries the request's name and text.
   */
  lemma CreateThenGet(notes: map<ObjectId, Note>, req: NoteRequest, freshId: ObjectId, now: Timestamp, r: Result<seq<Note>, Error>)
    requires Consistent(notes) && freshId !in notes
    requires Answers(notes[freshId := NewNote(req, freshId, now)], Hex(freshId), None, r)
    ensures ObjectIdFromHex(Hex(freshId)) == Ok(freshId)
    ensures r == Ok([Note(freshId, req.name, now, req.text)])
  {
    HexRoundTrip(freshId);
    AnswersById(notes[freshId := NewNote(req, freshId, now)], Hex(freshId), r);
  }

  /** Create, then delete by the returned id: the store is back where it was. */
  lemma CreateThenDelete(notes: map<ObjectId, Note>, req: NoteRequest, freshId: ObjectId, now: Timestamp)
    requires Consistent(notes) && freshId !in notes
    ensures var created := notes[freshId := NewNote(req, freshId, now)];
      DeleteError(created, Hex(freshId), None).None? && AfterDelete(created, Hex(freshId), None) == notes
  {
    HexRoundTrip(freshId);
    var created := notes[freshId := NewNote(req, freshId, now)];
    assert AfterDelete(created, Hex(freshId), None) == created - {freshId};
  }

  /** The form `SendToContentService` uploads for a note: a single part named `file`, a `.txt` name without spaces, and the text's bytes. */
  function Form(n: Note): (r: seq<Part>)
    ensures |r| == 1 && r[0].field == "file"
    ensures var name := r[0].fileName; |name| >= 4 && name[|name| - 4..] == ".txt" && ' ' !in name
    ensures r[0].content == Utf8.Encode(n.text)
  {
    [Part("file", UploadFileName(n.name), Utf8.Encode(n.text))]
  }

  /** An ASCII text is uploaded as its own character codes, one byte each. */
  lemma FormShape(n: Note)
    requires IsAscii(n.text)
    ensures |Form(n)[0].content| == |n.text|
    ensures forall i | 0 <= i < |n.text| :: Form(n)[0].content[i] == n.text[i] as int
  {
    EncodeAscii(n.text);
  }

  /**
   * `notes[0]` is unguarded: when the lookup succeeds but selects nothing
   * (an id that is not stored, or `""` over an empty store), indexing the
   * empty listing panics.
   */
  predicate IndexesEmpty(notes: map<ObjectId, Note>, id: string, fault: Option<string>) {
    LookupFilter(id).Ok? && fault.None? && Selected(notes, LookupFilter(id).value) == {}
  }

  /** A well-formed id with no stored note makes the upload panic. */
  lemma MissingNotePanics(notes: map<ObjectId, Note>, id: string)
    requires Consistent(notes) && id != "" && ObjectIdFromHex(id).Ok? && ObjectIdFromHex(id).value !in notes
    ensures IndexesEmpty(notes, id, None)
  {
    SelectedById(notes, ObjectIdFromHex(id).value);
  }

  /** So does `""` on an empty store. */
  lemma EmptyStorePanics()
    ensures IndexesEmpty(map[], "", None)
  {
  }

  class NotesService {
    const dao: NoteStore
    /** The outbound client; `null` for the older copy of the service, which has none. */
    const ext: ExtApi?

    ghost predicate Valid()
      reads this, dao
    {
      dao.Valid()
    }

    constructor (dao: NoteStore, ext: ExtApi?)
      ensures this.dao == dao && this.ext == ext
    {
      this.dao := dao;
      this.ext := ext;
    }

    /** `Ping`: exactly the store's ping result. */
    method Ping(fault: Option<string>) returns (err: Option<Error>)
      ensures err == Fault(fault)
    {
      err := dao.Ping(fault);
    }

    /** `GetNotes`: build the filter, in place, from the id, then query. */
    method GetNotes(id: string, fault: Option<string>) returns (r: Result<seq<Note>, Error>)
      requires Valid()
      ensures Answers(dao.notes, id, fault, r)
    {
      var filter: Filter := map[];
      if id != "" {
        var decoded := ObjectIdFromHex(id);
        if decoded.Err? {
          return Err(decoded.error);
        }
        filter := filter[IdField := decoded.value];
      }
      r := dao.Find(filter, fault);
    }

    /** `UpdateNote`: `$set` the name and text of the note with the decoded id. */
    method UpdateNote(id: string, req: NoteRequest, fault: Option<string>) returns (err: Option<Error>)
      requires Valid()
      modifies dao
      ensures Valid()
      ensures err == UpdateError(old(dao.notes), id, fault)
      ensures dao.notes == AfterUpdate(old(dao.notes), id, req, fault)
    {
      var decoded := ObjectIdFromHex(id);
      if decoded.Err? {
        return Some(decoded.error);
      }
      var filter := map[IdField := decoded.value];
      var updates := UpdateOf(req);
      SelectedById(dao.notes, decoded.value);
      err := dao.UpdateOne(filter, updates, fault);
    }

    /** `DeleteNote`: delete the note with the decoded id. */
    method DeleteNote(id: string, fault: Option<string>) returns (err: Option<Error>)
      requires Valid()
      modifies dao
      ensures Valid()
      ensures err == DeleteError(old(dao.notes), id, fault)
      ensures dao.notes == AfterDelete(old(dao.notes), id, fault)
    {
      var decoded := ObjectIdFromHex(id);
      if decoded.Err? {
        return Some(decoded.error);
      }
      var filter := map[IdField := decoded.value];
      SelectedById(dao.notes, decoded.value);
      err := dao.DeleteOne(filter, fault);
    }

    /** `CreateNote`: store a new note under a fresh id; answer its hex form, or `""` with the store's error. */
    method CreateNote(req: NoteRequest, freshId: ObjectId, now: Timestamp, fault: Option<string>)
      returns (id: string, err: Option<Error>)
      requires Valid() && freshId !in dao.notes
      modifies dao
      ensures Valid()
      ensures err == Fault(fault)
      ensures err.Some? ==> id == "" && dao.notes == old(dao.notes)
      ensures err.None? ==> id == Hex(freshId) && dao.notes == old(dao.notes)[freshId := NewNote(req, freshId, now)]
    {
      var note := Note(freshId, req.name, now, req.text);
      err := dao.InsertOne(note, fault);
      if err.Some? {
        return "", err;
      }
      id := Hex(freshId);
    }

    /**
     * `SendToContentService`: look the note up, write it as the form file of
     * a multipart body, and post the body to the content service. A failed
     * lookup returns its error and sends nothing; a lookup that finds no note
     * panics (`panicked`) before anything is sent.
     */
    method SendToContentService(id: string, fault: Option<string>, reply: Reply) returns (err: Option<Error>, panicked: bool)
      requires Valid() && ext != null
      modifies ext
      ensures ext.token == old(ext.token)
      ensures panicked <==> IndexesEmpty(dao.notes, id, fault)
      ensures panicked ==> err.None? && ext.sent == old(ext.sent)
      ensures LookupFilter(id).Err? ==> err == Some(LookupFilter(id).error) && ext.sent == old(ext.sent)
      ensures LookupFilter(id).Ok? && fault.Some? ==> err == Some(Failure(fault.value)) && ext.sent == old(ext.sent)
      ensures LookupFilter(id).Ok? && fault.None? && !panicked ==>
        && err == PostError(ext.contentServiceUrl, "content service url cannot be empty", reply)
        && exists k :: k in Selected(dao.notes, LookupFilter(id).value) &&
             ext.sent == old(ext.sent) + Posted(ext.contentServiceUrl, "/upload", "Bearer " + ext.token, Form(dao.notes[k]))
    {
      var found := GetNotes(id, fault);
      if found.Err? {
        return Some(found.error), false;
      }
      var notes := found.value;
      assert notes != [] ==> notes[0].id in Ids(notes);
      if |notes| == 0 {
        return None, true;
      }
      var note := notes[0];

      var writer := new MultipartWriter();
      var fileName := UploadFileName(note.name);
      writer.CreateFormFile("file", fileName);
      writer.Write(Utf8.Encode(note.text));
      writer.Close();
      var content := Utf8.Encode(note.text);
      assert [] + content == content;
      assert writer.parts == [Part("file", fileName, [] + content)];

      err := ext.SendToContentService(writer.parts, reply);
      panicked := false;
    }

    /** `ValidateToken`: the outbound client's verdict on the token. */
    method ValidateToken(token: string, reply: Reply) returns (err: Option<Error>)
      requires ext != null
      modifies ext
      ensures err == PostError(ext.loginServiceUrl, "login service url cannot be empty", reply)
      ensures ext.sent == old(ext.sent) + Posted(ext.loginServiceUrl, "/token", "Bearer " + token, [])
      ensures ext.token == old(ext.token)
    {
      err := ext.ValidateToken(token, reply);
    }

    /** `SetToken`: the token the next uploads carry. */
    method SetToken(token: string)
      requires ext != null
      modifies ext
      ensures ext.token == token && ext.sent == old(ext.sent)
    {
      ext.SetToken(token);
    }
  }
}
