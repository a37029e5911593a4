/**
 * Sequences of service calls, as a client of the service would make them,
 * over the older copy of the service (no outbound client).
 */
module Scenarios {
  import opened Wrappers
  import opened ObjectIds
  import opened Models
  import opened Store
  import opened Service

  /** Create a note, then get it by the id the service returned: exactly that note comes back. */
  method CreateAndFetch(dao: NoteStore, req: NoteRequest, freshId: ObjectId, now: Timestamp)
    returns (id: string, r: Result<seq<Note>, Errors.Error>)
    requires dao.Valid() && freshId !in dao.notes
    modifies dao
    ensures id == Hex(freshId) && |id| == 24
    ensures r == Ok([Note(freshId, req.name, now, req.text)])
    ensures dao.notes == old(dao.notes)[freshId := Note(freshId, req.name, now, req.text)]
  {
    var svc := new NotesService(dao, null);
    var err;
    id, err := svc.CreateNote(req, freshId, now, None);
    r := svc.GetNotes(id, None);
    CreateThenGet(old(dao.notes), req, freshId, now, r);
  }

  /** Create, delete and get again: the note is gone and the store is as before. */
  method CreateDeleteFetch(dao: NoteStore, req: NoteRequest, freshId: ObjectId, now: Timestamp)
    returns (r: Result<seq<Note>, Errors.Error>)
    requires dao.Valid() && freshId !in dao.notes
    modifies dao
    ensures r == Ok([])
    ensures dao.notes == old(dao.notes)
  {
    var svc := new NotesService(dao, null);
    var id, err := svc.CreateNote(req, freshId, now, None);
    var deleted := svc.DeleteNote(id, None);
    CreateThenDelete(old(dao.notes), req, freshId, now);
    r := svc.GetNotes(id, None);
    AnswersById(dao.notes, id, r);
  }

  /** Updating twice with the same request is the same as updating once. */
  method UpdateTwice(dao: NoteStore, id: string, req: NoteRequest)
    requires dao.Valid()
    modifies dao
    ensures dao.notes == AfterUpdate(old(dao.notes), id, req, None)
  {
    var svc := new NotesService(dao, null);
    var first := svc.UpdateNote(id, req, None);
    ghost var once := dao.notes;
    var second := svc.UpdateNote(id, req, None);
    UpdateScope(old(dao.notes), id, req, None);
    UpdateScope(once, id, req, None);
  }
}
