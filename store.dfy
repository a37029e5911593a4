/**
 * The note store behind the data-access layer (dao/dao_impl.go and the
 * NoteDaoHandler interface of pkg/dao/dao.go): a collection of notes keyed
 * by `_id`. Filters and update documents are the maps the service builds.
 * A call's driver failure is a parameter, `fault`.
 */
module Store {
  import opened Wrappers
  import opened Errors
  import opened ObjectIds
  import opened Models

  /** The primary-key field of a stored note. */
  const IdField := "_id"

  /** A query filter: field name to the id it must equal. The empty filter matches everything. */
  type Filter = map<string, ObjectId>

  /** An update document `{"$set": fields}`. */
  datatype Update = Set(fields: map<string, string>)

  /** The filter that matches the note with id `id`. */
  function IdFilter(id: ObjectId): (f: Filter)
    ensures forall n: Note :: Matches(n, f) <==> n.id == id
  {
    var f := map[IdField := id];
    assert IdField in f;
    f
  }

  /** A note matches when every binding of the filter is its `_id`; a binding of any other field holds an id, which no string field equals. */
  predicate Matches(n: Note, f: Filter) {
    forall field | field in f :: field == IdField && f[field] == n.id
  }

  /** Every stored note sits under its own id. */
  predicate Consistent(m: map<ObjectId, Note>) {
    forall k | k in m :: m[k].id == k
  }

  /** The keys of the notes a filter matches. */
  function Selected(m: map<ObjectId, Note>, f: Filter): (keys: set<ObjectId>)
    ensures keys <= m.Keys
  {
    set k | k in m && Matches(m[k], f)
  }

  /** `$set` applied to a note: only `name` and `text` can be set; the id and the timestamp stay. */
  function Applied(n: Note, u: Update): (r: Note)
    ensures r.id == n.id && r.lastEditedTs == n.lastEditedTs
    ensures r.name == (if "name" in u.fields then u.fields["name"] else n.name)
    ensures r.text == (if "text" in u.fields then u.fields["text"] else n.text)
  {
    n.(name := if "name" in u.fields then u.fields["name"] else n.name,
       text := if "text" in u.fields then u.fields["text"] else n.text)
  }

  /** The ids of the notes of a listing. */
  ghost function Ids(r: seq<Note>): set<ObjectId> {
    set i | 0 <= i < |r| :: r[i].id
  }

  /** `r` lists the notes of `m` under `keys`, each once, in some order. */
  ghost predicate Lists(r: seq<Note>, m: map<ObjectId, Note>, keys: set<ObjectId>) {
    && (forall i | 0 <= i < |r| :: r[i].id in m && m[r[i].id] == r[i])
    && (forall i, j | 0 <= i < j < |r| :: r[i].id != r[j].id)
    && Ids(r) == keys
  }

  lemma IdsAppend(r: seq<Note>, n: Note)
    ensures Ids(r + [n]) == Ids(r) + {n.id}
  {
    var s := r + [n];
    forall x | x in Ids(s) ensures x in Ids(r) + {n.id} {
      var i :| 0 <= i < |s| && s[i].id == x;
      if i < |r| { assert r[i].id == x; }
    }
    forall x | x in Ids(r) ensures x in Ids(s) {
      var i :| 0 <= i < |r| && r[i].id == x;
      assert s[i].id == x;
    }
    assert s[|r|].id == n.id;
  }

  /** The empty filter selects every stored note. */
  lemma SelectedAll(m: map<ObjectId, Note>)
    ensures Selected(m, map[]) == m.Keys
  {
  }

  /** The `_id` filter selects at most that note. */
  lemma SelectedById(m: map<ObjectId, Note>, id: ObjectId)
    requires Consistent(m)
    ensures Selected(m, IdFilter(id)) == if id in m then {id} else {}
  {
    var f := IdFilter(id);
    forall k | k in m ensures Matches(m[k], f) <==> k == id {
      assert IdField in f;
    }
  }

  /** A listing of one key is that note; a listing of none is empty. */
  lemma ListsSmall(r: seq<Note>, m: map<ObjectId, Note>, keys: set<ObjectId>, id: ObjectId)
    requires Lists(r, m, keys) && keys <= {id} && (id in keys ==> id in m)
    ensures r == if id in keys then [m[id]] else []
  {
    assert |r| > 1 ==> r[0].id != r[1].id;
    forall i | 0 <= i < |r| ensures r[i].id == id {
      assert r[i].id in Ids(r);
    }
    assert |r| > 0 ==> r[0].id in Ids(r) && r[0] == m[id];
    assert id in keys ==> exists i :: 0 <= i < |r| && r[i].id == id;
  }

  /** Every selected note appears in a listing of the selection. */
  lemma ListsCovers(r: seq<Note>, m: map<ObjectId, Note>, keys: set<ObjectId>, k: ObjectId)
    requires Lists(r, m, keys) && k in keys
    ensures exists i :: 0 <= i < |r| && r[i].id == k
  {
  }

  /** The data-access object over a collection of notes. */
  class NoteStore {
    var notes: map<ObjectId, Note>

    ghost predicate Valid()
      reads this
    {
      Consistent(notes)
    }

    constructor (initial: map<ObjectId, Note>)
      requires Consistent(initial)
      ensures Valid() && notes == initial
    {
      notes := initial;
    }

    /** `Ping`: the driver's answer to a primary-read ping. */
    method Ping(fault: Option<string>) returns (err: Option<Error>)
      ensures err == Fault(fault)
    {
      err := Fault(fault);
    }

    /** `GetNotes`: every note the filter matches, each once, in unspecified order. */
    method Find(filter: Filter, fault: Option<string>) returns (r: Result<seq<Note>, Error>)
      requires Valid()
      ensures fault.Some? ==> r == Err(Failure(fault.value))
      ensures fault.None? ==> r.Ok? && Lists(r.value, notes, Selected(notes, filter))
    {
      if fault.Some? {
        return Err(Failure(fault.value));
      }
      var keys := Selected(notes, filter);
      var pending := keys;
      var found: seq<Note> := [];
      // drain the cursor one document at a time
      while pending != {}
        invariant pending <= keys
        invariant Lists(found, notes, keys - pending)
        decreases pending
      {
        var k :| k in pending;
        IdsAppend(found, notes[k]);
        found := found + [notes[k]];
        pending := pending - {k};
      }
      return Ok(found);
    }

    /** `UpdateNote` (FindOneAndUpdate): apply the update to one matching note; no match is an error. */
    method UpdateOne(filter: Filter, u: Update, fault: Option<string>) returns (err: Option<Error>)
      requires Valid()
      modifies this
      ensures Valid()
      ensures fault.Some? ==> err == Some(Failure(fault.value)) && notes == old(notes)
      ensures fault.None? && Selected(old(notes), filter) == {} ==> err == Some(NoDocuments) && notes == old(notes)
      ensures fault.None? && Selected(old(notes), filter) != {} ==>
        err.None? && exists k :: k in Selected(old(notes), filter) && notes == old(notes)[k := Applied(old(notes)[k], u)]
    {
      if fault.Some? {
        return Some(Failure(fault.value));
      }
      var keys := Selected(notes, filter);
      if keys == {} {
        return Some(NoDocuments);
      }
      var k :| k in keys;
      notes := notes[k := Applied(notes[k], u)];
      err := None;
    }

    /** `DeleteNote` (DeleteOne): remove one matching note; removing none is an error. */
    method DeleteOne(filter: Filter, fault: Option<string>) returns (err: Option<Error>)
      requires Valid()
      modifies this
      ensures Valid()
      ensures fault.Some? ==> err == Some(Failure(fault.value)) && notes == old(notes)
      ensures fault.None? && Selected(old(notes), filter) == {} ==> err == Some(NoNotesDeleted) && notes == old(notes)
      ensures fault.None? && Selected(old(notes), filter) != {} ==>
        err.None? && exists k :: k in Selected(old(notes), filter) && notes == old(notes) - {k}
    {
      if fault.Some? {
        return Some(Failure(fault.value));
      }
      var keys := Selected(notes, filter);
      if keys == {} {
        return Some(NoNotesDeleted);
      }
      var k :| k in keys;
      notes := notes - {k};
      err := None;
    }

    /** `CreateNote` (InsertOne): store the note under its id; an id already present is a duplicate key. */
    method InsertOne(note: Note, fault: Option<string>) returns (err: Option<Error>)
      requires Valid()
      modifies this
      ensures Valid()
      ensures fault.Some? ==> err == Some(Failure(fault.value)) && notes == old(notes)
      ensures fault.None? && note.id in old(notes) ==> err == Some(DuplicateKey) && notes == old(notes)
      ensures fault.None? && note.id !in old(notes) ==> err.None? && notes == old(notes)[note.id := note]
    {
      if fault.Some? {
        return Some(Failure(fault.value));
      }
      if note.id in notes {
        return Some(DuplicateKey);
      }
      notes := notes[note.id := note];
      err := None;
    }
  }
}
