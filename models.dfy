/** The wire and storage shapes of pkg/models/note.go. */
module Models {
  import opened ObjectIds

  /** An instant (`time.Time`); the model never looks inside it, the caller supplies it. */
  type Timestamp = int

  /** The body accepted on create and update: `{name, text}`. */
  datatype NoteRequest = NoteRequest(name: string, text: string)

  /** A stored note. */
  datatype Note = Note(id: ObjectId, name: string, lastEditedTs: Timestamp, text: string)
}
