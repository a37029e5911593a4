# notes-api: a Dafny model of the note-orchestration layer

notes-api is a small HTTP service that keeps named text notes in a document
store. It can also forward a note to an external content service as a
multipart file upload, with callers authenticated by a login service. This
project models the layer where the service's concerns meet:

- **Id codec** (`object_id.dfy`): `primitive.ObjectIDFromHex` and `ObjectID.Hex`.
  - Base16 as in section 8 of RFC 4648, read in either case, over the UTF-8
    bytes of a well-formed string (`utf8.dfy`), and restricted to exactly
    12 bytes.
  - The errors are Go's: the first invalid byte in byte order, then an odd
    length, then a length other than 12 bytes. `errors.dfy` gives each error
    its `err.Error()` text.
- **Note store** (`store.dfy`): a `NoteStore` class over `map<ObjectId, Note>`,
  standing for the data-access object.
  - Filters bind `_id` and update documents are `$set` maps.
  - `Find` drains the matching notes one at a time, in unspecified order;
    it stands for the cursor.
  - A delete that removes nothing is an error, and so is an update that
    matches nothing.
- **NotesService** (`service.dfy`): one class that serves both copies.
  - It is pkg/service/service_impl.go when it has an outbound client, and
    service/service_impl.go when it has none (`ext == null`).
  - Each operation is proved against specification functions of the old
    store (`Answers`, `UpdateError`/`AfterUpdate`, `DeleteError`/`AfterDelete`).
    Lemmas state what those functions promise.
- **Upload** (`upload_name.dfy`, `external.dfy`):
  - The filename derivation: strip spaces, drop the last extension as
    `filepath.Ext` finds it, then append `.txt`.
  - The multipart writer, as the parts it has written.
  - The outbound client, as the requests it has sent.
- **HTTP surface** (`api.dfy`).
  - Pure decision functions map a service result to a
    `Response(status, contentType, body)`.
  - Handler methods write that response through a `ResponseWriter` class
    that records the Content-Type header, the status and the body.
  - The authorization step of the newer handlers
    (`BearerToken`, `Authorization`, `Authorize`, `Serve`) follows what
    pkg/api/api_test.go asserts.
- **Scenarios** (`scenarios.dfy`): short sequences of service calls.

Inputs the program takes from its environment are parameters:

- each collaborator's answer to a call: `fault: Option<string>` for the
  store, `Reply` for `Client.Do`;
- the fresh id and the clock reading of `CreateNote`;
- the decoded request body, or the decoder's error text.

Four behaviours of the code that a reader might not expect:

- A malformed id in `GET /note/{id}`, edit and delete is a 500 carrying the
  decoder's message, not a 400 (api/api.go:112-116, 145-149 and 185-189;
  `Api.GetNoteInvalidId`, `Api.EditNote`, `Api.DeleteNote`).
- `SetToken` is called only on the save route (pkg/api/api_test.go:521-553).
  The tests of the other routes give the service mock no `SetToken`
  expectation (`Api.Serve`).
- The id decoder checks the hex digits before the length. So `"test"` fails
  with `encoding/hex: invalid byte: U+0074 't'` (pkg/service/service_test.go:39-46),
  not with the ObjectID length error (`ObjectIds.RejectsTest`).
- The upload indexes `notes[0]` without a guard
  (pkg/service/service_impl.go:100-104). A well-formed id that matches no
  note, or `""` over an empty store, makes it panic before anything is sent,
  and the save route then writes no response
  (`Service.NotesService.SendToContentService`, `Api.SaveNote`).

## Model

| member | source | states |
|---|---|---|
| Utf8.EncodeChar | pkg/service/service_impl.go:121 | a code point below 0x80 is one byte equal to it; every byte of a longer encoding is at least 0x80 |
| Utf8.Encode | pkg/service/service_impl.go:121 | `[]byte(s)`: between one and four bytes per character |
| Utf8.EncodeAppend | pkg/service/service_impl.go:121 | the encoding of a concatenation is the concatenation of the encodings |
| Utf8.EncodeAscii | pkg/service/service_impl.go:121 | an ASCII string encodes to one byte per character, each its code point |
| Utf8.EncodeAt | pkg/service/service_impl.go:33 | after an ASCII prefix, byte i of the encoding is the first byte of character i |
| Errors.Fault | dao/dao_impl.go:46-49 | a collaborator's answer is no error exactly when it reports none; otherwise its text, verbatim |
| Errors.GoUnicode | pkg/service/service_test.go:39-46 | `%#U` of a byte: `U+00` and two digits, then the quoted character exactly when it is printable |
| Errors.GoUnicodeInjective | pkg/service/service_test.go:39-46 | the rendering determines the byte: distinct invalid bytes give distinct messages |
| Errors.Message | pkg/service/service_test.go:39-46 | each error's `Error()` text; only a verbatim collaborator error can be empty; an invalid byte reads `encoding/hex: invalid byte...` |
| ObjectIds.HexValue | pkg/service/service_impl.go:33 | the value of a hex digit of either case, below 16 |
| ObjectIds.LowerDigit | pkg/service/service_impl.go:94 | the lower-case digit of a value decodes back to that value |
| ObjectIds.ToLowerString | pkg/service/service_impl.go:94 | lower-cases letters position by position, keeping the length |
| ObjectIds.DecodeHex | pkg/service/service_impl.go:33 | `hex.DecodeString`: succeeds exactly on even-length all-hex input, giving half as many bytes; fails only with an invalid byte or an odd length |
| ObjectIds.HexEncode | pkg/service/service_impl.go:94 | two lower-case hex digits per byte |
| ObjectIds.ObjectIdFromHex | pkg/service/service_impl.go:33-36 | every failure is one of the id errors |
| ObjectIds.Hex | pkg/service/service_impl.go:94 | `id.Hex()` is 24 lower-case hex digits |
| ObjectIds.DecodeHexFirstInvalid | pkg/service/service_impl.go:33-36 | hex decoding reports the first non-hex byte, even when the length is also odd |
| ObjectIds.DecodeHexEncode | pkg/service/service_impl.go:94 | decoding the encoding of any bytes gives those bytes back |
| ObjectIds.EncodeDecodeHex | pkg/service/service_impl.go:33 | re-encoding decoded hex gives the input digit by digit, in lower case |
| ObjectIds.HexStringIsAscii | pkg/service/service_impl.go:33 | a string of hex digits is ASCII |
| ObjectIds.HexBytesHexString | pkg/service/service_impl.go:33 | a string whose UTF-8 bytes are all hex digits consists of hex digits |
| ObjectIds.ObjectIdFromHexAccepts | pkg/service/service_impl.go:33-36 | an id string is accepted if and only if it is 24 hex digits of either case |
| ObjectIds.ObjectIdFromHexFirstInvalid | pkg/service/service_test.go:39-46 | a string with a non-hex character fails on the first byte of the first such character |
| ObjectIds.ObjectIdFromHexLength | pkg/service/service_impl.go:33-36 | hex of odd length fails as odd length; of even length other than 24, as not an ObjectID |
| ObjectIds.OddHexLength | pkg/service/service_impl.go:33 | all-hex input of odd length fails with the odd-length error |
| ObjectIds.HexRoundTrip | pkg/service/service_impl.go:80-94 | decoding the hex of any id gives the id |
| ObjectIds.ObjectIdFromHexRoundTrip | pkg/service/service_impl.go:33 | an accepted id string re-encodes to its own lower-case form |
| ObjectIds.HexInjective | pkg/service/service_impl.go:94 | distinct ids have distinct hex strings |
| ObjectIds.RejectsTest | pkg/service/service_test.go:39-46 | `"test"` fails on its first byte, `t` |
| ObjectIds.AcceptsZeroId | pkg/service/service_test.go:91 | twenty-four zeros decode to the all-zero id |
| Store.IdFilter | pkg/service/service_impl.go:37 | the `_id` filter matches a note exactly when the note has that id |
| Store.Selected | dao/dao_impl.go:23-35 | the notes a filter selects are stored notes |
| Store.Applied | pkg/service/service_impl.go:53-58 | a `$set` changes name and text when given, and never the id or the timestamp |
| Store.IdsAppend | dao/dao_impl.go:29-31 | appending a note to a listing adds its id |
| Store.SelectedAll | pkg/service/service_impl.go:30 | the empty filter selects every note |
| Store.SelectedById | pkg/service/service_impl.go:37 | the `_id` filter selects that note if it is stored, otherwise none |
| Store.ListsSmall | pkg/service/service_impl.go:37 | a listing of at most one key is that note or empty |
| Store.ListsCovers | dao/dao_impl.go:29-34 | every selected note appears in the listing |
| Store.NoteStore.Ping | dao/dao_impl.go:19-21 | the ping's answer, verbatim |
| Store.NoteStore.Find | dao/dao_impl.go:23-35 | a driver error verbatim, or each selected note exactly once and nothing else |
| Store.NoteStore.UpdateOne | dao/dao_impl.go:37-44 | `$set` applied to a matching note and nothing else changed; no match is "mongo: no documents in result" with the store unchanged |
| Store.NoteStore.DeleteOne | dao/dao_impl.go:46-54 | one matching note removed and the rest kept; removing none is "no notes were deleted" |
| Store.NoteStore.InsertOne | dao/dao_impl.go:56-63 | the note stored under its id, or the driver's error with the store unchanged |
| UploadName.RemoveSpaces | pkg/service/service_impl.go:109 | the result has no space; a name without spaces is unchanged |
| UploadName.RemoveSpacesKeeps | pkg/service/service_impl.go:109 | every character other than a space is kept, and nothing else appears |
| UploadName.RemoveSpacesAppend | pkg/service/service_impl.go:109 | removing spaces distributes over concatenation |
| UploadName.ExtensionStart | pkg/service/service_impl.go:110 | the extension starts at the last dot with no dot or slash after it; without such a dot, every dot is followed by a slash |
| UploadName.Ext | pkg/service/service_impl.go:110 | `filepath.Ext`: a suffix that is empty or starts with its only dot and has no slash; empty only when every dot has a slash after it |
| UploadName.UploadFileName | pkg/service/service_impl.go:109-114 | the filename ends in `.txt` and contains no space |
| UploadName.ReplacesLastExtension | pkg/service/service_impl.go:110-114 | only the last extension is replaced by `.txt` |
| UploadName.UploadFileNameIdempotent | pkg/service/service_impl.go:109-114 | deriving the filename twice gives the same result as deriving it once |
| UploadName.UploadFileNameIgnoresSpaces | pkg/service/service_impl.go:109 | removing spaces first does not change the filename |
| UploadName.DotlessName | pkg/service/service_impl.go:109-114 | a name without a dot becomes its spaceless self plus `.txt` |
| UploadName.DraftExample | pkg/service/service_impl.go:110-114 | `draft.v2.md` becomes `draft.v2.txt` |
| UploadName.EmptyNameExample | pkg/service/service_impl.go:114 | the empty name becomes `.txt` |
| UploadName.SameWithoutSpaces | pkg/service/service_impl.go:109 | names equal once spaces are removed get the same filename |
| UploadName.RemoveOneSpace | pkg/service/service_impl.go:109 | a single space between two space-free parts goes |
| UploadName.SpacedDotlessName | pkg/service/service_impl.go:109-114 | `my note` becomes `mynote.txt` |
| UploadName.SpacedExtension | pkg/service/service_impl.go:109-114 | `my file.md` becomes `myfile.txt`, and `foo .txt` becomes `foo.txt` |
| External.Decimal | pkg/external/external_impl.go:44 | the status code in decimal digits |
| External.DecimalValue | pkg/external/external_impl.go:44 | the decimal text reads back as the code, so distinct codes give distinct messages |
| External.TeapotReply | pkg/external/external_test.go:48-59 | status 418 gives "non-200 status code received: 418" |
| External.ReplyError | pkg/external/external_impl.go:38-47 | only a 200 succeeds; a transport error is kept verbatim; any other status is named in the message |
| External.PostError | pkg/external/external_impl.go:27-29 | an unset base URL fails before any request, otherwise the reply decides |
| External.Posted | pkg/external/external_impl.go:55-63 | a request goes out exactly when the base URL is set |
| External.MultipartWriter.CreateFormFile | pkg/service/service_impl.go:116-119 | appends a new empty part with the field and file name |
| External.MultipartWriter.Write | pkg/service/service_impl.go:121-123 | appends the bytes to the current part and leaves the others |
| External.MultipartWriter.Close | pkg/service/service_impl.go:125-127 | the parts are final |
| External.ExtApi.SetToken | pkg/external/external_impl.go:22-24 | stores the token and sends nothing |
| External.ExtApi.ValidateToken | pkg/external/external_impl.go:26-48 | POST to `/token` with `Bearer <token>` when the login URL is set; the error as the reply makes it |
| External.ExtApi.SendToContentService | pkg/external/external_impl.go:50-73 | POST of the form to `/upload`, carrying the stored token, when the content URL is set |
| Service.LookupFilter | pkg/service/service_impl.go:30-38 | `""` gives the empty filter; any other id gives its decode error, or a filter whose only binding is `_id` |
| Service.AnswersAll | pkg/service/service_impl.go:29-41 | `GetNotes("")` lists every stored note, each once |
| Service.AnswersById | pkg/service/service_impl.go:32-40 | `GetNotes` with a valid id gives exactly `[that note]`, or `[]` when it is not stored |
| Service.AnswersInvalidId | service/service_impl.go:23-27 | an undecodable id is answered with its decode error; the store's state and answer play no part |
| Service.UpdateScope | pkg/service/service_impl.go:43-61 | update changes only the name and text of the matched note, keeps its id and timestamp and all other notes; errors leave the store unchanged |
| Service.DeleteScope | pkg/service/service_impl.go:63-78 | delete removes exactly the matching note; an invalid id, a store error or no match fails with the store unchanged |
| Service.CreateThenGet | pkg/service/service_impl.go:80-94 | the returned id decodes to the fresh id, and looking it up gives exactly the new note with the request's name and text |
| Service.CreateThenDelete | pkg/service/service_impl.go:63-94 | deleting by the id create returned succeeds and restores the store |
| Service.UpdateOf | pkg/service/service_impl.go:53-58 | applying the `$set` document to any note sets its name and text to the request's and changes nothing else |
| Service.UpdateError | pkg/service/service_impl.go:43-60 | the error is an id error exactly when the id does not decode; no error exactly when the id decodes, the store reports nothing and the note is stored |
| Service.AfterUpdate | pkg/service/service_impl.go:43-60 | the same keys as before; every note other than the addressed one is unchanged |
| Service.DeleteError | pkg/service/service_impl.go:63-78 | the error is an id error exactly when the id does not decode; no error exactly when the id decodes, the store reports nothing and the note is stored |
| Service.AfterDelete | pkg/service/service_impl.go:63-78 | only notes that were stored remain, unchanged; every note other than the addressed one remains |
| Service.NewNote | pkg/service/service_impl.go:81-88 | the note carries the fresh id, the clock reading and the request's name and text |
| Service.Form | pkg/service/service_impl.go:106-123 | the upload form is one `file` part with a spaceless `.txt` name and the text's UTF-8 bytes |
| Service.FormShape | pkg/service/service_impl.go:121 | an ASCII text is uploaded as its own character codes, one byte each |
| Service.MissingNotePanics | pkg/service/service_impl.go:100-104 | a well-formed id with no stored note leaves the upload indexing an empty listing |
| Service.EmptyStorePanics | pkg/service/service_impl.go:100-104 | so does `""` over an empty store |
| Service.NotesService.Ping | service/service_impl.go:16-18 | exactly the store's ping result |
| Service.NotesService.GetNotes | pkg/service/service_impl.go:29-41 | the filter is built from the id, then the store is queried; the answer is one that `Answers` allows |
| Service.NotesService.UpdateNote | pkg/service/service_impl.go:43-61 | the error and the new store are `UpdateError` and `AfterUpdate` of the old store |
| Service.NotesService.DeleteNote | service/service_impl.go:54-69 | the error and the new store are `DeleteError` and `AfterDelete` of the old store |
| Service.NotesService.CreateNote | pkg/service/service_impl.go:80-95 | store error: `""`, the store's error, store unchanged; success: the hex of the fresh id, and the new note stored |
| Service.NotesService.SendToContentService | pkg/service/service_impl.go:97-134 | a failed lookup returns its error and sends nothing; a lookup that selects nothing panics and sends nothing; otherwise one request carrying the form of a selected note, with the uploader's error as returned |
| Service.NotesService.ValidateToken | pkg/service/service_impl.go:136-142 | the validator's verdict, verbatim |
| Service.NotesService.SetToken | pkg/service/service_impl.go:144-146 | the client's token becomes the given one |
| Api.ErrorResponse | api/api.go:195-208 | JSON content type, the status, and `{"error": message}` unless the message is empty |
| Api.SuccessResponse | api/api.go:210-221 | JSON content type, the status, and the value unless the status is 204 |
| Api.ServiceResponse | api/api.go:145-151 | 200 exactly when the service succeeded; otherwise 500 with the error's text |
| Api.HealthResponse | api/api.go:79-85 | 200 with the health message exactly when the ping succeeded; otherwise 500 with the error's text |
| Api.ListResponse | api/api.go:94-101 | 200 with the whole listing exactly when the lookup succeeded; otherwise 500 with the error's text |
| Api.NoteResponse | api/api.go:112-127 | service error or more than one note gives 500 with the text; none gives 204 without a body; one gives 200 with it |
| Api.UpdatedMessage | api/api.go:151 | the edit confirmation quotes the id between fixed texts |
| Api.CreatedMessage | api/api.go:174 | the create confirmation, misspelling kept, quotes the id between fixed texts |
| Api.DeletedMessage | api/api.go:191 | the delete confirmation quotes the id between fixed texts |
| Api.ConfirmationsIdentifyNote | api/api.go:151-191 | equal confirmations are for the same id; the three confirmations are never equal to one another |
| Api.GetNoteById | api/api.go:112-127 | for a valid id the cardinality error never occurs: 200 with the stored note, or 204 |
| Api.GetNoteInvalidId | api/api.go:112-116 | a malformed id is a 500 carrying the decoder's message |
| Api.ResponseWriter.SetContentType | api/api.go:198 | sets the header while no status has been written |
| Api.ResponseWriter.WriteHeader | api/api.go:199 | the first status written sticks |
| Api.ResponseWriter.Encode | api/api.go:205 | appends the value, with an implicit 200 when no status was written |
| Api.RespondWithError | api/api.go:195-208 | the recorded response is `ErrorResponse(code, message)` |
| Api.RespondWithSuccess | api/api.go:210-221 | the recorded response is `SuccessResponse(code, body)` |
| Api.CheckHealth | api/api.go:74-87 | 200 "API is running and connected to database" on a good ping; else 500 with the ping's error |
| Api.ListNotes | api/api.go:89-103 | 200 with a listing of every note; else 500 with the error |
| Api.GetNote | api/api.go:105-129 | the cardinality decision on one of the answers `GetNotes` can give |
| Api.EditNote | api/api.go:131-153 | an undecodable body is a 400 with the decoder's text and the store unchanged; otherwise the update's outcome, 200 with the update confirmation |
| Api.CreateNote | api/api.go:155-176 | an undecodable body is a 400 and nothing is stored; otherwise 200 quoting the new hex id, or 500 |
| Api.DeleteNote | api/api.go:178-193 | the delete's outcome: 200 with the confirmation, or 500 with the error |
| Api.BearerToken | pkg/api/api_test.go:47-73 | absent header contains "no authorization header found"; a header not of the form `Bearer <token>` contains "authorization header must be in format 'Bearer'" |
| Api.BearerRoundTrip | pkg/api/api_test.go:75-88 | the token of `Bearer <token>` is read back |
| Api.BearerExamples | pkg/api/api_test.go:62-88 | `test` is rejected for its shape; `Bearer test` carries `test` |
| Api.ValidationRequests | pkg/api/api_test.go:60-88 | no validation request for a malformed header or an unset login URL; otherwise one to `<login>/token` carrying the caller's header verbatim |
| Api.Authorization | pkg/api/api_test.go:47-88 | malformed or missing header: 400; the validator's failure: 401 with its text; otherwise the token |
| Api.AuthorizedOnlyWhenValidated | pkg/api/api_test.go:75-88 | authorization passes only after a 200 from a configured login service |
| Api.Authorize | pkg/api/api_test.go:47-88 | on failure the authorization response is recorded; on success nothing is written |
| Api.SaveNote | pkg/api/api_test.go:521-553 | stores the caller's token, then uploads the note; 500 with the error text, or 200; no response at all when the upload panics |
| Api.Serve | pkg/api/api_test.go:47-88 | a failed authorization is the whole answer: store, token and uploads untouched; otherwise the route's own handler outcome |
| Scenarios.CreateAndFetch | pkg/service/service_impl.go:29-95 | fetching by the returned id gives exactly the note just created |
| Scenarios.CreateDeleteFetch | pkg/service/service_impl.go:29-95 | after create then delete, fetching gives nothing and the store is as before |
| Scenarios.UpdateTwice | pkg/service/service_impl.go:43-61 | updating twice with the same request is the same as updating once |

## Left out

- JSON encoding and decoding (`encoding/json`): a decoded body is a
  parameter, and an encoded value is kept as a `Body`. An encoder failure
  is only logged in the source.
- Logging (logrus), CORS, routing (`mux`), timeouts, `ListenAndServe`,
  `route`, `closeRequestBody` and `shutdownGracefully`. These are
  goroutines, OS signals and `os.Exit`, with no decision to verify.
- The MongoDB driver: it is replaced by the map store. Its error texts for
  no match (`mongo: no documents in result`) and for a duplicate key are
  written as constants. A duplicate key cannot arise, because the fresh id
  is required to be absent.
- `primitive.NewObjectID` and `time.Now`: the fresh id (not yet stored) and
  the timestamp are parameters.
- The multipart byte format, its random boundary and `FormDataContentType`:
  an upload is the list of parts. The `Content-Type` header of the upload
  request is therefore not modelled.
- The error results of `CreateFormFile`, `io.Copy` and `writer.Close`: they
  write into an in-memory buffer and cannot fail there. Close's error is
  only logged.
- `http.NewRequest` failing on a malformed URL: the model takes every
  configured URL as well formed.
- ObjectIds.ObjectIdFromHexFirstInvalid: ids that are not valid UTF-8
  (such as `%80` in the URL path) cannot be represented, because a Dafny
  `string` is a sequence of characters and not of bytes. Their
  invalid-byte messages (`encoding/hex: invalid byte: U+0080`, for a
  continuation byte) are not modelled; the byte the model reports is
  always the first byte of a character.
- UploadName.Ext: only `/` is a path separator (Unix `filepath`).
- Service.NotesService.SendToContentService: the panic of `notes[0]` on an
  empty listing is the `panicked` result. What follows it in Go (net/http
  recovering the handler, logging it and closing the connection) is not
  modelled; `Api.SaveNote` then writes nothing.
- Service.NotesService.SendToContentService: the note sent for `id == ""` is some
  selected note, not `notes[0]` of the driver's order. The order the
  store returns notes in is not modelled.
- The shared outbound token is racy between concurrent requests. The model
  is sequential.
- Api.SaveNote: the save route's handler is not part of this model. Its
  steps follow pkg/api/api_test.go:478-553, and its success body is a
  parameter, `confirmation`.
- Api.BearerToken: the tests fix only `test` (rejected) and `Bearer test`
  (accepted). The model requires `Bearer`, one space and a non-empty
  token without spaces. The header's absence is Go's empty `Header.Get`
  result.
- main.go, the interface files and the generated mocks hold nothing to
  verify. pkg/models/note.go is transcribed as the `Note` and `NoteRequest`
  datatypes.
