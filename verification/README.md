# osd-backend registration core, modelled in Dafny

The backend accepts a multipart registration form, checks that the five
fields (name, email, phone, college name, year of study) are non-empty,
stores the user in a MongoDB collection with a unique index on
(email, phone), answers with a JSON envelope `{message, data, success, error}`,
and hands a welcome mail to a background sender after a successful insert.

The model covers that decision pipeline as pure functions over immutable
values:

- `Validation` — `ValidateUserInput`, with a reference scan over the field
  order that it is proved equal to.
- `UserStore` — the external store as a value: an insert yields the new
  document's hex identifier or an error. A second document with the same
  `_id` or the same (email, phone) pair is rejected; this is an assumption
  about MongoDB's unique indexes, not code of the repository.
- `Registration` — `CreateUser`: parse failure, validation failure, insert
  failure, success. The form parse, the driver's identifier, a transport
  fault and the mail settings are inputs.
- `Mail` — `SendEmail` up to the SMTP call and `GetEmail`. A header reader
  is the composer's inverse.
- `Json` — the body `json.Marshal` writes for a `Response`. A reader for
  that compact form is the encoder's inverse.
- `Server` — the port default, `GET /`, start-up, and the
  `/user/registration` handler's status and body.

Environment variables, the form parse, the store's identifier choice and the
mail transport are parameters. Nothing in the model reads a clock, the
network or the environment.

Two facts about the code are worth stating plainly:

- `GetEmail` takes the display name but never inserts it into the template
  (src/controllers/user.go:120-480).
- Every insert failure, including a duplicate registration, is answered with
  400, never 500 (src/main.go:41-44).

## Model

| member | source | states |
|---|---|---|
| Validation.ValidateUserInput | src/controllers/user.go:101-118 | accepts, with an empty message, exactly when all five fields are non-empty (no format check); otherwise rejects with "<Field> is required" for the first empty field in the order Name, Email, Phone, CollegeName, YearOfStudy |
| Validation.ValidateIsFirstMissing | src/controllers/user.go:101-118 | the validator equals a left-to-right scan of the check order for the first empty field |
| Validation.MessageIdentifiesField | src/controllers/user.go:102-116 | each rejection message is non-empty and names exactly one field |
| Validation.EmptyNameAlwaysReported | src/controllers/user.go:102-104 | an empty name gives "Name is required" whatever the other fields hold |
| UserStore.Insert | src/db/db.go:59-68 | the insert succeeds exactly when there is no transport fault and neither the `_id` nor the (email, phone) pair is already stored; on success it returns the id's hex form and appends exactly the new document; on failure the store is unchanged; the unique-key invariant is preserved |
| UserStore.InsertedIsStored | src/db/db.go:59-68 | after a successful insert the stored document has the submitted fields under the returned identifier |
| UserStore.SecondContactRejected | src/db/db.go:37-40 | once an (email, phone) pair is stored, any later insert of that pair fails |
| UserStore.IdHex | src/db/db.go:67 | the identifier's hex form has two characters per byte |
| UserStore.IdHexLowerDigits | src/db/db.go:67 | every character of the hex form is a lower-case hexadecimal digit (0-9, a-f) |
| UserStore.HexRoundTrip | src/db/db.go:67 | reading the hex form back yields the identifier's bytes |
| UserStore.IdHexInjective | src/db/db.go:67 | distinct identifiers have distinct hex forms |
| Registration.CreateUser | src/controllers/user.go:22-52 | parse failure: "Error getting user info", the parse error is returned but not put in the envelope; incomplete form: the validator's message with a nil error; insert failure: "Error creating user" with the error text both in `error` and as the returned error; success exactly when a complete form is stored, with "User created successfully", the id as `data` and a nil error; mail is handed off and the store changes only on success |
| Registration.CreatedIdIsNonEmpty | src/controllers/user.go:36-50 | a successful envelope carries a 24-character identifier |
| Registration.DuplicateRegistrationFails | src/controllers/user.go:36-40 | registering the same email and phone twice: the first succeeds, the second fails, sends no mail and leaves the store unchanged |
| Registration.ResponseIndependentOfMail | src/controllers/user.go:42-50 | the envelope, the returned error and the store do not depend on the mail settings, so sending the mail cannot change the reply |
| Registration.EmptyNameRefused | src/controllers/user.go:31-35 | a form with an empty name gets `{message: "Name is required", data: null, success: false}` and the store is untouched |
| Mail.GetEmail | src/controllers/user.go:120-480 | the template is an HTML document opening with `<!DOCTYPE html>`; Mail.GetEmailIgnoresName states that the name is never used |
| Mail.ComposeMessage | src/controllers/user.go:66-70 | the message opens with the From line and ends with the body; Mail.MessageRoundTrip and Mail.ParsedMessageIsComposed pin the header block in between |
| Mail.GetEmailIgnoresName | src/controllers/user.go:120-480 | the template is the same for every name |
| Mail.SendEmail | src/controllers/user.go:54-72 | the mail goes from the configured sender to the user's email alone, through port 587 of the configured host, with plain authentication (empty identity) |
| Mail.SendEmailReadsBack | src/controllers/user.go:58-70 | the message handed to the transport reads back as sender, the user's email and the template, when neither address contains CRLF |
| Mail.MessageRoundTrip | src/controllers/user.go:66-70 | From, To, Subject, MIME-Version and Content-Type lines, each ending in CRLF, then a blank line and the body: the reader recovers sender, recipient and body |
| Mail.ParsedMessageIsComposed | src/controllers/user.go:66-70 | every message the reader accepts is exactly the composition of what it read |
| Mail.LineBreakInRecipientAddsHeader | src/controllers/user.go:58-70 | an email address containing CRLF ends the To line early, its tail becomes an extra header, and the message loses its intended shape; such a message is built but never delivered, because `smtp.SendMail` refuses addresses holding CR or LF |
| Json.DecodeEncodedResponse | src/main.go:39 | the JSON body of an envelope reads back as that envelope, for every envelope whose strings are sequences of Unicode scalar values |
| Json.EncodeResponseInjective | src/main.go:39 | distinct envelopes give distinct bodies |
| Json.EncodeResponse | src/main.go:39 | `json.Marshal(response)`: the body is a JSON object that opens with the `message` member and closes with `}`; its meaning is pinned by Json.DecodeEncodedResponse |
| Server.Port | src/main.go:18-22 | the port is `BACKEND_PORT` when that is non-empty, "5000" otherwise; never empty |
| Server.Welcome | src/main.go:32-35 | `GET /` answers 200 with Content-Type application/json and a `{"message": "` body |
| Server.WelcomeReadsBack | src/main.go:32-35 | the `GET /` body's `message` member reads back as "Welcome to LinuxDiary5.0" and closes the object |
| Server.HttpError | src/main.go:42 | `http.Error`: the given status, a plain-text Content-Type, and the message followed by one newline as body |
| Server.Startup | src/main.go:25-28 | a failed store connection aborts start-up with its error; otherwise the server runs on the chosen port with a nil start-up `err` |
| Server.HandleRegistration | src/main.go:37-52 | an unsuccessful envelope gives 400 with the JSON followed by a newline as a plain-text body; a successful one gives 200 with the JSON as application/json; 500 only if the captured start-up `err` were set |
| Server.ServeRegistration | src/main.go:37-52 | a 400 reply leaves the server state unchanged and sends no mail |
| Server.RefusedOnlyIfFailed | src/main.go:41-44 | a 400 reply comes only from an envelope whose `success` is false |
| Server.ReplyWithoutStartupError | src/main.go:38-51 | with a nil start-up `err`, the status is 200 or 400, 200 exactly when the envelope succeeded, and the body, less the newline `http.Error` appends, reads back as the envelope |
| Server.RegistrationReplies | src/main.go:25-51 | on a started server the 500 branch is dead: the status is 200 or 400, 200 exactly when the envelope succeeded and the mail was handed off, and the body reads back as the envelope |
| Server.StatusFollowsSuccess | src/main.go:41-51 | status and content type depend only on the envelope's `success` flag; the error `CreateUser` returns is discarded |

## Left out

- Form reading, `GetUserInfo` (src/controllers/user.go:82-99): `ParseMultipartForm` and `FormValue` are library code. Their result is an input: an error text or a `UserInput`.
- SMTP delivery and its boolean result (src/controllers/user.go:72-79): foreign I/O. The model stops at the arguments of `smtp.SendMail`.
- The background goroutine (src/controllers/user.go:42-49) and its logging: the model records only that a mail request was handed off.
- Environment reads (`BACKEND_PORT`, `BACKEND_MAIL_*`, `BACKEND_MONGO_*`): these values are parameters.
- Connection set-up, ping, index creation and `Close` (src/db/db.go:20-57): the model assumes the resulting store behaviour. The 10-second timeout and unreachable servers appear only as an insert `fault`.
- UserStore.Insert: a faulted insert is assumed not to have been applied. In reality the context can expire after MongoDB has committed the `InsertOne` (src/db/db.go:60-66), leaving the document stored while the client gets 400. Because of this assumption, the claims "on failure the store is unchanged" (UserStore.Insert), "the store changes only on success" (Registration.CreateUser) and "a 400 reply leaves the server state unchanged" (Server.ServeRegistration) hold for the model only.
- Read accessors `GetUser`, `GetUserByEmail`, `GetUserByPhone`, `GetUsers` (src/db/db.go:70-132): nothing on the registration path calls them.
- UserStore.ErrorText: the duplicate-key text is an abbreviation. The driver returns a `mongo.WriteException`, whose `Error()` wraps the server's message in a `write exception: write errors: [...]` prefix and bracket, and the server's message ends with a `dup key: {...}` part. The model drops both the wrapper and that tail. The model promises only that the envelope's `error` equals the store error's text.
- Mail.WelcomeTemplate: the 359-line HTML page is represented by its first two lines. No logic inspects the markup.
- Json.EncodeResponse: follows `encoding/json` string escaping as of Go 1.22. That means `\b` and `\f` short escapes, `<`, `>`, `&`, U+2028 and U+2029 as `\u` escapes, and other control characters as `\u00XX`. Older Go versions write `\u0008` and `\u000c` instead. Strings are sequences of Unicode scalar values. Go strings are bytes, and `json.Marshal` replaces each invalid UTF-8 byte with `\ufffd`. That case is not modelled, so the round trip and injectivity lemmas do not cover responses holding invalid UTF-8, such as a duplicate-key text that echoes raw form bytes.
- Json.DecodeResponse: reads only the compact form `json.Marshal` writes. It refuses whitespace and surrogate-pair escapes, which the encoder never produces for this type.
- `http.Error` also sets `X-Content-Type-Options: nosniff` and removes `Content-Length`. The model keeps status, Content-Type and body only.
- CORS options, mux routing (including 405 for other methods) and `ListenAndServe` (src/main.go:24, 54-66): framework plumbing.
- The unused `ReferralScore` type and the stored `User` document type (src/models/user.go:5-12, 29-32). `UserStore.UserRecord` plays the part of `User`.
- Logging (`log.Println`, `slog`): it has no effect on results.
