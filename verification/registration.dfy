/** `UserService.CreateUser` (src/controllers/user.go): parse, validate,
    insert, then answer and hand the confirmation mail to a background
    sender. The form parse, the store, the mail settings and the driver's
    choice of identifier arrive as inputs. */
module Registration {
  import opened Wrappers
  import opened Models
  import opened Validation
  import opened UserStore
  import opened Mail

  /** Everything one call produces: the envelope, the Go `error` it
      returns (by its text), the store afterwards, and the mail request
      given to the background sender, if one was started. */
  datatype Outcome = Outcome(response: Response, err: Option<string>, store: Store, mail: Option<MailRequest>)

  const ParseFailedMessage: string := "Error getting user info"
  const InsertFailedMessage: string := "Error creating user"
  const CreatedMessage: string := "User created successfully"

  /** The registration decision. `parsed` is the result of reading the
      multipart form; `id` is the identifier the driver would assign and
      `fault` a transport failure of the insert. */
  function CreateUser(s: Store, parsed: Result<UserInput, string>, id: ObjectId, fault: Option<string>, cfg: MailConfig): (o: Outcome)
    // A form that cannot be read: the parse error is returned to the
    // caller but kept out of the envelope.
    ensures parsed.Failure? ==>
      o == Outcome(Response(ParseFailedMessage, None, false, ""), Some(parsed.error), s, None)
    // An incomplete form: the validator's message, no error, nothing stored or sent.
    ensures parsed.Success? && !Complete(parsed.value) ==>
      o == Outcome(Response(ValidateUserInput(parsed.value).1, None, false, ""), None, s, None)
    // A rejected insert: its text both in the envelope and as the error.
    ensures parsed.Success? && Complete(parsed.value) && Insert(s, parsed.value, id, fault).0.Failure? ==>
      var text := ErrorText(Insert(s, parsed.value, id, fault).0.error);
      o == Outcome(Response(InsertFailedMessage, None, false, text), Some(text), s, None)
    // Success happens exactly when a complete form is stored.
    ensures o.response.success <==>
      parsed.Success? && Complete(parsed.value) && Insert(s, parsed.value, id, fault).0.Success?
    ensures o.response.success ==>
      && o.response == Response(CreatedMessage, Some(IdHex(id)), true, "")
      && o.err.None?
      && o.store.records == s.records + [UserRecord(id, parsed.value)]
      && o.mail == Some(SendEmail(cfg, parsed.value))
    // Only a successful registration changes the store or sends mail.
    ensures !o.response.success ==> o.store == s && o.mail.None? && o.response.data.None?
    ensures Valid(s) ==> Valid(o.store)
  {
    match parsed
    case Failure(e) =>
      Outcome(Response(ParseFailedMessage, None, false, ""), Some(e), s, None)
    case Success(u) =>
      var (isValid, message) := ValidateUserInput(u);
      if !isValid then
        Outcome(Response(message, None, false, ""), None, s, None)
      else
        var (res, s') := Insert(s, u, id, fault);
        match res
        case Failure(e) =>
          Outcome(Response(InsertFailedMessage, None, false, ErrorText(e)), Some(ErrorText(e)), s', None)
        case Success(userId) =>
          Outcome(Response(CreatedMessage, Some(userId), true, ""), None, s', Some(SendEmail(cfg, u)))
  }

  /** A success always carries a 24-digit identifier. */
  lemma CreatedIdIsNonEmpty(s: Store, parsed: Result<UserInput, string>, id: ObjectId, fault: Option<string>, cfg: MailConfig)
    requires CreateUser(s, parsed, id, fault, cfg).response.success
    ensures var d := CreateUser(s, parsed, id, fault, cfg).response.data;
      d.Some? && |d.value| == 24
  {
  }

  /** Registering the same email and phone twice: the first attempt
      succeeds, the second fails and leaves the store as the first left it,
      whatever identifier or transport condition the second meets. */
  lemma DuplicateRegistrationFails(s: Store, u: UserInput, v: UserInput, id1: ObjectId, id2: ObjectId, fault2: Option<string>, cfg: MailConfig)
    requires Complete(u) && !HasId(s, id1) && !HasContact(s, u)
    requires SameContact(u, v)
    ensures var first := CreateUser(s, Success(u), id1, None, cfg);
      && first.response.success
      && var second := CreateUser(first.store, Success(v), id2, fault2, cfg);
      && !second.response.success
      && second.store == first.store
      && second.mail.None?
  {
    var first := CreateUser(s, Success(u), id1, None, cfg);
    SecondContactRejected(s, u, id1, v, id2, fault2);
    assert Insert(s, u, id1, None).1 == first.store;
  }

  /** The envelope and the store do not depend on the mail settings, so
      nothing about sending the mail can change what the client is told. */
  lemma ResponseIndependentOfMail(s: Store, parsed: Result<UserInput, string>, id: ObjectId, fault: Option<string>, cfg1: MailConfig, cfg2: MailConfig)
    ensures CreateUser(s, parsed, id, fault, cfg1).response == CreateUser(s, parsed, id, fault, cfg2).response
    ensures CreateUser(s, parsed, id, fault, cfg1).store == CreateUser(s, parsed, id, fault, cfg2).store
    ensures CreateUser(s, parsed, id, fault, cfg1).err == CreateUser(s, parsed, id, fault, cfg2).err
  {
  }

  /** A form with an empty name is refused with "Name is required" and no
      data, before the store is consulted. */
  lemma EmptyNameRefused(s: Store, u: UserInput, id: ObjectId, fault: Option<string>, cfg: MailConfig)
    requires u.name == ""
    ensures CreateUser(s, Success(u), id, fault, cfg).response == Response("Name is required", None, false, "")
    ensures CreateUser(s, Success(u), id, fault, cfg).store == s
  {
  }
}
