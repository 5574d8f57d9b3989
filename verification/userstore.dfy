/** The document store behind `DbAdapter.CreateUser` (src/db/db.go), as an
    abstract value. The store itself is external: the model states what the
    repository relies on, namely that an insert either yields the new
    document's identifier or an error, and that the unique indexes on `_id`
    and on the pair (email, phone) reject a second document with the same key. */
module UserStore {
  import opened Wrappers
  import opened Models
  import Hex
  import Seqs

  /** An unsigned 8-bit value. */
  newtype Byte = x: int | 0 <= x < 256

  /** A 12-byte MongoDB ObjectID, chosen by the driver for each insert. */
  type ObjectId = b: seq<Byte> | |b| == 12 witness [0, 0, 0, 0, 0, 0, 0, 0, 0, 0, 0, 0]

  /** `ObjectID.Hex()`: two lower-case hex digits per byte, most significant
      nibble first. */
  function IdHex(id: seq<Byte>): (h: string)
    ensures |h| == 2 * |id|
  {
    if |id| == 0 then ""
    else [Hex.Digit(id[0] as int / 16), Hex.Digit(id[0] as int % 16)] + IdHex(id[1..])
  }

  /** Every character of the hex form is a lower-case hex digit. */
  lemma {:induction false} IdHexLowerDigits(id: seq<Byte>)
    ensures forall i :: 0 <= i < |IdHex(id)| ==> Hex.IsLowerDigit(IdHex(id)[i]) && Hex.IsDigit(IdHex(id)[i])
    decreases |id|
  {
    if |id| > 0 {
      IdHexLowerDigits(id[1..]);
      IdHexStep(id);
    }
  }

  /** A plain hex decoder, the inverse reading: two digits per byte,
      failing on odd length or a non-digit. */
  function BytesFromHex(h: string): (r: Option<seq<Byte>>)
    ensures r.Some? ==> 2 * |r.value| == |h|
    decreases |h|
  {
    if |h| == 0 then Some([])
    else if |h| == 1 || !Hex.IsDigit(h[0]) || !Hex.IsDigit(h[1]) then None
    else match BytesFromHex(h[2..])
      case None => None
      case Some(rest) => Some([(16 * Hex.DigitValue(h[0]) + Hex.DigitValue(h[1])) as Byte] + rest)
  }

  /** Reading back the hex form of an identifier yields the identifier, so
      distinct identifiers never share a hex form. */
  lemma {:induction false} HexRoundTrip(id: seq<Byte>)
    ensures BytesFromHex(IdHex(id)) == Some(id)
    decreases |id|
  {
    if |id| > 0 {
      HexRoundTrip(id[1..]);
      HexRoundTripStep(id, IdHex(id));
    }
  }

  /** One byte more: if the tail reads back, so does the whole hex form `h`. */
  lemma HexRoundTripStep(id: seq<Byte>, h: string)
    requires |id| > 0 && h == IdHex(id) && BytesFromHex(IdHex(id[1..])) == Some(id[1..])
    ensures BytesFromHex(h) == Some(id)
  {
    IdHexStep(id);
    DecodeStep(h, id[0]);
    Seqs.HeadTail(id);
  }

  lemma IdHexStep(id: seq<Byte>)
    requires |id| > 0
    ensures var h := IdHex(id);
      h[0] == Hex.Digit(id[0] as int / 16) && h[1] == Hex.Digit(id[0] as int % 16) && h[2..] == IdHex(id[1..])
  {
  }

  lemma DecodeStep(h: string, b: Byte)
    requires |h| >= 2 && h[0] == Hex.Digit(b as int / 16) && h[1] == Hex.Digit(b as int % 16)
    requires BytesFromHex(h[2..]).Some?
    ensures BytesFromHex(h) == Some([b] + BytesFromHex(h[2..]).value)
  {
  }

  lemma IdHexInjective(a: ObjectId, b: ObjectId)
    requires IdHex(a) == IdHex(b)
    ensures a == b
  {
    HexRoundTrip(a);
    HexRoundTrip(b);
  }

  /** A stored user document: the validated input plus its `_id`. */
  datatype UserRecord = UserRecord(id: ObjectId, input: UserInput)

  datatype Store = Store(records: seq<UserRecord>)

  /** Why an insert failed: a unique index rejected the document (named as
      MongoDB names the index), or the server could not be reached in time. */
  datatype StoreError = DuplicateKey(index: string) | Unavailable(reason: string)

  const IdIndex: string := "_id_"
  const ContactIndex: string := "email_1_phone_1"

  /** The text `err.Error()` yields for a store error. For a duplicate key
      this is an abbreviation of the driver's message, which names the
      collection and the violated index. */
  function ErrorText(e: StoreError): string {
    match e
    case DuplicateKey(index) => "E11000 duplicate key error collection: osd.users index: " + index
    case Unavailable(reason) => reason
  }

  predicate SameContact(a: UserInput, b: UserInput) {
    a.email == b.email && a.phone == b.phone
  }

  predicate HasId(s: Store, id: ObjectId) {
    exists i :: 0 <= i < |s.records| && s.records[i].id == id
  }

  predicate HasContact(s: Store, u: UserInput) {
    exists i :: 0 <= i < |s.records| && SameContact(s.records[i].input, u)
  }

  /** What the two unique indexes guarantee of the collection. */
  predicate Valid(s: Store) {
    forall i, j :: 0 <= i < j < |s.records| ==>
      s.records[i].id != s.records[j].id
      && !SameContact(s.records[i].input, s.records[j].input)
  }

  /** `DbAdapter.CreateUser`: insert `u` under the driver-chosen `id`; a
      `fault` stands for a connection failure or the 10-second timeout.
      The store is unchanged on failure and grows by exactly the new
      document on success, whose identifier is returned in hex. */
  function Insert(s: Store, u: UserInput, id: ObjectId, fault: Option<string>): (r: (Result<string, StoreError>, Store))
    ensures r.0.Success? <==> fault.None? && !HasId(s, id) && !HasContact(s, u)
    ensures r.0.Success? ==> r.0.value == IdHex(id) && r.1.records == s.records + [UserRecord(id, u)]
    ensures r.0.Failure? ==> r.1 == s
    ensures fault.Some? ==> r.0 == Failure(Unavailable(fault.value))
    ensures fault.None? && HasContact(s, u) ==> r.0.Failure? && r.0.error.DuplicateKey?
    ensures Valid(s) ==> Valid(r.1)
  {
    if fault.Some? then (Failure(Unavailable(fault.value)), s)
    else if HasId(s, id) then (Failure(DuplicateKey(IdIndex)), s)
    else if HasContact(s, u) then (Failure(DuplicateKey(ContactIndex)), s)
    else (Success(IdHex(id)), Store(s.records + [UserRecord(id, u)]))
  }

  /** After a successful insert the document is in the store with exactly
      the submitted fields, under the identifier that was returned. */
  lemma InsertedIsStored(s: Store, u: UserInput, id: ObjectId, fault: Option<string>)
    requires Insert(s, u, id, fault).0.Success?
    ensures var (res, s') := Insert(s, u, id, fault);
      exists i :: 0 <= i < |s'.records| && s'.records[i] == UserRecord(id, u) && IdHex(s'.records[i].id) == res.value
  {
    var s' := Insert(s, u, id, fault).1;
    assert s'.records[|s.records|] == UserRecord(id, u);
  }

  /** Once a contact pair is stored, every later insert of the same pair
      fails, whatever identifier the driver picks. */
  lemma SecondContactRejected(s: Store, u: UserInput, id: ObjectId, v: UserInput, id2: ObjectId, fault2: Option<string>)
    requires Insert(s, u, id, None).0.Success?
    requires SameContact(u, v)
    ensures Insert(Insert(s, u, id, None).1, v, id2, fault2).0.Failure?
  {
    var s' := Insert(s, u, id, None).1;
    assert s'.records[|s.records|].input == u;
    assert HasContact(s', v);
  }
}
