/**
 * The Identity Registry chaincode as a pure state machine over a key-value ledger.
 *
 * The ledger maps each username to the Identity record stored under it. Each handler
 * is a function from the ledger before the call, the failures the host reports for
 * this transaction and the decoded request, to the response and the ledger after it.
 * JSON encoding is the identity on records: a stored value is the Identity itself,
 * and a response payload is the record or the one-field object the handler builds.
 */
module Registry {
  import opened Wrappers

  /** One user's record: the ledger stores it under its username. */
  datatype Identity = Identity(username: string, publicKey: string, data: string, verified: string)

  /** The world state the chaincode sees: username key to stored record. */
  type Ledger = map<string, Identity>

  /**
   * What the host's two primitives do in one transaction: GetState fails when
   * getError is Some, PutState fails with putError's text when that is Some.
   */
  datatype Faults = Faults(getError: Option<string>, putError: Option<string>)

  /** The payload of a successful response. */
  datatype Payload =
    | Record(identity: Identity)      // a whole serialized Identity
    | PublicKeyOf(publicKey: string)  // {"publicKey": ...}
    | DataOf(data: string)            // {"data": ...}

  /** The chaincode's answer to one invocation. */
  datatype Response = Success(payload: Payload) | Error(message: string)

  /** A response together with the ledger the invocation leaves behind. */
  datatype Outcome = Outcome(response: Response, ledger: Ledger)

  /** The request UpdateUserData decodes: whose data, and the new data. */
  datatype UpdateRequest = UpdateRequest(username: string, data: string)

  /**
   * One invocation argument: its raw text, and the string-valued members that a
   * lenient JSON decode reads from it. Members the text lacks, members whose
   * value is not a string, or all of them when the text is not a well-formed
   * JSON object, are simply not in fields.
   */
  datatype Argument = Argument(text: string, fields: map<string, string>)

  const NotFoundMessage := "Username not found"
  const GetStateFailedMessage := "Failed to get state"
  const UnknownActionMessage :=
    "Unknown action, check the first argument, must be one of 'Register', 'GetPublicKey'. But got: "

  // ---------------------------------------------------------------------------
  // Lenient decoding of request arguments and encoding of records

  /** A decoded string field: the member's value, or the zero value "" when absent. */
  function Field(arg: Argument, name: string): string
  {
    if name in arg.fields then arg.fields[name] else ""
  }

  /** Unmarshal into an Identity, ignoring decode errors. */
  function DecodeIdentity(arg: Argument): Identity
  {
    Identity(Field(arg, "username"), Field(arg, "publicKey"), Field(arg, "data"), Field(arg, "verified"))
  }

  /** Unmarshal into an update request, ignoring decode errors. */
  function DecodeUpdateRequest(arg: Argument): UpdateRequest
  {
    UpdateRequest(Field(arg, "username"), Field(arg, "data"))
  }

  /** Unmarshal into a public-key or user-data request: only the username is read. */
  function DecodeUsername(arg: Argument): string
  {
    Field(arg, "username")
  }

  /**
   * The JSON members an Identity is marshalled to. Stored values are kept as
   * Identity records and never decoded from bytes, so this supports reading
   * records as JSON only for the request arguments.
   */
  function Members(identity: Identity): map<string, string>
  {
    map["username" := identity.username, "publicKey" := identity.publicKey,
        "data" := identity.data, "verified" := identity.verified]
  }

  /** Marshalling an Identity and decoding the result gives the same Identity back. */
  lemma DecodeMembers(identity: Identity, text: string)
    ensures DecodeIdentity(Argument(text, Members(identity))) == identity
  {
  }

  /** A decode of an argument with no members yields the all-zero record. */
  lemma DecodeEmpty(text: string)
    ensures DecodeIdentity(Argument(text, map[])) == Identity("", "", "", "")
    ensures DecodeUpdateRequest(Argument(text, map[])) == UpdateRequest("", "")
    ensures DecodeUsername(Argument(text, map[])) == ""
  {
  }

  // ---------------------------------------------------------------------------
  // Ledger helpers

  /** The record stored under a key, if any. */
  function Find(ledger: Ledger, key: string): Option<Identity>
  {
    if key in ledger then Some(ledger[key]) else None
  }

  /** Every stored record's username equals the key it is stored under. */
  ghost predicate KeysMatch(ledger: Ledger)
  {
    forall key :: key in ledger ==> ledger[key].username == key
  }

  /**
   * The read shared by UpdateUserData, GetPublicKey and GetUserData: a failing
   * GetState gives "Failed to get state", an absent key "Username not found".
   */
  function Lookup(ledger: Ledger, faults: Faults, username: string): Result<Identity, string>
  {
    if faults.getError.Some? then Err(GetStateFailedMessage)
    else if username !in ledger then Err(NotFoundMessage)
    else Ok(ledger[username])
  }

  // ---------------------------------------------------------------------------
  // The four handlers

  /** Store the decoded record under its username, whatever was there, and echo it. */
  function Register(ledger: Ledger, faults: Faults, identity: Identity): Outcome
  {
    match faults.putError
    case Some(e) => Outcome(Error(e), ledger)
    case None => Outcome(Success(Record(identity)), ledger[identity.username := identity])
  }

  /**
   * UpdateUserData as the source writes it: the new data is set on a decoded copy
   * only, and the stored record is written back unchanged under the copy's username.
   */
  function UpdateUserData(ledger: Ledger, faults: Faults, request: UpdateRequest): Outcome
  {
    match Lookup(ledger, faults, request.username)
    case Err(e) => Outcome(Error(e), ledger)
    case Ok(stored) =>
      var local := stored.(data := request.data);
      match faults.putError
      case Some(e) => Outcome(Error(e), ledger)
      case None => Outcome(Success(Record(stored)), ledger[local.username := stored])
  }

  /** The variant that persists the update: the modified copy is written and echoed. */
  function UpdateUserDataPersisting(ledger: Ledger, faults: Faults, request: UpdateRequest): Outcome
  {
    match Lookup(ledger, faults, request.username)
    case Err(e) => Outcome(Error(e), ledger)
    case Ok(stored) =>
      var updated := stored.(data := request.data);
      match faults.putError
      case Some(e) => Outcome(Error(e), ledger)
      case None => Outcome(Success(Record(updated)), ledger[updated.username := updated])
  }

  /** The public key of a registered user. */
  function GetPublicKey(ledger: Ledger, faults: Faults, username: string): Response
  {
    match Lookup(ledger, faults, username)
    case Err(e) => Error(e)
    case Ok(stored) => Success(PublicKeyOf(stored.publicKey))
  }

  /** The encrypted data of a registered user. */
  function GetUserData(ledger: Ledger, faults: Faults, username: string): Response
  {
    match Lookup(ledger, faults, username)
    case Err(e) => Error(e)
    case Ok(stored) => Success(DataOf(stored.data))
  }

  // ---------------------------------------------------------------------------
  // Dispatch

  /** The four operation names Invoke routes. */
  predicate IsOperation(name: string)
  {
    name == "Register" || name == "UpdateUserData" || name == "GetPublicKey" || name == "GetUserData"
  }

  /**
   * Route an operation name to its handler, each of which decodes the first
   * argument; any other name is an error that echoes the first argument.
   * The source indexes args[0] on every path, so an empty list is excluded.
   */
  function Invoke(ledger: Ledger, faults: Faults, name: string, args: seq<Argument>): Outcome
    requires |args| > 0
  {
    if name == "Register" then Register(ledger, faults, DecodeIdentity(args[0]))
    else if name == "UpdateUserData" then UpdateUserData(ledger, faults, DecodeUpdateRequest(args[0]))
    else if name == "GetPublicKey" then Outcome(GetPublicKey(ledger, faults, DecodeUsername(args[0])), ledger)
    else if name == "GetUserData" then Outcome(GetUserData(ledger, faults, DecodeUsername(args[0])), ledger)
    else Outcome(Error(UnknownActionMessage + args[0].text), ledger)
  }

  // ---------------------------------------------------------------------------
  // Properties of single operations

  /** A successful Register stores the record under its username, changes no other key and echoes the record. */
  lemma RegisterStoresAndEchoes(ledger: Ledger, faults: Faults, identity: Identity)
    requires faults.putError.None?
    ensures Register(ledger, faults, identity).response == Success(Record(identity))
    ensures Find(Register(ledger, faults, identity).ledger, identity.username) == Some(identity)
    ensures forall key :: key != identity.username ==>
      Find(Register(ledger, faults, identity).ledger, key) == Find(ledger, key)
  {
  }

  /** Registering a username twice leaves the second record, whose fields the reads then return. */
  lemma RegisterOverwrites(ledger: Ledger, first: Identity, second: Identity, faults: Faults)
    requires first.username == second.username
    requires faults.putError.None? && faults.getError.None?
    ensures var after := Register(Register(ledger, faults, first).ledger, faults, second).ledger;
      && Find(after, first.username) == Some(second)
      && GetUserData(after, faults, first.username) == Success(DataOf(second.data))
      && GetPublicKey(after, faults, first.username) == Success(PublicKeyOf(second.publicKey))
  {
  }

  /** After a successful Register, both reads return the registered record's fields. */
  lemma RegisterThenRead(ledger: Ledger, writeFaults: Faults, readFaults: Faults, identity: Identity)
    requires writeFaults.putError.None? && readFaults.getError.None?
    ensures var after := Register(ledger, writeFaults, identity).ledger;
      && GetPublicKey(after, readFaults, identity.username) == Success(PublicKeyOf(identity.publicKey))
      && GetUserData(after, readFaults, identity.username) == Success(DataOf(identity.data))
  {
  }

  /** An absent username makes the update and both reads fail with "Username not found", changing nothing. */
  lemma NotFound(ledger: Ledger, faults: Faults, username: string, data: string)
    requires username !in ledger && faults.getError.None?
    ensures UpdateUserData(ledger, faults, UpdateRequest(username, data)) == Outcome(Error(NotFoundMessage), ledger)
    ensures GetPublicKey(ledger, faults, username) == Error(NotFoundMessage)
    ensures GetUserData(ledger, faults, username) == Error(NotFoundMessage)
  {
  }

  /** A failing GetState gives "Failed to get state" on every path that reads, changing nothing. */
  lemma GetStateFailure(ledger: Ledger, faults: Faults, request: UpdateRequest, username: string)
    requires faults.getError.Some?
    ensures UpdateUserData(ledger, faults, request) == Outcome(Error(GetStateFailedMessage), ledger)
    ensures GetPublicKey(ledger, faults, username) == Error(GetStateFailedMessage)
    ensures GetUserData(ledger, faults, username) == Error(GetStateFailedMessage)
  {
  }

  /** A failing PutState returns the ledger's error text and leaves the ledger as it was. */
  lemma PutStateFailure(ledger: Ledger, faults: Faults, identity: Identity, request: UpdateRequest)
    requires faults.putError.Some?
    ensures Register(ledger, faults, identity) == Outcome(Error(faults.putError.value), ledger)
    ensures faults.getError.None? && request.username in ledger ==>
      UpdateUserData(ledger, faults, request) == Outcome(Error(faults.putError.value), ledger)
  {
  }

  /**
   * On a ledger whose keys match their records' usernames, UpdateUserData never
   * changes the ledger, and when it succeeds it echoes the stored record, not the update.
   */
  lemma UpdateIsNoOp(ledger: Ledger, faults: Faults, request: UpdateRequest)
    requires KeysMatch(ledger)
    ensures UpdateUserData(ledger, faults, request).ledger == ledger
    ensures UpdateUserData(ledger, faults, request).response.Success? ==>
      request.username in ledger &&
      UpdateUserData(ledger, faults, request).response == Success(Record(ledger[request.username]))
  {
  }

  /**
   * Without that invariant the write-back need not be a no-op: a record stored
   * under "bob" whose username is "alice" is written again under "alice", adding that key.
   */
  lemma UpdateWritesUnderStoredUsername()
    ensures var stored := Identity("alice", "PK", "ENC", "");
      var ledger := map["bob" := stored];
      UpdateUserData(ledger, Faults(None, None), UpdateRequest("bob", "NEW")).ledger
        == map["bob" := stored, "alice" := stored]
  {
  }

  /**
   * The same write-back can also replace another user's record: a stale record
   * for "alice" kept under "bob" overwrites the one stored under "alice".
   */
  lemma UpdateOverwritesOtherUser()
    ensures var stale := Identity("alice", "OLDPK", "OLD", "");
      var current := Identity("alice", "PK", "ENC", "");
      var ledger := map["bob" := stale, "alice" := current];
      var after := UpdateUserData(ledger, Faults(None, None), UpdateRequest("bob", "NEW")).ledger;
      after.Keys == ledger.Keys && after["alice"] == stale
  {
  }

  /** Register "A" then update to "B": the literal update still reads back "A". */
  lemma UpdateDoesNotPersist(ledger: Ledger, identity: Identity, data: string)
    ensures var faults := Faults(None, None);
      var registered := Register(ledger, faults, identity).ledger;
      var updated := UpdateUserData(registered, faults, UpdateRequest(identity.username, data)).ledger;
      GetUserData(updated, faults, identity.username) == Success(DataOf(identity.data))
  {
  }

  /** Register "A" then update to "B" with the persisting variant: the read returns "B". */
  lemma PersistingUpdateIsVisible(ledger: Ledger, identity: Identity, data: string)
    ensures var faults := Faults(None, None);
      var registered := Register(ledger, faults, identity).ledger;
      var updated := UpdateUserDataPersisting(registered, faults, UpdateRequest(identity.username, data)).ledger;
      GetUserData(updated, faults, identity.username) == Success(DataOf(data))
      && GetPublicKey(updated, faults, identity.username) == Success(PublicKeyOf(identity.publicKey))
  {
  }

  /** The persisting variant keeps the key invariant and changes at most the requested user's data. */
  lemma PersistingUpdatePreserves(ledger: Ledger, faults: Faults, request: UpdateRequest)
    requires KeysMatch(ledger)
    ensures var after := UpdateUserDataPersisting(ledger, faults, request).ledger;
      && KeysMatch(after)
      && after.Keys == ledger.Keys
      && (forall key :: key in ledger && key != request.username ==> after[key] == ledger[key])
      && (request.username in after ==>
            after[request.username] == ledger[request.username].(data :=
              if faults.getError.None? && faults.putError.None? then request.data
              else ledger[request.username].data))
  {
  }

  // ---------------------------------------------------------------------------
  // Properties of dispatch

  /** Invoke routes exactly the four names; any other name echoes the first argument and changes nothing. */
  lemma InvokeDispatch(ledger: Ledger, faults: Faults, name: string, args: seq<Argument>)
    requires |args| > 0
    ensures name == "Register" ==> Invoke(ledger, faults, name, args) == Register(ledger, faults, DecodeIdentity(args[0]))
    ensures name == "UpdateUserData" ==>
      Invoke(ledger, faults, name, args) == UpdateUserData(ledger, faults, DecodeUpdateRequest(args[0]))
    ensures name == "GetPublicKey" ==>
      Invoke(ledger, faults, name, args) == Outcome(GetPublicKey(ledger, faults, DecodeUsername(args[0])), ledger)
    ensures name == "GetUserData" ==>
      Invoke(ledger, faults, name, args) == Outcome(GetUserData(ledger, faults, DecodeUsername(args[0])), ledger)
    ensures !IsOperation(name) ==>
      Invoke(ledger, faults, name, args) == Outcome(Error(UnknownActionMessage + args[0].text), ledger)
  {
  }

  /** The two reads never change the ledger, so calling one twice gives the same answer. */
  lemma ReadsChangeNothing(ledger: Ledger, faults: Faults, name: string, args: seq<Argument>)
    requires |args| > 0 && (name == "GetPublicKey" || name == "GetUserData")
    ensures Invoke(ledger, faults, name, args).ledger == ledger
    ensures Invoke(Invoke(ledger, faults, name, args).ledger, faults, name, args) == Invoke(ledger, faults, name, args)
  {
  }

  /** An invocation that answers with an error leaves the ledger as it was. */
  lemma ErrorsChangeNothing(ledger: Ledger, faults: Faults, name: string, args: seq<Argument>)
    requires |args| > 0
    ensures Invoke(ledger, faults, name, args).response.Error? ==> Invoke(ledger, faults, name, args).ledger == ledger
  {
  }

  /** Every invocation keeps the records' usernames equal to their keys and removes no key. */
  lemma InvokePreserves(ledger: Ledger, faults: Faults, name: string, args: seq<Argument>)
    requires |args| > 0
    ensures KeysMatch(ledger) ==> KeysMatch(Invoke(ledger, faults, name, args).ledger)
    ensures ledger.Keys <= Invoke(ledger, faults, name, args).ledger.Keys
  {
  }

  /** The worked example: register alice, read her key, look up the unknown bob. */
  lemma AliceScenario()
    ensures var faults := Faults(None, None);
      var alice := Argument("alice's record", map["username" := "alice", "publicKey" := "PK1", "data" := "ENC1", "verified" := ""]);
      var registered := Invoke(map[], faults, "Register", [alice]);
      && registered.response == Success(Record(Identity("alice", "PK1", "ENC1", "")))
      && registered.ledger == map["alice" := Identity("alice", "PK1", "ENC1", "")]
      && Invoke(registered.ledger, faults, "GetPublicKey", [Argument("alice", map["username" := "alice"])]).response
         == Success(PublicKeyOf("PK1"))
      && Invoke(registered.ledger, faults, "GetUserData", [Argument("bob", map["username" := "bob"])]).response
         == Error(NotFoundMessage)
  {
  }

  // ---------------------------------------------------------------------------
  // Sequences of transactions

  /** One invocation with the failures the host reports while it runs. */
  datatype Transaction = Transaction(name: string, args: seq<Argument>, faults: Faults)

  /** Every transaction carries the argument each handler reads. */
  predicate Callable(trace: seq<Transaction>)
  {
    forall k :: 0 <= k < |trace| ==> |trace[k].args| > 0
  }

  /** The outcome of one transaction. */
  function Execute(ledger: Ledger, tx: Transaction): Outcome
    requires |tx.args| > 0
  {
    Invoke(ledger, tx.faults, tx.name, tx.args)
  }

  /**
   * The ledger after the transactions, in order. No transaction removes a key,
   * and the key invariant holds afterwards when it held before.
   */
  function Run(ledger: Ledger, trace: seq<Transaction>): (final: Ledger)
    requires Callable(trace)
    ensures ledger.Keys <= final.Keys
    ensures KeysMatch(ledger) ==> KeysMatch(final)
    decreases |trace|
  {
    if trace == [] then ledger
    else
      InvokePreserves(ledger, trace[0].faults, trace[0].name, trace[0].args);
      Run(Execute(ledger, trace[0]).ledger, trace[1..])
  }

  /** The transaction is a successful registration of this username. */
  predicate Registers(tx: Transaction, username: string)
  {
    && tx.name == "Register"
    && tx.faults.putError.None?
    && |tx.args| > 0
    && DecodeIdentity(tx.args[0]).username == username
  }

  /**
   * A reference definition of what is stored for a username after a trace: the
   * record of the last successful registration of it, or else what was there before.
   */
  function Latest(ledger: Ledger, trace: seq<Transaction>, username: string): Option<Identity>
    decreases |trace|
  {
    if trace == [] then Find(ledger, username)
    else
      var tx := trace[|trace| - 1];
      if Registers(tx, username) then Some(DecodeIdentity(tx.args[0]))
      else Latest(ledger, trace[..|trace| - 1], username)
  }

  /** Running one more transaction is running the trace, then executing that transaction. */
  lemma {:induction false} RunSnoc(ledger: Ledger, trace: seq<Transaction>, tx: Transaction)
    requires Callable(trace) && |tx.args| > 0
    ensures Callable(trace + [tx])
    ensures Run(ledger, trace + [tx]) == Execute(Run(ledger, trace), tx).ledger
    decreases |trace|
  {
    if trace == [] {
      assert [] + [tx] == [tx];
      assert [tx][1..] == [];
    } else {
      assert (trace + [tx])[0] == trace[0];
      assert (trace + [tx])[1..] == trace[1..] + [tx];
      RunSnoc(Execute(ledger, trace[0]).ledger, trace[1..], tx);
    }
  }

  /** What one transaction does to the record stored under a username. */
  lemma ExecuteFind(ledger: Ledger, tx: Transaction, username: string)
    requires KeysMatch(ledger) && |tx.args| > 0
    ensures Find(Execute(ledger, tx).ledger, username) ==
      if Registers(tx, username) then Some(DecodeIdentity(tx.args[0])) else Find(ledger, username)
  {
  }

  /**
   * Last write wins: from a ledger with matching keys, after any trace the record
   * stored under a username is the one its last successful registration wrote,
   * and the keys still match.
   */
  lemma {:induction false} RunLatest(ledger: Ledger, trace: seq<Transaction>, username: string)
    requires KeysMatch(ledger) && Callable(trace)
    ensures Find(Run(ledger, trace), username) == Latest(ledger, trace, username)
    decreases |trace|
  {
    if trace != [] {
      var init, tx := trace[..|trace| - 1], trace[|trace| - 1];
      assert init + [tx] == trace;
      assert Callable(init) by {
        forall k | 0 <= k < |init| ensures |init[k].args| > 0 {
          assert init[k] == trace[k];
        }
      }
      RunSnoc(ledger, init, tx);
      RunLatest(ledger, init, username);
      ExecuteFind(Run(ledger, init), tx, username);
    }
  }

  /** After any trace from a ledger with matching keys, GetUserData answers with the latest registered data. */
  lemma RunThenGetUserData(ledger: Ledger, trace: seq<Transaction>, username: string, faults: Faults)
    requires KeysMatch(ledger) && Callable(trace) && faults.getError.None?
    ensures GetUserData(Run(ledger, trace), faults, username) ==
      match Latest(ledger, trace, username)
      case Some(identity) => Success(DataOf(identity.data))
      case None => Error(NotFoundMessage)
  {
    RunLatest(ledger, trace, username);
  }
}
