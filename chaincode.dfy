/**
 * The chaincode's handlers as imperative code over the host's ledger accessor.
 *
 * The chaincode object itself has no fields, so its handlers are module-level
 * methods that take the accessor. Each handler performs the same GetState and
 * PutState calls, in the same order and on the same branches, as the source, and
 * is proved to leave the response and ledger the corresponding Registry function
 * describes, so every lemma proved there holds of these methods.
 */
module Chaincode {
  import opened Wrappers
  import opened Registry

  /**
   * The host's ledger accessor for one transaction: the stored records, and the
   * failures its two primitives report during this transaction.
   */
  class Stub {
    var ledger: Ledger
    var faults: Faults

    constructor (ledger: Ledger, faults: Faults)
      ensures this.ledger == ledger && this.faults == faults
    {
      this.ledger := ledger;
      this.faults := faults;
    }

    /** Read a key: an error, or the stored record, or None when the key is absent. */
    method GetState(key: string) returns (r: Result<Option<Identity>, string>)
      ensures faults.getError.Some? ==> r == Err(faults.getError.value)
      ensures faults.getError.None? ==> r == Ok(Find(ledger, key))
    {
      match faults.getError {
        case Some(e) => r := Err(e);
        case None => r := Ok(if key in ledger then Some(ledger[key]) else None);
      }
    }

    /** Write a key, unless the host reports a failure; the failure, if any, is returned. */
    method PutState(key: string, value: Identity) returns (err: Option<string>)
      modifies this`ledger
      ensures err == faults.putError
      ensures ledger == if err.None? then old(ledger)[key := value] else old(ledger)
    {
      err := faults.putError;
      if err.None? {
        ledger := ledger[key := value];
      }
    }
  }

  /** Store the decoded record under its username and echo it. */
  method Register(stub: Stub, identity: Identity) returns (r: Response)
    modifies stub`ledger
    ensures Outcome(r, stub.ledger) == Registry.Register(old(stub.ledger), stub.faults, identity)
  {
    var err := stub.PutState(identity.username, identity);
    if err.Some? {
      return Error(err.value);
    }
    return Success(Record(identity));
  }

  /** Look up the user, set the new data on a local copy, and write back the stored record. */
  method UpdateUserData(stub: Stub, request: UpdateRequest) returns (r: Response)
    modifies stub`ledger
    ensures Outcome(r, stub.ledger) == Registry.UpdateUserData(old(stub.ledger), stub.faults, request)
  {
    var read := stub.GetState(request.username);
    if read.Err? {
      return Error(GetStateFailedMessage);
    }
    if read.value.None? {
      return Error(NotFoundMessage);
    }
    var stored := read.value.value;
    var local := stored.(data := request.data);
    var err := stub.PutState(local.username, stored);
    if err.Some? {
      return Error(err.value);
    }
    return Success(Record(stored));
  }

  /** Answer with the public key stored for the username. */
  method GetPublicKey(stub: Stub, username: string) returns (r: Response)
    ensures r == Registry.GetPublicKey(stub.ledger, stub.faults, username)
  {
    var read := stub.GetState(username);
    if read.Err? {
      return Error(GetStateFailedMessage);
    }
    if read.value.None? {
      return Error(NotFoundMessage);
    }
    return Success(PublicKeyOf(read.value.value.publicKey));
  }

  /** Answer with the encrypted data stored for the username. */
  method GetUserData(stub: Stub, username: string) returns (r: Response)
    ensures r == Registry.GetUserData(stub.ledger, stub.faults, username)
  {
    var read := stub.GetState(username);
    if read.Err? {
      return Error(GetStateFailedMessage);
    }
    if read.value.None? {
      return Error(NotFoundMessage);
    }
    return Success(DataOf(read.value.value.data));
  }

  /** Decode the first argument for the named operation and run its handler. */
  method Invoke(stub: Stub, name: string, args: seq<Argument>) returns (r: Response)
    requires |args| > 0
    modifies stub`ledger
    ensures Outcome(r, stub.ledger) == Registry.Invoke(old(stub.ledger), stub.faults, name, args)
  {
    if name == "Register" {
      r := Register(stub, DecodeIdentity(args[0]));
      return;
    }
    if name == "UpdateUserData" {
      r := UpdateUserData(stub, DecodeUpdateRequest(args[0]));
      return;
    }
    if name == "GetPublicKey" {
      r := GetPublicKey(stub, DecodeUsername(args[0]));
      return;
    }
    if name == "GetUserData" {
      r := GetUserData(stub, DecodeUsername(args[0]));
      return;
    }
    return Error(UnknownActionMessage + args[0].text);
  }

  /**
   * A host running the registry from an empty ledger: register a user, read the
   * key back, and look up a user nobody registered.
   */
  method Scenario() returns (key: Response, missing: Response)
    ensures key == Success(PublicKeyOf("PK1"))
    ensures missing == Error(NotFoundMessage)
  {
    var stub := new Stub(map[], Faults(None, None));
    var alice := Argument("alice", map["username" := "alice", "publicKey" := "PK1", "data" := "ENC1", "verified" := ""]);
    var registered := Invoke(stub, "Register", [alice]);
    assert registered == Success(Record(Identity("alice", "PK1", "ENC1", "")));
    key := Invoke(stub, "GetPublicKey", [Argument("alice", map["username" := "alice"])]);
    missing := Invoke(stub, "GetUserData", [Argument("bob", map["username" := "bob"])]);
  }
}
