# Identity Registry chaincode, modelled in Dafny

The dewallet chaincode keeps one `Identity` record per user (a username, a public key, an
encrypted data blob and a `verified` flag) in a Hyperledger Fabric world state keyed by
username. It offers four operations that `Invoke` picks by name:

- `Register` stores the decoded record under its username, overwriting whatever was there.
- `UpdateUserData` looks the user up. As written, it writes the stored record back unchanged.
- `GetPublicKey` returns only the stored `publicKey`.
- `GetUserData` returns only the stored `data`.

The project has three modules:

- `Wrappers` (wrappers.dfy): `Option` and `Result`.
- `Registry` (registry.dfy): the pure model. It contains:
  - the record type and the ledger as `map<string, Identity>`;
  - the host failures for one transaction (`Faults`: GetState fails, PutState fails with a text);
  - the lenient JSON decoding of request arguments;
  - one function per handler, returning the response and the new ledger;
  - `Invoke`, and sequences of transactions (`Run`);
  - the lemmas.
- `Chaincode` (chaincode.dfy): the same handlers as imperative methods. They work on a `Stub` class whose `ledger` map field `PutState` reassigns. Each method makes the source's GetState/PutState calls on the source's branches. Each is proved to produce exactly the outcome of its `Registry` function, so the lemmas about those functions hold of the methods.

Modelling decisions:

- JSON marshalling is the identity on records. A stored value is the `Identity` itself. A response payload is the record (`Record`), `{publicKey}` (`PublicKeyOf`) or `{data}` (`DataOf`).
- An invocation argument is its raw text plus the string members a JSON decode reads from it. An absent member decodes to `""`: each request struct starts zeroed (dewallet_cc.go:65, 91, 127, 163). `json.Unmarshal` sets only the string members present. It sets none when the text is not well-formed JSON. A member whose value is not a string is skipped and stays `""`.
- `UpdateUserData` is modelled as written: it writes back the originally stored record under that record's username. This is a no-op whenever every key matches its record's username, which `Run` keeps from any such ledger. `UpdateIsNoOp` proves the no-op under that invariant, and `UpdateWritesUnderStoredUsername` shows a ledger where the write-back is not a no-op. `UpdateUserDataPersisting` is a separate variant that persists the new data. `Invoke` does not use it.
- The unknown-operation error echoes `args[0]`, the first parameter after the function name, not the function name itself (dewallet_cc.go:37, 57-58).

## Model

| member | source | states |
|---|---|---|
| `Registry.DecodeMembers` | artifacts/src/github.com/dewallet/go/dewallet_cc.go:20-25 | decoding the four JSON members an Identity marshals to gives back that Identity |
| `Registry.DecodeEmpty` | artifacts/src/github.com/dewallet/go/dewallet_cc.go:65-66 | an argument with no members decodes to all-zero fields for every request type |
| `Registry.RegisterStoresAndEchoes` | artifacts/src/github.com/dewallet/go/dewallet_cc.go:65-74 | a successful Register maps the username to the record, leaves every other key as it was, and echoes the record |
| `Registry.RegisterOverwrites` | artifacts/src/github.com/dewallet/go/dewallet_cc.go:69 | registering a username twice leaves the second record, and when GetState does not fail both reads return its fields |
| `Registry.RegisterThenRead` | artifacts/src/github.com/dewallet/go/dewallet_cc.go:62-184 | after a successful Register, when GetState does not fail, GetPublicKey returns the record's publicKey and GetUserData its data |
| `Registry.NotFound` | artifacts/src/github.com/dewallet/go/dewallet_cc.go:94-172 | for an absent username, when GetState does not fail, UpdateUserData, GetPublicKey and GetUserData fail with "Username not found" and the ledger is unchanged |
| `Registry.GetStateFailure` | artifacts/src/github.com/dewallet/go/dewallet_cc.go:94-168 | when GetState fails, all three reading handlers fail with "Failed to get state" and the ledger is unchanged |
| `Registry.PutStateFailure` | artifacts/src/github.com/dewallet/go/dewallet_cc.go:69-109 | when PutState fails, Register and a found UpdateUserData return the ledger's error text and the ledger is unchanged |
| `Registry.UpdateIsNoOp` | artifacts/src/github.com/dewallet/go/dewallet_cc.go:102-111 | on a ledger whose keys match their usernames, UpdateUserData never changes the ledger, and on success it echoes the stored record |
| `Registry.UpdateWritesUnderStoredUsername` | artifacts/src/github.com/dewallet/go/dewallet_cc.go:103-106 | on {"bob" ↦ alice's record} the write-back goes under the stored username and adds the key "alice" |
| `Registry.UpdateOverwritesOtherUser` | artifacts/src/github.com/dewallet/go/dewallet_cc.go:103-106 | a stale record for alice kept under "bob" is written back under "alice", replacing alice's current record without adding a key |
| `Registry.UpdateDoesNotPersist` | artifacts/src/github.com/dewallet/go/dewallet_cc.go:102-111 | register with data A, update to B: GetUserData still returns A |
| `Registry.PersistingUpdateIsVisible` | artifacts/src/github.com/dewallet/go/dewallet_cc.go:104-106 | with the persisting variant, register A then update to B makes GetUserData return B while the public key stays |
| `Registry.PersistingUpdatePreserves` | artifacts/src/github.com/dewallet/go/dewallet_cc.go:102-106 | the persisting variant keeps the key set and the key invariant, and touches only the requested user's data |
| `Registry.InvokeDispatch` | artifacts/src/github.com/dewallet/go/dewallet_cc.go:37-58 | each of the four names runs its handler on the decoded first argument; any other name fails with a message echoing the first argument and changes nothing |
| `Registry.ReadsChangeNothing` | artifacts/src/github.com/dewallet/go/dewallet_cc.go:124-184 | GetPublicKey and GetUserData leave the ledger unchanged, so a second identical call gives the same answer |
| `Registry.ErrorsChangeNothing` | artifacts/src/github.com/dewallet/go/dewallet_cc.go:39-111 | any invocation that answers with an error leaves the ledger as it was |
| `Registry.InvokePreserves` | artifacts/src/github.com/dewallet/go/dewallet_cc.go:69-106 | every invocation keeps each record's username equal to its key and deletes no key |
| `Registry.AliceScenario` | artifacts/src/github.com/dewallet/go/dewallet_cc.go:39-172 | register alice with PK1/ENC1 stores exactly that record under "alice"; her key reads back as PK1; bob is not found |
| `Registry.Run` | artifacts/src/github.com/dewallet/go/dewallet_cc.go:34-59 | over any sequence of invocations, no key is ever removed and the key invariant is kept |
| `Registry.RunSnoc` | artifacts/src/github.com/dewallet/go/dewallet_cc.go:34-59 | running one more invocation is running the sequence, then that invocation |
| `Registry.ExecuteFind` | artifacts/src/github.com/dewallet/go/dewallet_cc.go:39-111 | on a ledger with matching keys, only a successful Register of a username changes what is stored under it |
| `Registry.RunLatest` | artifacts/src/github.com/dewallet/go/dewallet_cc.go:62-111 | last write wins: from a ledger whose keys match their usernames, after any sequence, a username holds the record of its last successful Register, or what it held before |
| `Registry.RunThenGetUserData` | artifacts/src/github.com/dewallet/go/dewallet_cc.go:160-184 | from a ledger whose keys match, when GetState does not fail, after any sequence GetUserData returns the data of the last successful registration, or else of the record held before, or "Username not found" if there is none |
| `Chaincode.Stub.GetState` | artifacts/src/github.com/dewallet/go/dewallet_cc.go:94-100 | the host read: the host's error, or the stored record, or nothing for an absent key |
| `Chaincode.Stub.PutState` | artifacts/src/github.com/dewallet/go/dewallet_cc.go:69-72 | the host write: stores the value under the key unless the host reports a failure, whose text it returns and leaves the ledger unchanged |
| `Chaincode.Register` | artifacts/src/github.com/dewallet/go/dewallet_cc.go:62-75 | the imperative handler leaves exactly the response and ledger of `Registry.Register` |
| `Chaincode.UpdateUserData` | artifacts/src/github.com/dewallet/go/dewallet_cc.go:88-112 | the imperative handler leaves exactly the response and ledger of `Registry.UpdateUserData` |
| `Chaincode.GetPublicKey` | artifacts/src/github.com/dewallet/go/dewallet_cc.go:124-148 | the handler returns `Registry.GetPublicKey`'s response and cannot modify the ledger |
| `Chaincode.GetUserData` | artifacts/src/github.com/dewallet/go/dewallet_cc.go:160-184 | the handler returns `Registry.GetUserData`'s response and cannot modify the ledger |
| `Chaincode.Invoke` | artifacts/src/github.com/dewallet/go/dewallet_cc.go:34-59 | imperative dispatch leaves exactly the response and ledger of `Registry.Invoke` |
| `Chaincode.Scenario` | artifacts/src/github.com/dewallet/go/dewallet_cc.go:39-172 | from an empty ledger, register alice, then her public key reads PK1 and bob's data is "Username not found" |

## Left out

- JSON encoding and decoding (`encoding/json`) are library code. Decoding is modelled only as a lookup of string members with `""` for absent ones. Some decoder behaviour is not modelled: case-insensitive member names and the bytes of the encoding.
- Of the Fabric shim's `ChaincodeStubInterface`, only `GetState` and `PutState` are modelled (by `Chaincode.Stub`). `pb.Response` is reduced to `Success(payload) | Error(message)`, without its status code. The rest of the shim and protocol layer is I/O and process bootstrap and is left out: `GetFunctionAndParameters` (the model takes the name and arguments directly), `Init`, `main`/`shim.Start` and the logger calls.
- The ledger's own behaviour is modelled only as a map with an optional failure per primitive per transaction. This leaves out consensus, endorsement, ordering, concurrent transactions, read-your-writes and which keys the host rejects.
- The reason `GetState` failed is dropped, as in the source: only "Failed to get state" is returned.
- An empty argument list makes the source panic on `args[0]`. `Registry.Invoke` and `Chaincode.Invoke` require at least one argument instead.
- `Registry.InvokeDispatch`: the unknown-name clause is one-way. A ledger error text could equal the unknown-action message, so the message alone does not prove the name was unknown.
- The `verified` field is carried unchanged. No handler reads or sets it.
