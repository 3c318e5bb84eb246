# Pegasus login handshake, modelled in Dafny

This project models the login handshake of the Pegasus game server,
`AuthenticationHandler.HandleAuthenticate`. The handler takes a decoded login
request and either refuses it with one error packet, or admits the session:

- it finds the account, or creates one with `Privilege.All`;
- it records the caller's address;
- it sends one success packet carrying the account's privileges;
- it takes a sequence number from the shared session-sequence queue and
  signs the session in.

The model has two layers. `Handshake.Authenticate` is a pure function. It
gives the state after one handshake, the collaborator calls it makes in
order, and how it ends. `AuthenticationHandler.Server` is a class holding the
state the handler changes in place:

- the account map and the next identifier;
- the sequence queue;
- the session's outgoing packets and sign-in state;
- a ghost trace of collaborator calls.

`Server.HandleAuthenticate` runs the handler's steps with its early returns.
It is proved to match `Authenticate` exactly: same new state, same calls in
the same order, same ending. The properties of the handshake are lemmas about
`Authenticate`.

Files, one module each:

- `wrappers.dfy`: `Option`; `None` stands for a C# null reference or a missing record.
- `text.dfy`: the .NET string semantics the handler relies on.
  - `char.IsWhiteSpace` and `string.IsNullOrWhiteSpace`.
  - `string.Length`, which counts UTF-16 code units, so a character outside
    the Basic Multilingual Plane counts twice.
  - `Trim`, as an independent reference for "whitespace only".
- `credentials.dfy`: the username rule and the supported client version `"1.0.1.14"`.
- `packets.dfy`: the typed-field network object, the error and success
  responses built as the handler builds them, and the client's reading of a
  response.
- `accounts.dfy`: the account store as a map from username to `AccountInfo`,
  with `GetAccount`, `CreateAccount` and `UpdateAccount`.
- `handshake.dfy`: the handshake as a function, and its properties.
- `handler.dfy`: the `Server` class and `HandleAuthenticate`.

Values the handler takes from code outside this model are parameters
(`Handshake.Environment`):

- the numeric values of `ObjectOpcode.Authenticate`,
  `ObjectOpcode.AuthenticateError` and `Privilege.All`;
- the store's password hashing;
- `BCryptProvider.Verify`, as an uninterpreted predicate.

`HandleAuthenticate` returns nothing in C#. The model's `Outcome` result only
reports which way the handshake ended. The ending `SequenceExhausted` models
`Queue.Dequeue` throwing on an empty queue. In that case the address update
and the success packet have already happened, and the session is not signed
in.

The session is signed in with the `AccountInfo` as it was read. For an
existing account this is the record from before the address update (line
67 updates the store, not the local object); the model keeps that.

The session-sequence source is a queue, as the code's `Dequeue()` call shows,
not a counter that always has a next value. The model follows the code. So
distinct numbers are guaranteed only if the queue holds no duplicates
(`IssuedNumbersDistinct`).

`HandleAuthenticate` is split into methods along the handler's branches:
the handler itself (lines 16-50 plus the call), `Provision` (the lookup,
line 52), `Enrol` (the new account, lines 53-54), `CheckPassword` (lines
55-63) and `CompleteSignIn` (lines 67-75). The split keeps each proof small.
`Handshake` has a function for each of them (`Provision`, `Enrol`,
`CheckPassword`, `Admit`), and `After` puts the calls already made in front
of the rest of a handshake.

## Model

| member | source | states |
|---|---|---|
| Text.Length | Pegasus/Network/Handler/AuthenticationHandler.cs:38 | the .NET length of a string is between its character count and twice that, and is 0 only for the empty string |
| Text.LengthOfBmpText | Pegasus/Network/Handler/AuthenticationHandler.cs:38 | for text within the Basic Multilingual Plane the .NET length equals the character count |
| Text.TrimStart | Pegasus/Network/Handler/AuthenticationHandler.cs:37 | the result is a suffix of the input that starts with a non-whitespace character (or is empty), and everything removed is whitespace |
| Text.TrimEnd | Pegasus/Network/Handler/AuthenticationHandler.cs:37 | the result is a prefix of the input that ends with a non-whitespace character (or is empty), and everything removed is whitespace |
| Text.WhiteSpaceIffTrimmedEmpty | Pegasus/Network/Handler/AuthenticationHandler.cs:37 | a string is whitespace only exactly when trimming it leaves nothing, so `IsNullOrWhiteSpace` agrees with "empty after trimming" |
| Credentials.ValidUsernameByTrim | Pegasus/Network/Handler/AuthenticationHandler.cs:37-39 | a non-null username is accepted exactly when it is non-empty after trimming, at most 20 UTF-16 code units and not "Anonymous" |
| Credentials.RefusedUsernames | Pegasus/Network/Handler/AuthenticationHandler.cs:37-39 | null, whitespace-only, over-20-character and "Anonymous" usernames are each refused |
| Credentials.ShortUsernamesPassLength | Pegasus/Network/Handler/AuthenticationHandler.cs:38 | a username of at most 10 characters always passes the length rule |
| Credentials.SurrogatePairsCountTwice | Pegasus/Network/Handler/AuthenticationHandler.cs:38 | eleven characters outside the Basic Multilingual Plane are refused by the length rule, since they are 22 code units |
| Credentials.LengthOfAstralText | Pegasus/Network/Handler/AuthenticationHandler.cs:38 | text made only of characters outside the Basic Multilingual Plane has a .NET length of twice its character count |
| Packets.AddField | Pegasus/Network/Handler/AuthenticationHandler.cs:21-25 | adding a field sets that index and keeps every other field |
| Packets.ErrorPacketShape | Pegasus/Network/Handler/AuthenticationHandler.cs:18-27 | an error packet has exactly field 0 = the `AuthenticateError` opcode and field 1 = a nested object whose only field 0 is the code, and a client reads the code back |
| Packets.SuccessPacketShape | Pegasus/Network/Handler/AuthenticationHandler.cs:69-72 | a success packet has exactly field 0 = the `Authenticate` opcode and field 1 = the privileges, and a client reads the privileges back |
| Packets.ResponsesAreDistinct | Pegasus/Network/Handler/AuthenticationHandler.cs:18-27 | no error packet equals a success packet |
| Accounts.GetAccount | Pegasus/Network/Handler/AuthenticationHandler.cs:52-53 | a record is found exactly when one is stored under that exact username, and it is that record |
| Accounts.CreateAccount | Pegasus/Network/Handler/AuthenticationHandler.cs:54 | the store gains exactly one record, under the username, with a fresh identifier and the given hash, address and privileges |
| Accounts.UpdateAccount | Pegasus/Network/Handler/AuthenticationHandler.cs:67 | only records with that identifier get the new address; the usernames and every other field are kept |
| Accounts.UpdateChangesOneRecord | Pegasus/Network/Handler/AuthenticationHandler.cs:67 | in a well-formed store, updating by a record's identifier changes that one record's address and nothing else |
| Accounts.CreatePreservesWellFormed | Pegasus/Network/Handler/AuthenticationHandler.cs:53-54 | creating an account under an unused username keeps usernames and identifiers unique |
| Accounts.UpdatePreservesWellFormed | Pegasus/Network/Handler/AuthenticationHandler.cs:67 | the address update keeps the store well-formed |
| Handshake.BadUsernameRefused | Pegasus/Network/Handler/AuthenticationHandler.cs:37-43 | a malformed username, whatever the version, gives exactly one code-0 packet and no other call: no store access, no sequence number, no sign-in |
| Handshake.VersionCheckedAfterUsername | Pegasus/Network/Handler/AuthenticationHandler.cs:37-50 | code 1 is sent exactly when the username is valid and the version is not "1.0.1.14", so a bad username with a bad version gets code 0 |
| Handshake.WrongVersionRefused | Pegasus/Network/Handler/AuthenticationHandler.cs:46-50 | a valid username with a wrong version gives exactly one code-1 packet; store, queue and session state are unchanged |
| Handshake.AdmitEffects | Pegasus/Network/Handler/AuthenticationHandler.cs:67-75 | admission updates the address, queues the success packet with the account's privileges, then dequeues and, if a number came out, signs in, in that order |
| Handshake.EnrolmentAdmits | Pegasus/Network/Handler/AuthenticationHandler.cs:53-72 | in a well-formed store, enrolment adds exactly the new record, which the address update leaves as it is, sends the success packet with `Privilege.All` and makes the create, update, enqueue and dequeue calls in that order |
| Handshake.NewAccountProvisioned | Pegasus/Network/Handler/AuthenticationHandler.cs:52-54 | an unknown username gets exactly one new account with the caller's address and `Privilege.All`, no password check, and a success packet with `Privilege.All`; the full call sequence is given |
| Handshake.WrongPasswordRefused | Pegasus/Network/Handler/AuthenticationHandler.cs:55-62 | a failed password check gives one code-0 packet; no update, no success packet, no dequeue and no sign-in happen |
| Handshake.ExistingAccountAdmitted | Pegasus/Network/Handler/AuthenticationHandler.cs:55-72 | with the right password only that account's address changes, to the caller's; the success packet carries the stored privileges; the full call sequence is given |
| Handshake.OnePacketPerHandshake | Pegasus/Network/Handler/AuthenticationHandler.cs:18-27 | every handshake appends exactly one packet: the error packet of its code when refused, otherwise a success packet |
| Handshake.OutcomeCharacterised | Pegasus/Network/Handler/AuthenticationHandler.cs:37-75 | how the handshake ends, as an if-and-only-if on the request and the state: signed in exactly when both checks pass, the account is new or its password verifies, and the queue is non-empty; code 0 and code 1 exactly in their cases |
| Handshake.SequenceTakenOnlyOnSignIn | Pegasus/Network/Handler/AuthenticationHandler.cs:74-75 | a sign-in takes the front number of the queue and gives it to the signed-in character; a refusal leaves queue, store and session state as they were |
| Handshake.SessionOnlyMovesToSignedIn | Pegasus/Network/Handler/AuthenticationHandler.cs:75 | a handshake never signs a session out, and changes the session state only when it signs in |
| Handshake.AuthenticatePreservesWellFormed | Pegasus/Network/Handler/AuthenticationHandler.cs:52-67 | the store stays well-formed and loses no account |
| Handshake.HandshakeTakesFront | Pegasus/Network/Handler/AuthenticationHandler.cs:74 | one handshake hands out the front of the queue, or nothing, and leaves the rest of the queue |
| Handshake.IssuedFromFrontOfQueue | Pegasus/Network/Handler/AuthenticationHandler.cs:74 | over any series of logins on separate sessions, the numbers handed out are the front of the queue in order, and the queue keeps the rest |
| Handshake.IssuedNumbersDistinct | Pegasus/Network/Handler/AuthenticationHandler.cs:74 | if the queue holds no duplicates, no two successful logins in a series get the same sequence number |
| AuthenticationHandler.Server.GetAccount | Pegasus/Network/Handler/AuthenticationHandler.cs:52 | returns the stored record for the username, if any, and records the call |
| AuthenticationHandler.Server.CreateAccount | Pegasus/Network/Handler/AuthenticationHandler.cs:54 | the store becomes `Accounts.CreateAccount` of the old store, with the hashed password, and the call is recorded |
| AuthenticationHandler.Server.VerifyPassword | Pegasus/Network/Handler/AuthenticationHandler.cs:58 | returns the verdict of `BCryptProvider.Verify` and records the call |
| AuthenticationHandler.Server.UpdateAccount | Pegasus/Network/Handler/AuthenticationHandler.cs:67 | the store becomes `Accounts.UpdateAccount` of the old store, and the call is recorded |
| AuthenticationHandler.Server.EnqueuePacket | Pegasus/Network/Handler/AuthenticationHandler.cs:72 | appends the packet to the session's outgoing queue |
| AuthenticationHandler.Server.DequeueSequence | Pegasus/Network/Handler/AuthenticationHandler.cs:74 | takes the front of the sequence queue, or reports the empty queue on which `Dequeue` throws |
| AuthenticationHandler.Server.SignIn | Pegasus/Network/Handler/AuthenticationHandler.cs:75 | binds the session to the account, the account name and the character |
| AuthenticationHandler.Server.SendAuthenticationError | Pegasus/Network/Handler/AuthenticationHandler.cs:18-27 | queues exactly the error packet for the code |
| AuthenticationHandler.Server.HandleAuthenticate | Pegasus/Network/Handler/AuthenticationHandler.cs:16-76 | the new state, the calls made in order and the ending are exactly those of `Handshake.Authenticate`, and the store stays well-formed |
| AuthenticationHandler.Server.Provision | Pegasus/Network/Handler/AuthenticationHandler.cs:52-75 | looks the username up and continues as enrolment or password check, exactly as `Handshake.Provision` says |
| AuthenticationHandler.Server.Enrol | Pegasus/Network/Handler/AuthenticationHandler.cs:53-54 | creates the account with `Privilege.All` and admits the session, exactly as `Handshake.Enrol` says |
| AuthenticationHandler.Server.CheckPassword | Pegasus/Network/Handler/AuthenticationHandler.cs:55-63 | refuses with code 0 when the password does not verify and admits the session otherwise, exactly as `Handshake.CheckPassword` says |
| AuthenticationHandler.Server.CompleteSignIn | Pegasus/Network/Handler/AuthenticationHandler.cs:67-75 | the address update, success packet, dequeue and sign-in, as `Handshake.Admit` says |

## Left out

- Logging (line 65): it has no effect on behaviour.
- Decoding the request (lines 29-35): `NetworkObjectField.ReadStringField`,
  `GetField` and `CharacterObject.FromNetworkObject` are not part of this
  model. The request arrives decoded. A decode failure (missing field, wrong
  field type) is not modelled.
- Null password and account name: only the username and the version are
  nullable, because only they go through the handler's own checks. The
  password and the account name go straight to collaborators.
- The wire format of `ServerAuthenticationPacket` and the typed-field codec:
  a network object is a map from field index to an integer or nested-object
  field.
- The numeric values of `ObjectOpcode` and `Privilege`: those enumerations
  are not part of this model, so their values are parameters. The privilege
  flags are an integer, and the `(int)` cast is the identity.
- `BCryptProvider.Verify` and the store's password hashing are parameters.
  Salting, one-wayness and "the hash is never the plaintext" are not modelled.
- The database implementation: `DatabaseManager.Database` is not part of
  this model.
  - Store failures, the "store unavailable" path, are not modelled.
  - Identifiers are taken to be handed out in increasing order.
  - `CreateAccount` is only called for an unused username, as the handler
    does.
- Concurrency: the thread-safety of `NetworkManager.SessionSequence`, and two
  first logins with the same username racing to create an account. The model
  is single-threaded: each handshake runs to completion before the next.
- `session.Remote.Address.ToString()` is a given string per session.
- The session's own state beyond sign-in (`Session.SignIn` internals) is not
  part of this model.
- Handshake.IssuedNumbersDistinct: requires a queue without duplicates,
  because what fills `NetworkManager.SessionSequence` is not part of this
  model.
