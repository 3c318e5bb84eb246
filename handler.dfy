/**
 * `AuthenticationHandler.HandleAuthenticate` as the source runs it: a
 * sequence of calls into the account store, the session and the shared
 * sequence queue, with early returns. Every collaborator call appends to the
 * ghost `trace`, so the order of the calls is part of what is proved.
 */
module AuthenticationHandler {
  import opened Wrappers
  import opened Text
  import opened Credentials
  import opened Packets
  import Accounts
  import opened Handshake

  /** The server-side state one login handshake touches: the account
      database, the shared queue of session sequence numbers and the
      connecting session. */
  class Server {
    const env: Environment
    const remote: string

    var accounts: map<string, Accounts.AccountInfo>
    var nextId: nat
    var sequences: seq<nat>
    var outgoing: seq<Packet>
    var state: SessionState

    /** The collaborator calls made so far, in order. */
    ghost var trace: seq<Effect>

    /** The state as a value, in the terms of `Handshake.Authenticate`. */
    function Snapshot(): World
      reads this
    {
      World(Accounts.Store(accounts, nextId), sequences, Session(remote, outgoing, state))
    }

    ghost predicate Valid()
      reads this
    {
      Accounts.WellFormed(Snapshot().store)
    }

    constructor (env: Environment, remote: string, store: Accounts.Store, sequences: seq<nat>)
      requires Accounts.WellFormed(store)
      ensures Valid()
      ensures this.env == env && Snapshot() == World(store, sequences, Session(remote, [], Unauthenticated))
      ensures trace == []
    {
      this.env := env;
      this.remote := remote;
      this.accounts := store.accounts;
      this.nextId := store.nextId;
      this.sequences := sequences;
      this.outgoing := [];
      this.state := Unauthenticated;
      this.trace := [];
    }

    /** `Database.GetAccount`: reads the store. */
    method GetAccount(username: string) returns (info: Option<Accounts.AccountInfo>)
      modifies this`trace
      ensures info == Accounts.GetAccount(Snapshot().store, username)
      ensures trace == old(trace) + [Effect.GetAccount(username)]
    {
      info := if username in accounts then Some(accounts[username]) else None;
      trace := trace + [Effect.GetAccount(username)];
    }

    /** `Database.CreateAccount`: stores a new account under an unused
        username, hashing the password, and returns it. */
    method CreateAccount(username: string, password: string, address: string, privileges: int) returns (info: Accounts.AccountInfo)
      requires username !in accounts
      modifies this`accounts, this`nextId, this`trace
      ensures (Snapshot().store, info)
           == Accounts.CreateAccount(old(Snapshot().store), username, env.hashPassword(password), address, privileges)
      ensures trace == old(trace) + [Effect.CreateAccount(username, password, address, privileges)]
    {
      info := Accounts.AccountInfo(nextId, username, env.hashPassword(password), privileges, address);
      accounts := accounts[username := info];
      nextId := nextId + 1;
      trace := trace + [Effect.CreateAccount(username, password, address, privileges)];
    }

    /** `BCryptProvider.Verify`. */
    method VerifyPassword(password: string, hash: string) returns (ok: bool)
      modifies this`trace
      ensures ok == env.verifyPassword(password, hash)
      ensures trace == old(trace) + [Effect.VerifyPassword(password, hash)]
    {
      ok := env.verifyPassword(password, hash);
      trace := trace + [Effect.VerifyPassword(password, hash)];
    }

    /** `Database.UpdateAccount`: records the address of the account `id`. */
    method UpdateAccount(id: nat, address: string)
      modifies this`accounts, this`trace
      ensures Snapshot().store == Accounts.UpdateAccount(old(Snapshot().store), id, address)
      ensures trace == old(trace) + [Effect.UpdateAccount(id, address)]
    {
      accounts := map u | u in accounts :: if accounts[u].id == id then accounts[u].(address := address) else accounts[u];
      trace := trace + [Effect.UpdateAccount(id, address)];
    }

    /** `Session.EnqueuePacket`. */
    method EnqueuePacket(p: Packet)
      modifies this`outgoing, this`trace
      ensures outgoing == old(outgoing) + [p]
      ensures trace == old(trace) + [Effect.EnqueuePacket(p)]
    {
      outgoing := outgoing + [p];
      trace := trace + [Effect.EnqueuePacket(p)];
    }

    /** `NetworkManager.SessionSequence.Dequeue()`: the front of the queue, or
        `None` where the queue is empty and `Dequeue` throws. */
    method DequeueSequence() returns (next: Option<nat>)
      modifies this`sequences, this`trace
      ensures old(sequences) == [] ==> next == None && sequences == []
      ensures old(sequences) != [] ==> next == Some(old(sequences)[0]) && sequences == old(sequences)[1..]
      ensures trace == old(trace) + [Effect.DequeueSequence]
    {
      if sequences == [] {
        next := None;
      } else {
        next := Some(sequences[0]);
        sequences := sequences[1..];
      }
      trace := trace + [Effect.DequeueSequence];
    }

    /** `Session.SignIn`. */
    method SignIn(account: Accounts.AccountInfo, accountName: string, character: CharacterObject)
      modifies this`state, this`trace
      ensures state == SignedIn(account, accountName, character)
      ensures trace == old(trace) + [Effect.SignIn(account, accountName, character)]
    {
      state := SignedIn(account, accountName, character);
      trace := trace + [Effect.SignIn(account, accountName, character)];
    }

    /** The handler's local `SendAuthenticationError`: queues the error packet
        with `code`. */
    method SendAuthenticationError(code: Byte)
      modifies this`outgoing, this`trace
      ensures outgoing == old(outgoing) + [AuthenticationError(env.opcodes, code)]
      ensures trace == old(trace) + [Effect.EnqueuePacket(AuthenticationError(env.opcodes, code))]
    {
      var errorCode := AddField(EmptyObject, 0, IntField(code));
      var authenticationError := AddField(EmptyObject, 0, IntField(env.opcodes.authenticateError));
      authenticationError := AddField(authenticationError, 1, ObjectField(errorCode));
      EnqueuePacket(ServerAuthenticationPacket(authenticationError));
    }

    /** `HandleAuthenticate`: behaves exactly as `Handshake.Authenticate`
        says, in its new state, in the calls it makes and their order, and in
        how it ends; the store stays well-formed. */
    method HandleAuthenticate(request: LoginRequest) returns (outcome: Outcome)
      requires Valid()
      modifies this
      ensures Valid()
      ensures var r := Authenticate(old(Snapshot()), env, request);
        && Snapshot() == r.post
        && trace == old(trace) + r.effects
        && outcome == r.outcome
    {
      ghost var w := Snapshot();
      AuthenticatePreservesWellFormed(w, env, request);
      var username := request.username;

      if IsNullOrWhiteSpace(username)
        || Length(username.value) > MaxUsernameLength
        || username.value == ReservedUsername
      {
        BadUsernameRefused(w, env, request);
        SendAuthenticationError(InvalidCredentials);
        return Rejected(InvalidCredentials);
      }

      if request.version != Some(SupportedVersion) {
        WrongVersionRefused(w, env, request);
        SendAuthenticationError(VersionMismatch);
        return Rejected(VersionMismatch);
      }

      outcome := Provision(request, username.value);
    }

    /** Lines 52-75 of the handler: find the account, then enrol the
        username or check the password. */
    method Provision(request: LoginRequest, name: string) returns (outcome: Outcome)
      modifies this
      ensures var r := Handshake.Provision(old(Snapshot()), env, request, name);
        && Snapshot() == r.post
        && trace == old(trace) + r.effects
        && outcome == r.outcome
    {
      ghost var w := Snapshot();
      ghost var t := trace;
      var found := GetAccount(name);
      if found.None? {
        AfterExtendsTrace(t, [Effect.GetAccount(name)], Handshake.Enrol(w, env, request, name));
        outcome := Enrol(request, name);
      } else {
        AfterExtendsTrace(t, [Effect.GetAccount(name)], Handshake.CheckPassword(w, env, request, found.value));
        outcome := CheckPassword(request, found.value);
      }
    }

    /** Lines 53-54 of the handler, then the admission. */
    method Enrol(request: LoginRequest, name: string) returns (outcome: Outcome)
      requires name !in accounts
      modifies this
      ensures var r := Handshake.Enrol(old(Snapshot()), env, request, name);
        && Snapshot() == r.post
        && trace == old(trace) + r.effects
        && outcome == r.outcome
    {
      ghost var t := trace;
      var account := CreateAccount(name, request.password, remote, env.privilegeAll);
      AfterExtendsTrace(t, [Effect.CreateAccount(name, request.password, remote, env.privilegeAll)], Admit(Snapshot(), env, request, account));
      outcome := CompleteSignIn(request, account);
    }

    /** Lines 55-63 of the handler, then the admission. */
    method CheckPassword(request: LoginRequest, account: Accounts.AccountInfo) returns (outcome: Outcome)
      modifies this
      ensures var r := Handshake.CheckPassword(old(Snapshot()), env, request, account);
        && Snapshot() == r.post
        && trace == old(trace) + r.effects
        && outcome == r.outcome
    {
      ghost var t := trace;
      ghost var checked := [Effect.VerifyPassword(request.password, account.passwordHash)];
      var ok := VerifyPassword(request.password, account.passwordHash);
      if !ok {
        AfterExtendsTrace(t, checked, Reject(Snapshot(), env, InvalidCredentials));
        SendAuthenticationError(InvalidCredentials);
        return Rejected(InvalidCredentials);
      }
      AfterExtendsTrace(t, checked, Admit(Snapshot(), env, request, account));
      outcome := CompleteSignIn(request, account);
    }

    /** Lines 67-75 of the handler, once the account is settled: update the
        address, send the success packet, take a sequence number and sign in. */
    method CompleteSignIn(request: LoginRequest, account: Accounts.AccountInfo) returns (outcome: Outcome)
      modifies this
      ensures var r := Handshake.Admit(old(Snapshot()), env, request, account);
        && Snapshot() == r.post
        && trace == old(trace) + r.effects
        && outcome == r.outcome
    {
      UpdateAccount(account.id, remote);
      EnqueuePacket(AuthenticationSuccess(env.opcodes, account.privileges));

      var next := DequeueSequence();
      if next.None? {
        return SequenceExhausted;
      }
      var character := request.character.(sequence := next.value);
      SignIn(account, request.accountName, character);
      return Authenticated(next.value);
    }
  }
}
