/**
 * The login handshake as a function of the state it reads: which
 * collaborator calls it makes, in which order, what state it leaves and how
 * it ends. `AuthenticationHandler.Server.HandleAuthenticate` is proved to
 * behave exactly like `Authenticate`.
 */
module Handshake {
  import opened Wrappers
  import opened Text
  import opened Credentials
  import opened Packets
  import opened Accounts

  /** The character decoded from field 4 of the request; only the fields the
      handshake touches. */
  datatype CharacterObject = CharacterObject(name: string, sequence: nat)

  /** The decoded login request: fields 2 (username), 3 (password),
      4 (character), 5 (version) and 6 (account name). A `None` string field
      is a null reference. */
  datatype LoginRequest = LoginRequest(
    username: Option<string>,
    password: string,
    character: CharacterObject,
    version: Option<string>,
    accountName: string)

  datatype SessionState =
    | Unauthenticated
    | SignedIn(account: AccountInfo, accountName: string, character: CharacterObject)

  /** The connecting session: its remote address, the packets queued for it
      and whether it is signed in. */
  datatype Session = Session(remote: string, outgoing: seq<Packet>, state: SessionState)

  /** Everything one handshake reads or writes: the account store, the shared
      queue of session sequence numbers and the connecting session. */
  datatype World = World(store: Store, sequences: seq<nat>, session: Session)

  /** What lies outside this model: the numeric values of the opcodes and of
      `Privilege.All`, the store's password hashing and `BCryptProvider.Verify`. */
  datatype Environment = Environment(
    opcodes: Opcodes,
    privilegeAll: int,
    hashPassword: string -> string,
    verifyPassword: (string, string) -> bool)

  /** One call of the handshake into a collaborator. */
  datatype Effect =
    | GetAccount(username: string)
    | CreateAccount(username: string, password: string, address: string, privileges: int)
    | VerifyPassword(password: string, hash: string)
    | UpdateAccount(id: nat, address: string)
    | EnqueuePacket(packet: Packet)
    | DequeueSequence
    | SignIn(account: AccountInfo, accountName: string, character: CharacterObject)

  /** How a handshake ends: refused with an error code, signed in with a
      sequence number, or stopped by `Dequeue` throwing on an empty queue. */
  datatype Outcome = Rejected(code: Byte) | Authenticated(sequence: nat) | SequenceExhausted

  datatype Step = Step(post: World, effects: seq<Effect>, outcome: Outcome)

  /** `step`, preceded by the calls already made. */
  function After(effects: seq<Effect>, step: Step): Step {
    step.(effects := effects + step.effects)
  }

  /** Appending the effects of `After(effects, step)` to a trace is appending
      `effects`, then those of `step`. */
  lemma AfterExtendsTrace(trace: seq<Effect>, effects: seq<Effect>, step: Step)
    ensures trace + After(effects, step).effects == trace + effects + step.effects
  {
  }

  /** `SendAuthenticationError` followed by `return`. */
  function Reject(w: World, env: Environment, code: Byte): Step {
    var p := AuthenticationError(env.opcodes, code);
    Step(w.(session := w.session.(outgoing := w.session.outgoing + [p])), [EnqueuePacket(p)], Rejected(code))
  }

  /** Lines 67-75 of the handler, after the account check: update the address, send the
      success packet, take a sequence number and sign the session in. */
  function Admit(w: World, env: Environment, request: LoginRequest, account: AccountInfo): Step {
    var remote := w.session.remote;
    var store := Accounts.UpdateAccount(w.store, account.id, remote);
    var p := AuthenticationSuccess(env.opcodes, account.privileges);
    var sent := w.session.outgoing + [p];
    var effects := [UpdateAccount(account.id, remote), EnqueuePacket(p), DequeueSequence];
    if w.sequences == [] then
      Step(World(store, [], w.session.(outgoing := sent)), effects, SequenceExhausted)
    else
      var character := request.character.(sequence := w.sequences[0]);
      Step(World(store, w.sequences[1..], Session(remote, sent, SignedIn(account, request.accountName, character))),
           effects + [SignIn(account, request.accountName, character)],
           Authenticated(w.sequences[0]))
  }

  /** Lines 53-54 of the handler: a username seen for the first time gets a
      new account with `Privilege.All`, and the session is admitted with it. */
  function Enrol(w: World, env: Environment, request: LoginRequest, username: string): Step
    requires username !in w.store.accounts
  {
    var remote := w.session.remote;
    var (store, account) := Accounts.CreateAccount(w.store, username, env.hashPassword(request.password), remote, env.privilegeAll);
    After([CreateAccount(username, request.password, remote, env.privilegeAll)],
          Admit(w.(store := store), env, request, account))
  }

  /** Lines 55-63 of the handler: an existing account is admitted only if the
      password verifies against its stored hash. */
  function CheckPassword(w: World, env: Environment, request: LoginRequest, account: AccountInfo): Step {
    var checked := [VerifyPassword(request.password, account.passwordHash)];
    if !env.verifyPassword(request.password, account.passwordHash) then
      After(checked, Reject(w, env, InvalidCredentials))
    else
      After(checked, Admit(w, env, request, account))
  }

  /** Lines 52-75 of the handler, once the request has passed both checks:
      look the username up, then enrol it or check the password. */
  function Provision(w: World, env: Environment, request: LoginRequest, username: string): Step {
    match Accounts.GetAccount(w.store, username)
    case None => After([GetAccount(username)], Enrol(w, env, request, username))
    case Some(account) => After([GetAccount(username)], CheckPassword(w, env, request, account))
  }

  /** `AuthenticationHandler.HandleAuthenticate`. */
  function Authenticate(w: World, env: Environment, request: LoginRequest): Step {
    if !ValidUsername(request.username) then
      Reject(w, env, InvalidCredentials)
    else if !SupportedClientVersion(request.version) then
      Reject(w, env, VersionMismatch)
    else
      Provision(w, env, request, request.username.value)
  }

  /** The packet the handshake queued last. */
  function LastSent(r: Step): Packet
    requires |r.post.session.outgoing| > 0
  {
    r.post.session.outgoing[|r.post.session.outgoing| - 1]
  }

  /** The calls that follow the success packet: one `Dequeue` and, if it
      yields a number, the sign-in with the character carrying it. */
  function SignInEffects(w: World, request: LoginRequest, account: AccountInfo): seq<Effect> {
    if w.sequences == [] then [DequeueSequence]
    else [DequeueSequence, SignIn(account, request.accountName, request.character.(sequence := w.sequences[0]))]
  }

  // ---------------------------------------------------------------------
  // Properties of the handshake

  /** A malformed username is refused with code 0 whatever the version: one
      error packet, no store call, no sequence number, no sign-in. */
  lemma BadUsernameRefused(w: World, env: Environment, request: LoginRequest)
    requires !ValidUsername(request.username)
    ensures var r := Authenticate(w, env, request);
      && r.outcome == Rejected(InvalidCredentials)
      && r.effects == [EnqueuePacket(AuthenticationError(env.opcodes, InvalidCredentials))]
      && r.post == w.(session := w.session.(outgoing := w.session.outgoing + [AuthenticationError(env.opcodes, InvalidCredentials)]))
  {
  }

  /** Code 1 is sent exactly when the username passed and the version did
      not: the version is checked only after the username. */
  lemma VersionCheckedAfterUsername(w: World, env: Environment, request: LoginRequest)
    ensures Authenticate(w, env, request).outcome == Rejected(VersionMismatch)
        <==> ValidUsername(request.username) && !SupportedClientVersion(request.version)
  {
  }

  /** A wrong version after a valid username: one code-1 packet and nothing
      else changes. */
  lemma WrongVersionRefused(w: World, env: Environment, request: LoginRequest)
    requires ValidUsername(request.username) && !SupportedClientVersion(request.version)
    ensures var r := Authenticate(w, env, request);
      && r.outcome == Rejected(VersionMismatch)
      && r.effects == [EnqueuePacket(AuthenticationError(env.opcodes, VersionMismatch))]
      && r.post == w.(session := w.session.(outgoing := w.session.outgoing + [AuthenticationError(env.opcodes, VersionMismatch)]))
  {
  }

  /** What every admitted handshake does, whichever way the account was found. */
  lemma AdmitEffects(w: World, env: Environment, request: LoginRequest, account: AccountInfo)
    ensures var r := Admit(w, env, request, account);
      && r.post.store == Accounts.UpdateAccount(w.store, account.id, w.session.remote)
      && r.post.session.outgoing == w.session.outgoing + [AuthenticationSuccess(env.opcodes, account.privileges)]
      && r.effects == [UpdateAccount(account.id, w.session.remote),
                       EnqueuePacket(AuthenticationSuccess(env.opcodes, account.privileges))]
                      + SignInEffects(w, request, account)
  {
  }

  /** Enrolment creates exactly the new record, whose address the update
      then leaves as it is, and sends the success packet for it. */
  lemma EnrolmentAdmits(w: World, env: Environment, request: LoginRequest, u: string)
    requires WellFormed(w.store) && u !in w.store.accounts
    ensures var r := Enrol(w, env, request, u);
      var created := AccountInfo(w.store.nextId, u, env.hashPassword(request.password), env.privilegeAll, w.session.remote);
      && r.post.store == Store(w.store.accounts[u := created], w.store.nextId + 1)
      && r.post.session.outgoing == w.session.outgoing + [AuthenticationSuccess(env.opcodes, env.privilegeAll)]
      && r.effects == [CreateAccount(u, request.password, w.session.remote, env.privilegeAll),
                       UpdateAccount(created.id, w.session.remote),
                       EnqueuePacket(AuthenticationSuccess(env.opcodes, env.privilegeAll))]
                      + SignInEffects(w, request, created)
  {
    var remote := w.session.remote;
    var created := AccountInfo(w.store.nextId, u, env.hashPassword(request.password), env.privilegeAll, remote);
    var s1 := Store(w.store.accounts[u := created], w.store.nextId + 1);
    AdmitEffects(w.(store := s1), env, request, created);
    // the address update rewrites the new record with the address it already has
    var s2 := Accounts.UpdateAccount(s1, created.id, remote);
    forall v | v in s1.accounts
      ensures s2.accounts[v] == s1.accounts[v]
    {
      if v != u {
        assert s1.accounts[v] == w.store.accounts[v];
      }
    }
    assert s2.accounts == s1.accounts;
  }

  /** A first login under a username creates exactly one account, with that
      username, the caller's address and `Privilege.All`, never consults a
      password hash, and sends the success packet carrying `Privilege.All`. */
  lemma NewAccountProvisioned(w: World, env: Environment, request: LoginRequest)
    requires WellFormed(w.store)
    requires ValidUsername(request.username) && SupportedClientVersion(request.version)
    requires request.username.value !in w.store.accounts
    ensures var r := Authenticate(w, env, request);
      var u := request.username.value;
      var created := AccountInfo(w.store.nextId, u, env.hashPassword(request.password), env.privilegeAll, w.session.remote);
      && r.post.store == Store(w.store.accounts[u := created], w.store.nextId + 1)
      && |r.post.store.accounts| == |w.store.accounts| + 1
      && r.effects == [GetAccount(u), CreateAccount(u, request.password, w.session.remote, env.privilegeAll),
                       UpdateAccount(created.id, w.session.remote),
                       EnqueuePacket(AuthenticationSuccess(env.opcodes, env.privilegeAll))]
                      + SignInEffects(w, request, created)
      && LastSent(r) == AuthenticationSuccess(env.opcodes, env.privilegeAll)
  {
    var u := request.username.value;
    var enrolled := Enrol(w, env, request, u);
    EnrolmentAdmits(w, env, request, u);
    assert Authenticate(w, env, request) == After([GetAccount(u)], enrolled);
  }

  /** A wrong password for an existing account: one code-0 packet, the same
      packet a malformed username gets, and nothing else changes: no update,
      no success packet, no sequence number, no sign-in. */
  lemma WrongPasswordRefused(w: World, env: Environment, request: LoginRequest)
    requires ValidUsername(request.username) && SupportedClientVersion(request.version)
    requires request.username.value in w.store.accounts
    requires !env.verifyPassword(request.password, w.store.accounts[request.username.value].passwordHash)
    ensures var r := Authenticate(w, env, request);
      var u := request.username.value;
      && r.outcome == Rejected(InvalidCredentials)
      && r.effects == [GetAccount(u), VerifyPassword(request.password, w.store.accounts[u].passwordHash),
                       EnqueuePacket(AuthenticationError(env.opcodes, InvalidCredentials))]
      && r.post == w.(session := w.session.(outgoing := w.session.outgoing + [AuthenticationError(env.opcodes, InvalidCredentials)]))
  {
  }

  /** A returning user with the right password: the record's address becomes
      the caller's, nothing else in the store changes, and the success packet
      carries the stored privileges. The session is signed in with the record
      as it was read, before the address update. */
  lemma ExistingAccountAdmitted(w: World, env: Environment, request: LoginRequest)
    requires WellFormed(w.store)
    requires ValidUsername(request.username) && SupportedClientVersion(request.version)
    requires request.username.value in w.store.accounts
    requires env.verifyPassword(request.password, w.store.accounts[request.username.value].passwordHash)
    ensures var r := Authenticate(w, env, request);
      var u := request.username.value;
      var account := w.store.accounts[u];
      && r.post.store == Store(w.store.accounts[u := account.(address := w.session.remote)], w.store.nextId)
      && LastSent(r) == AuthenticationSuccess(env.opcodes, account.privileges)
      && r.effects == [GetAccount(u), VerifyPassword(request.password, account.passwordHash),
                       UpdateAccount(account.id, w.session.remote),
                       EnqueuePacket(AuthenticationSuccess(env.opcodes, account.privileges))]
                      + SignInEffects(w, request, account)
  {
    UpdateChangesOneRecord(w.store, request.username.value, w.session.remote);
  }

  /** Every handshake queues exactly one packet after those already queued:
      the error packet for its code when refused, otherwise a success packet. */
  lemma OnePacketPerHandshake(w: World, env: Environment, request: LoginRequest)
    ensures var r := Authenticate(w, env, request);
      && |r.post.session.outgoing| == |w.session.outgoing| + 1
      && r.post.session.outgoing[..|w.session.outgoing|] == w.session.outgoing
      && (r.outcome.Rejected? ==> LastSent(r) == AuthenticationError(env.opcodes, r.outcome.code))
      && (!r.outcome.Rejected? ==> ReadResponse(env.opcodes, LastSent(r)).Granted?)
  {
    var r := Authenticate(w, env, request);
    if !r.outcome.Rejected? {
      SuccessPacketShape(env.opcodes, LastSent(r).payload.fields[1].value);
    }
  }

  /** How a handshake ends, stated against the request and the state alone:
      signed in exactly when both checks pass, the account is new or the
      password verifies, and the queue has a number to give. */
  lemma OutcomeCharacterised(w: World, env: Environment, request: LoginRequest)
    ensures var r := Authenticate(w, env, request);
      var screened := ValidUsername(request.username) && SupportedClientVersion(request.version);
      var known := screened && request.username.value in w.store.accounts;
      var passwordOk := known ==> env.verifyPassword(request.password, w.store.accounts[request.username.value].passwordHash);
      && (r.outcome.Authenticated? <==> screened && passwordOk && w.sequences != [])
      && (r.outcome == SequenceExhausted <==> screened && passwordOk && w.sequences == [])
      && (r.outcome == Rejected(VersionMismatch) <==> ValidUsername(request.username) && !SupportedClientVersion(request.version))
      && (r.outcome == Rejected(InvalidCredentials) <==> !ValidUsername(request.username) || (known && !passwordOk))
      && (r.outcome.Rejected? ==> r.outcome.code == InvalidCredentials || r.outcome.code == VersionMismatch)
  {
  }

  /** Exactly one sequence number is taken, from the front of the queue, and
      only on the admitted path; it is the one the signed-in character
      carries. A refused handshake leaves the queue and the session state as
      they were. */
  lemma SequenceTakenOnlyOnSignIn(w: World, env: Environment, request: LoginRequest)
    ensures var r := Authenticate(w, env, request);
      && (r.outcome.Authenticated? ==>
            && w.sequences != []
            && r.outcome.sequence == w.sequences[0]
            && r.post.sequences == w.sequences[1..]
            && r.post.session.state.SignedIn?
            && r.post.session.state.character == request.character.(sequence := w.sequences[0])
            && r.post.session.state.accountName == request.accountName)
      && (r.outcome.Rejected? ==>
            r.post.sequences == w.sequences && r.post.session.state == w.session.state && r.post.store == w.store)
      && (r.outcome == SequenceExhausted ==>
            w.sequences == [] && r.post.sequences == [] && r.post.session.state == w.session.state)
  {
  }

  /** The handshake never signs a session out, and it signs one in only when
      it is admitted with a sequence number. */
  lemma SessionOnlyMovesToSignedIn(w: World, env: Environment, request: LoginRequest)
    ensures var r := Authenticate(w, env, request);
      && r.post.session.remote == w.session.remote
      && (w.session.state.SignedIn? ==> r.post.session.state.SignedIn?)
      && (r.post.session.state != w.session.state ==> r.outcome.Authenticated?)
  {
  }

  /** The store stays well-formed: a created account gets a fresh identifier
      and the address update touches no username. */
  lemma AuthenticatePreservesWellFormed(w: World, env: Environment, request: LoginRequest)
    requires WellFormed(w.store)
    ensures var r := Authenticate(w, env, request);
      && WellFormed(r.post.store)
      && w.store.accounts.Keys <= r.post.store.accounts.Keys
      && w.store.nextId <= r.post.store.nextId
  {
    if ValidUsername(request.username) && SupportedClientVersion(request.version) {
      var u := request.username.value;
      var remote := w.session.remote;
      if u in w.store.accounts {
        UpdatePreservesWellFormed(w.store, w.store.accounts[u].id, remote);
      } else {
        var (store, account) := Accounts.CreateAccount(w.store, u, env.hashPassword(request.password), remote, env.privilegeAll);
        CreatePreservesWellFormed(w.store, u, env.hashPassword(request.password), remote, env.privilegeAll);
        UpdatePreservesWellFormed(store, account.id, remote);
      }
    }
  }

  /** Applies the handshake to each (session, request) pair in turn, every
      login on its own session but all against the same store and queue, and
      collects the sequence numbers handed out. */
  function RunLogins(w: World, env: Environment, logins: seq<(Session, LoginRequest)>): (World, seq<nat>)
    decreases |logins|
  {
    if logins == [] then (w, [])
    else
      var r := Authenticate(w.(session := logins[0].0), env, logins[0].1);
      var rest := RunLogins(r.post, env, logins[1..]);
      (rest.0, Issued(r) + rest.1)
  }

  /** The sequence number a handshake hands out, if any. */
  function Issued(r: Step): seq<nat> {
    if r.outcome.Authenticated? then [r.outcome.sequence] else []
  }

  predicate Distinct(s: seq<nat>) {
    forall i, j :: 0 <= i < j < |s| ==> s[i] != s[j]
  }

  /** The queue after one handshake: its front is taken exactly when the
      handshake signs in; an exhausted queue stays empty. */
  lemma QueueAfterHandshake(w: World, env: Environment, request: LoginRequest)
    ensures var r := Authenticate(w, env, request);
      && (r.outcome.Authenticated? ==> w.sequences != [] && r.outcome.sequence == w.sequences[0] && r.post.sequences == w.sequences[1..])
      && (!r.outcome.Authenticated? ==> r.post.sequences == w.sequences)
  {
  }

  /** One handshake hands out the front of the queue, if anything, and keeps
      the rest. */
  lemma HandshakeTakesFront(w: World, env: Environment, request: LoginRequest)
    ensures var r := Authenticate(w, env, request);
      && |Issued(r)| <= |w.sequences|
      && Issued(r) == w.sequences[..|Issued(r)|]
      && r.post.sequences == w.sequences[|Issued(r)|..]
  {
    QueueAfterHandshake(w, env, request);
  }

  /** Taking `k` elements from the front and then `m` more takes `k + m`. */
  lemma FrontsCompose(s: seq<nat>, k: nat, m: nat)
    requires k <= |s| && m <= |s| - k
    ensures s[..k] + s[k..][..m] == s[..k + m]
    ensures s[k..][m..] == s[k + m..]
  {
    assert s[k..][..m] == s[k..k + m];
  }

  /** The numbers handed out by a run of logins are the front of the queue, in
      order, and the queue keeps the rest. */
  lemma {:induction false} IssuedFromFrontOfQueue(w: World, env: Environment, logins: seq<(Session, LoginRequest)>)
    ensures var (post, issued) := RunLogins(w, env, logins);
      && |issued| <= |w.sequences|
      && issued == w.sequences[..|issued|]
      && post.sequences == w.sequences[|issued|..]
    decreases |logins|
  {
    if logins != [] {
      var r := Authenticate(w.(session := logins[0].0), env, logins[0].1);
      HandshakeTakesFront(w.(session := logins[0].0), env, logins[0].1);
      IssuedFromFrontOfQueue(r.post, env, logins[1..]);
      var rest := RunLogins(r.post, env, logins[1..]);
      FrontsCompose(w.sequences, |Issued(r)|, |rest.1|);
    }
  }

  /** Logins that succeed one after another never share a sequence number,
      provided the queue holds no number twice. */
  lemma IssuedNumbersDistinct(w: World, env: Environment, logins: seq<(Session, LoginRequest)>)
    requires Distinct(w.sequences)
    ensures Distinct(RunLogins(w, env, logins).1)
  {
    IssuedFromFrontOfQueue(w, env, logins);
  }
}
