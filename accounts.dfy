/**
 * The account store as the handshake sees it: `GetAccount`, `CreateAccount`
 * and `UpdateAccount` over a map from username to account record.
 */
module Accounts {
  import opened Wrappers

  /** `AccountInfo`; `passwordHash` is the stored BCrypt hash and
      `privileges` the integer value of the `Privilege` flags. */
  datatype AccountInfo = AccountInfo(id: nat, username: string, passwordHash: string, privileges: int, address: string)

  /** Accounts by exact username; `nextId` is the next identifier the store
      hands out. */
  datatype Store = Store(accounts: map<string, AccountInfo>, nextId: nat)

  /** The store's invariant: each record sits under its own username, every
      identifier was handed out already, and no two records share one. */
  predicate WellFormed(s: Store) {
    && (forall u :: u in s.accounts ==> s.accounts[u].username == u && s.accounts[u].id < s.nextId)
    && (forall u, v :: u in s.accounts && v in s.accounts && u != v ==> s.accounts[u].id != s.accounts[v].id)
  }

  /** `GetAccount`: the record stored under exactly this username, if any. */
  function GetAccount(s: Store, username: string): (r: Option<AccountInfo>)
    ensures r.Some? <==> username in s.accounts
    ensures r.Some? ==> r.value == s.accounts[username]
  {
    if username in s.accounts then Some(s.accounts[username]) else None
  }

  /** `CreateAccount`: stores a new record under a username that has none,
      with a fresh identifier, and returns it. */
  function CreateAccount(s: Store, username: string, passwordHash: string, address: string, privileges: int): (r: (Store, AccountInfo))
    requires username !in s.accounts
    ensures r.0.accounts == s.accounts[username := r.1]
    ensures r.1 == AccountInfo(s.nextId, username, passwordHash, privileges, address)
  {
    var info := AccountInfo(s.nextId, username, passwordHash, privileges, address);
    (Store(s.accounts[username := info], s.nextId + 1), info)
  }

  /** `UpdateAccount`: records `address` as the last known address of the
      account with identifier `id`. */
  function UpdateAccount(s: Store, id: nat, address: string): (r: Store)
    ensures r.nextId == s.nextId && r.accounts.Keys == s.accounts.Keys
    ensures forall u :: u in s.accounts ==>
      if s.accounts[u].id == id then r.accounts[u] == s.accounts[u].(address := address)
      else r.accounts[u] == s.accounts[u]
  {
    Store(map u | u in s.accounts :: if s.accounts[u].id == id then s.accounts[u].(address := address) else s.accounts[u], s.nextId)
  }

  /** In a well-formed store, updating a record's address by its identifier
      changes that record and no other. */
  lemma UpdateChangesOneRecord(s: Store, username: string, address: string)
    requires WellFormed(s) && username in s.accounts
    ensures UpdateAccount(s, s.accounts[username].id, address).accounts
         == s.accounts[username := s.accounts[username].(address := address)]
  {
    var r := UpdateAccount(s, s.accounts[username].id, address);
    var expected := s.accounts[username := s.accounts[username].(address := address)];
    forall u | u in s.accounts
      ensures r.accounts[u] == expected[u]
    {
      if u != username {
        assert s.accounts[u].id != s.accounts[username].id;
      }
    }
  }

  /** Creating an account under an unused username keeps the store
      well-formed: the new identifier is fresh. */
  lemma CreatePreservesWellFormed(s: Store, username: string, passwordHash: string, address: string, privileges: int)
    requires WellFormed(s) && username !in s.accounts
    ensures WellFormed(CreateAccount(s, username, passwordHash, address, privileges).0)
  {
  }

  /** Updating an address keeps the store well-formed. */
  lemma UpdatePreservesWellFormed(s: Store, id: nat, address: string)
    requires WellFormed(s)
    ensures WellFormed(UpdateAccount(s, id, address))
  {
  }
}
