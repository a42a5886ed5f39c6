/** internal/service/server/server.go: an earlier snapshot of the vault
    service. Only login-and-password records exist; the owner lookup's error
    is translated to the package's own sentinels; a record is passed by
    value, so the caller's copy is never encrypted.

    The package declares a storage interface with RegisterUser, UserByLogin
    and AddData, yet the service calls AddLoginPass and LoginPassList on it,
    and its User and Crypt types are declared in no file of the package. Its
    storage is therefore an interface here: what each method answers is
    given, and every call the service makes is logged with its arguments.
    Encryption is the crypt package's, with nonces from `crypto/rand`. */
module Server {
  import opened Wrappers
  import opened Strings
  import opened Errors
  import Crypt
  import Token
  import Random
  import Vault

  /** The contexts the service wraps each failure with. */
  const AddUserFailed := "failed to add user to storage"
  const GetUserLoginFailed := "failed to get user login"
  const BuildTokenFailed := "failed to build token"
  const GetUserFailed := "failed to get user by login"
  const EncryptLoginFailed := "failed to encrypt login"
  const EncryptPasswordFailed := "failed to encrypt password"
  const AddDataFailed := "failed to add data"
  const DataListFailed := "failed to get data list"

  const LoginPassSealing := [EncryptLoginFailed, EncryptPasswordFailed]

  /** `server.Data`, a value: the service encrypts its own copy. */
  datatype Data = Data(id: int, title: Bytes, login: Bytes, password: Bytes)

  /** the user record `UserByLogin` answers with */
  datatype User = User(id: Bytes, login: Bytes, passwordHash: Bytes)

  /** A call the service made on its storage, with the arguments it passed. */
  datatype Call =
    | RegisterUserCall(login: Bytes, passwordHash: Bytes)
    | UserByLoginCall(login: Bytes)
    | AddLoginPassCall(owner: Bytes, data: Data)
    | LoginPassListCall(owner: Bytes)

  /** The storage interface: each method's answer to its arguments, and the
      log of the calls made so far. */
  class Storage {
    const registered: (Bytes, Bytes) -> Result<Bytes, Error>
    const found: Bytes -> Result<User, Error>
    const added: (Bytes, Data) -> Option<Error>
    const listed: Bytes -> Result<seq<Data>, Error>
    var calls: seq<Call>

    constructor (registered: (Bytes, Bytes) -> Result<Bytes, Error>, found: Bytes -> Result<User, Error>,
                 added: (Bytes, Data) -> Option<Error>, listed: Bytes -> Result<seq<Data>, Error>)
      ensures this.registered == registered && this.found == found
      ensures this.added == added && this.listed == listed && calls == []
    {
      this.registered, this.found, this.added, this.listed := registered, found, added, listed;
      calls := [];
    }

    method RegisterUser(login: Bytes, passwordHash: Bytes) returns (r: Result<Bytes, Error>)
      modifies this`calls
      ensures r == registered(login, passwordHash) && calls == old(calls) + [RegisterUserCall(login, passwordHash)]
    {
      r := registered(login, passwordHash);
      calls := calls + [RegisterUserCall(login, passwordHash)];
    }

    method UserByLogin(login: Bytes) returns (r: Result<User, Error>)
      modifies this`calls
      ensures r == found(login) && calls == old(calls) + [UserByLoginCall(login)]
    {
      r := found(login);
      calls := calls + [UserByLoginCall(login)];
    }

    method AddLoginPass(owner: Bytes, data: Data) returns (r: Option<Error>)
      modifies this`calls
      ensures r == added(owner, data) && calls == old(calls) + [AddLoginPassCall(owner, data)]
    {
      r := added(owner, data);
      calls := calls + [AddLoginPassCall(owner, data)];
    }

    method LoginPassList(owner: Bytes) returns (r: Result<seq<Data>, Error>)
      modifies this`calls
      ensures r == listed(owner) && calls == old(calls) + [LoginPassListCall(owner)]
    {
      r := listed(owner);
      calls := calls + [LoginPassListCall(owner)];
    }
  }

  /** What AddDataLoginPass and DataLoginPassList report when the owner's
      lookup fails: exactly `ErrUserNotFound` for a not-found error, and
      otherwise a new error that keeps nothing of its cause. */
  function LookupError(e: Error): (r: Error)
    ensures Is(e, ServerNotFound) ==> r == Sentinel(ServerUserNotFound)
    ensures !Is(e, ServerNotFound) ==> r == Opaque(GetUserFailed) && forall s :: !Is(r, s)
  {
    if Is(e, ServerNotFound) then Sentinel(ServerUserNotFound) else Opaque(GetUserFailed)
  }

  /** The translated error matches one sentinel at most, `ErrUserNotFound`,
      and that one exactly when the cause was a not-found error: no sentinel
      of the storage survives the translation. */
  lemma LookupErrorMatches(e: Error, s: Sentinel)
    ensures Is(LookupError(e), s) <==> Is(e, ServerNotFound) && s == ServerUserNotFound
  {
    if Is(e, ServerNotFound) {
      SentinelIdentity(ServerUserNotFound, s);
    }
  }

  /** The login and password of a record, in the order they are encrypted. */
  function Secrets(d: Data): seq<Bytes> { [d.login, d.password] }

  /** `server.Service`. The password hasher is a function; the current time
      the token is stamped with is a parameter of `AuthUser`. */
  class Service {
    const store: Storage
    const rand: Random.Reader
    const hash: Bytes -> Bytes
    const token: Token.Token
    const jwt: Token.Jwt
    const crypt: Crypt.Crypt
    const aead: Crypt.Aead

    /** The cipher was built by `crypt.New`. */
    predicate Valid() {
      Crypt.AesKeySize(|crypt.secretKey|)
    }

    constructor (store: Storage, rand: Random.Reader, hash: Bytes -> Bytes, token: Token.Token, jwt: Token.Jwt,
                 crypt: Crypt.Crypt, aead: Crypt.Aead)
      ensures this.store == store && this.rand == rand && this.hash == hash
      ensures this.token == token && this.jwt == jwt && this.crypt == crypt && this.aead == aead
      ensures Valid() <==> Crypt.AesKeySize(|crypt.secretKey|)
    {
      this.store, this.rand, this.hash := store, rand, hash;
      this.token, this.jwt, this.crypt, this.aead := token, jwt, crypt, aead;
    }

    /** `RegisterUser`: storage gets the password's hash, never the password,
        and its error comes back wrapped, so it still matches its sentinels. */
    method RegisterUser(login: Bytes, password: Bytes) returns (r: Result<Bytes, Error>)
      modifies store`calls
      ensures store.calls == old(store.calls) + [RegisterUserCall(login, hash(password))]
      ensures var a := store.registered(login, hash(password));
              && (r.Ok? <==> a.Ok?)
              && (a.Ok? ==> r.value == a.value)
              && (a.Err? ==> r.error == Wrap(AddUserFailed, a.error) && forall s :: Is(r.error, s) <==> Is(a.error, s))
    {
      var id := store.RegisterUser(login, hash(password));
      if id.Err? {
        return Err(Wrap(AddUserFailed, id.error));
      }
      return Ok(id.value);
    }

    /** `AuthUser`: a token for the login when the password's hash matches
        the stored one, and `ErrUsersPasswordNotMatch` with no token when it
        does not. */
    method AuthUser(login: Bytes, password: Bytes, now: int) returns (r: Result<Bytes, Error>)
      modifies store`calls
      ensures store.calls == old(store.calls) + [UserByLoginCall(login)]
      ensures store.found(login).Err? ==> r == Err(Wrap(GetUserLoginFailed, store.found(login).error))
      ensures store.found(login).Ok? && hash(password) != store.found(login).value.passwordHash ==>
                r == Err(Sentinel(ServerUsersPasswordNotMatch))
      ensures store.found(login).Ok? && hash(password) == store.found(login).value.passwordHash ==>
                var t := Token.BuildNewJWTToken(token, jwt, login, now);
                && (r.Ok? <==> t.Ok?)
                && (r.Ok? ==> r.value == t.value)
                && (r.Err? ==> r.error == Wrap(BuildTokenFailed, t.error))
    {
      var u := store.UserByLogin(login);
      if u.Err? {
        return Err(Wrap(GetUserLoginFailed, u.error));
      }
      if hash(password) != u.value.passwordHash {
        return Err(Sentinel(ServerUsersPasswordNotMatch));
      }
      var t := Token.BuildNewJWTToken(token, jwt, login, now);
      if t.Err? {
        return Err(Wrap(BuildTokenFailed, t.error));
      }
      return Ok(t.value);
    }

    /** `AddDataLoginPass`: login, then password, encrypted in the service's
        copy of the record; storage is called only when both are, and gets
        the owner's id and the record with both fields as cipher text and
        its id and title as given. */
    method AddDataLoginPass(ownerLogin: Bytes, data: Data) returns (err: Option<Error>)
      requires Valid()
      modifies rand, store`calls
      ensures store.found(ownerLogin).Err? ==>
                && err == Some(LookupError(store.found(ownerLogin).error))
                && store.calls == old(store.calls) + [UserByLoginCall(ownerLogin)] && rand.pool == old(rand.pool)
      ensures store.found(ownerLogin).Ok? ==>
                var s := Vault.SealAll(crypt, aead, old(rand.pool), Secrets(data));
                && rand.pool == s.pool
                && (s.failure.Some? ==>
                      && err == Some(Wrap(LoginPassSealing[s.failedAt], s.failure.value))
                      && store.calls == old(store.calls) + [UserByLoginCall(ownerLogin)])
                && (s.failure.None? ==>
                      var owner, sent := store.found(ownerLogin).value.id, data.(login := s.fields[0], password := s.fields[1]);
                      && store.calls == old(store.calls) + [UserByLoginCall(ownerLogin), AddLoginPassCall(owner, sent)]
                      && (err.None? <==> store.added(owner, sent).None?)
                      && (err.Some? ==> err == Some(Wrap(AddDataFailed, store.added(owner, sent).value))))
    {
      var u := store.UserByLogin(ownerLogin);
      if u.Err? {
        return Some(LookupError(u.error));
      }
      ghost var p := rand.pool;
      var d := data;
      var e;
      var login, password;
      login, e := Vault.SealNext(rand, crypt, aead, p, Secrets(data), 0, d.login);
      d := d.(login := login);
      if e.Some? {
        return Some(Wrap(EncryptLoginFailed, e.value));
      }
      assert Secrets(data)[0 := login] == Secrets(d);
      password, e := Vault.SealNext(rand, crypt, aead, p, Secrets(d), 1, d.password);
      d := d.(password := password);
      if e.Some? {
        return Some(Wrap(EncryptPasswordFailed, e.value));
      }
      assert Secrets(d) == Secrets(data)[0 := login][1 := password];
      assert Vault.SealFrom(crypt, aead, p, Secrets(d), 2) == Vault.Sealing(Secrets(d), None, 0, Vault.PoolAfter(p, 2));
      e := store.AddLoginPass(u.value.id, d);
      if e.Some? {
        return Some(Wrap(AddDataFailed, e.value));
      }
      return None;
    }

    /** `DataLoginPassList`: the storage listing, unchanged. */
    method DataLoginPassList(ownerLogin: Bytes) returns (r: Result<seq<Data>, Error>)
      modifies store`calls
      ensures store.found(ownerLogin).Err? ==>
                r == Err(LookupError(store.found(ownerLogin).error)) &&
                store.calls == old(store.calls) + [UserByLoginCall(ownerLogin)]
      ensures store.found(ownerLogin).Ok? ==>
                var owner := store.found(ownerLogin).value.id;
                && store.calls == old(store.calls) + [UserByLoginCall(ownerLogin), LoginPassListCall(owner)]
                && (r.Ok? <==> store.listed(owner).Ok?)
                && (r.Ok? ==> r.value == store.listed(owner).value)
                && (r.Err? ==> r.error == Wrap(DataListFailed, store.listed(owner).error))
    {
      var u := store.UserByLogin(ownerLogin);
      if u.Err? {
        return Err(LookupError(u.error));
      }
      var data := store.LoginPassList(u.value.id);
      if data.Err? {
        return Err(Wrap(DataListFailed, data.error));
      }
      return Ok(data.value);
    }
  }
}
