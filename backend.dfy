/** internal/service/backend/server.go: the vault service behind the gRPC
    handlers. Every record operation first resolves the owner's login; Add
    encrypts the record's sensitive fields in place, in order, and reaches
    storage only when all of them are encrypted; Get decrypts every field or
    fails as a whole; List passes the storage listing through. A binary's
    body is cut into chunks that are encrypted and stored one by one under the
    binary's id and their order number. */
module Backend {
  import opened Wrappers
  import opened Strings
  import opened Errors
  import opened Entity
  import opened Tables
  import Crypt
  import Token
  import Random
  import Storage
  import Chunking
  import Vault

  /** The sensitive fields of each record kind, in the order the service
      encrypts and decrypts them, and the record with those fields replaced. */
  function LoginPassFields(r: LoginPass): seq<Bytes> { [r.login, r.password] }

  function WithLoginPassFields(r: LoginPass, f: seq<Bytes>): (q: LoginPass)
    requires |f| == 2
    ensures q.id == r.id && q.title == r.title && LoginPassFields(q) == f
  {
    r.(login := f[0], password := f[1])
  }

  function TextFields(r: Text): seq<Bytes> { [r.text] }

  function WithTextFields(r: Text, f: seq<Bytes>): (q: Text)
    requires |f| == 1
    ensures q.id == r.id && q.title == r.title && TextFields(q) == f
  {
    r.(text := f[0])
  }

  function CardFields(r: Card): seq<Bytes> { [r.number, r.owner, r.expDate, r.cvcCode] }

  function WithCardFields(r: Card, f: seq<Bytes>): (q: Card)
    requires |f| == 4
    ensures q.id == r.id && q.title == r.title && CardFields(q) == f
  {
    r.(number := f[0], owner := f[1], expDate := f[2], cvcCode := f[3])
  }

  /** The contexts the service wraps each failure with. */
  const GetUserFailed := "failed to get user by login"
  const GetUserLoginFailed := "failed to get user login"
  const AddUserFailed := "failed to add user to storage"
  const BuildTokenFailed := "failed to build token"
  const EncryptLoginFailed := "failed to encrypt login"
  const EncryptPasswordFailed := "failed to encrypt password"
  const AddLoginPassFailed := "failed to add data"
  const LoginPassListFailed := "failed to get login & pass list"
  const GetLoginPassFailed := "failed to get login&password"
  const DecryptLoginFailed := "failed to decrypt login"
  const DecryptPasswordFailed := "failed to decrypt password"
  const EncryptTextFailed := "failed to encrypt text"
  const AddTextFailed := "failed to add text to storage"
  const TextListFailed := "failed to get text list"
  const GetTextFailed := "failed to get text"
  const DecryptTextFailed := "failed to decrypt text"
  const EncryptNumberFailed := "failed to encrypt card number"
  const EncryptOwnerFailed := "failed to encrypt card owner"
  const EncryptExpDateFailed := "failed to encrypt expiration date"
  const EncryptCvcFailed := "failed to encrypt cvc code"
  const DecryptNumberFailed := "failed to decrypt card number"
  const DecryptOwnerFailed := "failed to decrypt card owner"
  const DecryptExpDateFailed := "failed to decrypt expiration date"
  const DecryptCvcFailed := "failed to decrypt cvc code"
  const EncryptCardFailed := "failed to encrypt card data"
  const DecryptCardFailed := "failed to decrypt card data"
  const AddCardFailed := "failed to add card data"
  const CardListFailed := "failed to get card list"
  const GetCardFailed := "failed to get card"
  const AddBinaryFailed := "failed to add binary"
  const ErrGroupFailed := "errgroup error"
  const GetBinaryFailed := "failed to get binar by ID"
  const UpdateBinaryFailed := "failed to update binary"

  /** The contexts each field's failure is wrapped with, field by field. */
  const LoginPassSealing := [EncryptLoginFailed, EncryptPasswordFailed]
  const LoginPassOpening := [DecryptLoginFailed, DecryptPasswordFailed]
  const CardSealing := [EncryptNumberFailed, EncryptOwnerFailed, EncryptExpDateFailed, EncryptCvcFailed]
  const CardOpening := [DecryptNumberFailed, DecryptOwnerFailed, DecryptExpDateFailed, DecryptCvcFailed]

  /** The error a failed sealing gives, under the per-field contexts. */
  function SealError(contexts: seq<string>, s: Vault.Sealing): Option<Error>
    requires s.failure.Some? ==> s.failedAt < |contexts|
  {
    if s.failure.Some? then Some(Wrap(contexts[s.failedAt], s.failure.value)) else None
  }

  /** The error a failed opening gives, under the per-field contexts. */
  function OpenError(contexts: seq<string>, o: Vault.Opening): Option<Error>
    requires o.failure.Some? ==> o.failure.value.0 < |contexts|
  {
    if o.failure.Some? then Some(Wrap(contexts[o.failure.value.0], o.failure.value.1)) else None
  }

  /** `backend.Service`. The password hasher is a function; the current time
      the token is stamped with is a parameter of `AuthUser`. */
  class Service {
    const chunkSize: nat
    const store: Storage.Storage
    /** `crypto/rand.Reader`, which every `Encrypt` draws its nonce from */
    const rand: Random.Reader
    /** `Password.Hash` */
    const hash: Bytes -> Bytes
    const token: Token.Token
    const jwt: Token.Jwt
    const crypt: Crypt.Crypt
    const aead: Crypt.Aead

    /** The store is consistent and the cipher was built by `crypt.New`. */
    ghost predicate Valid()
      reads store
    {
      store.Valid() && Crypt.AesKeySize(|crypt.secretKey|)
    }

    constructor (chunkSize: nat, store: Storage.Storage, rand: Random.Reader, hash: Bytes -> Bytes,
                 token: Token.Token, jwt: Token.Jwt, crypt: Crypt.Crypt, aead: Crypt.Aead)
      ensures this.chunkSize == chunkSize && this.store == store && this.rand == rand && this.hash == hash
      ensures this.token == token && this.jwt == jwt && this.crypt == crypt && this.aead == aead
      ensures Valid() <==> store.Valid() && Crypt.AesKeySize(|crypt.secretKey|)
    {
      this.chunkSize, this.store, this.rand, this.hash := chunkSize, store, rand, hash;
      this.token, this.jwt, this.crypt, this.aead := token, jwt, crypt, aead;
    }

    /** What `UserByLogin(login)` answers when it is the next query. */
    ghost function Owner(login: Bytes): Result<User, Error>
      reads store
    {
      Storage.UserLookup(store.Faults(), store.users, login)
    }

    /** Whether the query k places after the next one is rejected. */
    ghost predicate FaultsAt(k: nat)
      reads store
    {
      store.queries + k in store.failing
    }

    /** Encrypting `fields` in order with nonces from the reader as it is now. */
    ghost function Sealed(fields: seq<Bytes>): Vault.Sealing
      requires Crypt.AesKeySize(|crypt.secretKey|)
      reads rand
    {
      Vault.SealAll(crypt, aead, rand.pool, fields)
    }

    /** `RegisterUser`: storage gets the password's hash, never the password. */
    method RegisterUser(login: Bytes, password: Bytes) returns (r: Result<nat, Error>)
      requires Valid()
      modifies store`users, store`queries
      ensures Valid() && store.queries == old(store.queries) + 1
      ensures old(store.Faults()) ==>
                r == Err(Wrap(AddUserFailed, Storage.Fault(Storage.ExecQuery))) &&
                store.users == old(store.users)
      ensures !old(store.Faults()) && Storage.FindUser(old(store.users), login).Some? ==>
                r == Err(Wrap(AddUserFailed, Sentinel(EntityAlreadyExists))) &&
                store.users == old(store.users)
      ensures !old(store.Faults()) && Storage.FindUser(old(store.users), login).None? ==>
                r == Ok(|old(store.users)| + 1) &&
                store.users == old(store.users) + [User(|old(store.users)| + 1, login, hash(password))]
    {
      var id := store.RegisterUser(login, hash(password));
      if id.Err? {
        return Err(Wrap(AddUserFailed, id.error));
      }
      return Ok(id.value);
    }

    /** `AuthUser`: a token for the login when the password's hash matches
        the stored one; the lookup comes first and no token is built on a
        mismatch. */
    method AuthUser(login: Bytes, password: Bytes, now: int) returns (r: Result<Bytes, Error>)
      requires Valid()
      modifies store`queries
      ensures Valid() && store.queries == old(store.queries) + 1
      ensures old(Owner(login)).Err? ==> r == Err(Wrap(GetUserLoginFailed, old(Owner(login)).error))
      ensures old(Owner(login)).Ok? && hash(password) != old(Owner(login)).value.passwordHash ==>
                r == Err(Sentinel(EntityUsersPasswordNotMatch))
      ensures old(Owner(login)).Ok? && hash(password) == old(Owner(login)).value.passwordHash ==>
                var t := Token.BuildNewJWTToken(token, jwt, login, now);
                && (r.Ok? <==> t.Ok?)
                && (r.Ok? ==> r.value == t.value)
                && (r.Err? ==> r.error == Wrap(BuildTokenFailed, t.error))
    {
      var u := store.UserByLogin(login);
      if u.Err? {
        return Err(Wrap(GetUserLoginFailed, u.error));
      }
      if hash(password) != u.value.passwordHash {
        return Err(Sentinel(EntityUsersPasswordNotMatch));
      }
      var t := Token.BuildNewJWTToken(token, jwt, login, now);
      if t.Err? {
        return Err(Wrap(BuildTokenFailed, t.error));
      }
      return Ok(t.value);
    }

    /** `AddDataLoginPass`: login then password encrypted in place; storage
        is reached only when both are, and gets the owner's id. */
    method AddDataLoginPass(ownerLogin: Bytes, data: DataLoginPass) returns (r: Result<int, Error>)
      requires Valid()
      modifies data, rand, store`loginPass, store`queries
      ensures Valid()
      ensures old(Owner(ownerLogin)).Err? ==>
                && r == Err(Wrap(GetUserFailed, old(Owner(ownerLogin)).error))
                && data.Value() == old(data.Value()) && rand.pool == old(rand.pool)
                && store.loginPass == old(store.loginPass) && store.queries == old(store.queries) + 1
      ensures old(Owner(ownerLogin)).Ok? ==>
                var s := old(Sealed(LoginPassFields(data.Value())));
                && data.Value() == WithLoginPassFields(old(data.Value()), s.fields)
                && rand.pool == s.pool
                && (s.failure.Some? ==>
                      && r == Err(SealError(LoginPassSealing, s).value)
                      && store.loginPass == old(store.loginPass) && store.queries == old(store.queries) + 1)
                && (s.failure.None? && old(FaultsAt(1)) ==>
                      && r == Err(Wrap(AddLoginPassFailed, Storage.Fault(Storage.ExecQuery)))
                      && store.loginPass == old(store.loginPass) && store.queries == old(store.queries) + 2)
                && (s.failure.None? && !old(FaultsAt(1)) ==>
                      && r == Ok(|old(store.loginPass)| + 1)
                      && store.loginPass == old(store.loginPass) +
                           [Row(old(Owner(ownerLogin)).value.id, data.Value().(id := |old(store.loginPass)| + 1))]
                      && store.queries == old(store.queries) + 2)
    {
      var u := store.UserByLogin(ownerLogin);
      if u.Err? {
        return Err(Wrap(GetUserFailed, u.error));
      }
      var err := EncryptLoginPass(data);
      if err.Some? {
        return Err(err.value);
      }
      var id := store.AddLoginPass(u.value.id, data);
      if id.Err? {
        return Err(Wrap(AddLoginPassFailed, id.error));
      }
      return Ok(id.value);
    }

    /** The encryption steps of `AddDataLoginPass`: login, then password,
        encrypted in place, stopping at the first failure. */
    method EncryptLoginPass(data: DataLoginPass) returns (err: Option<Error>)
      requires Crypt.AesKeySize(|crypt.secretKey|)
      modifies data, rand
      ensures var s := old(Sealed(LoginPassFields(data.Value())));
              && data.Value() == WithLoginPassFields(old(data.Value()), s.fields)
              && rand.pool == s.pool
              && err == SealError(LoginPassSealing, s)
    {
      ghost var p := rand.pool;
      ghost var f := LoginPassFields(data.Value());
      data.login, err := Vault.SealNext(rand, crypt, aead, p, f, 0, data.login);
      if err.Some? {
        return Some(Wrap(EncryptLoginFailed, err.value));
      }
      data.password, err := Vault.SealNext(rand, crypt, aead, p, f[0 := data.login], 1, data.password);
      if err.Some? {
        return Some(Wrap(EncryptPasswordFailed, err.value));
      }
      return None;
    }

    /** `DataLoginPassList`: the storage listing, unchanged and not decrypted. */
    method DataLoginPassList(ownerLogin: Bytes) returns (r: Result<seq<LoginPass>, Error>)
      requires Valid()
      modifies store`queries
      ensures Valid()
      ensures old(Owner(ownerLogin)).Err? ==>
                r == Err(Wrap(GetUserFailed, old(Owner(ownerLogin)).error)) &&
                store.queries == old(store.queries) + 1
      ensures old(Owner(ownerLogin)).Ok? ==> store.queries == old(store.queries) + 2
      ensures old(Owner(ownerLogin)).Ok? && old(FaultsAt(1)) ==>
                r == Err(Wrap(LoginPassListFailed, Storage.Fault(Storage.ExecQuery)))
      ensures old(Owner(ownerLogin)).Ok? && !old(FaultsAt(1)) ==>
                r == Ok(Listing(store.loginPass, old(Owner(ownerLogin)).value.id, Storage.LoginPassBrief))
    {
      var u := store.UserByLogin(ownerLogin);
      if u.Err? {
        return Err(Wrap(GetUserFailed, u.error));
      }
      var data := store.LoginPassList(u.value.id);
      if data.Err? {
        return Err(Wrap(LoginPassListFailed, data.error));
      }
      return Ok(data.value);
    }

    /** `DataLoginPass`: the owner's record with both fields decrypted, or
        an error and no record. */
    method DataLoginPass(ownerLogin: Bytes, id: int) returns (r: Result<DataLoginPass, Error>)
      requires Valid()
      modifies store`queries
      ensures Valid()
      ensures old(Owner(ownerLogin)).Err? ==>
                r == Err(Wrap(GetUserFailed, old(Owner(ownerLogin)).error)) &&
                store.queries == old(store.queries) + 1
      ensures old(Owner(ownerLogin)).Ok? ==> store.queries == old(store.queries) + 2
      ensures old(Owner(ownerLogin)).Ok? && old(FaultsAt(1)) ==>
                r == Err(Wrap(GetLoginPassFailed, Storage.Fault(Storage.ExecQuery)))
      ensures old(Owner(ownerLogin)).Ok? && !old(FaultsAt(1)) ==>
                var row := Select(store.loginPass, Storage.LoginPassId, old(Owner(ownerLogin)).value.id, id);
                && (row.None? ==> r == Err(Wrap(GetLoginPassFailed, Sentinel(EntityNoData))))
                && (row.Some? ==>
                      var o := Vault.OpenAll(crypt, aead, LoginPassFields(row.value));
                      && (o.failure.Some? ==> r == Err(OpenError(LoginPassOpening, o).value))
                      && (o.failure.None? ==> r.Ok? && fresh(r.value) && r.value.Value() == WithLoginPassFields(row.value, o.fields)))
    {
      var u := store.UserByLogin(ownerLogin);
      if u.Err? {
        return Err(Wrap(GetUserFailed, u.error));
      }
      var got := store.LoginPassByID(u.value.id, id);
      if got.Err? {
        return Err(Wrap(GetLoginPassFailed, got.error));
      }
      var data := got.value;
      var err := DecryptLoginPass(data);
      if err.Some? {
        return Err(err.value);
      }
      return Ok(data);
    }

    /** The decryption steps of `DataLoginPass`: login, then password,
        decrypted in place, stopping at the first failure. */
    method DecryptLoginPass(data: DataLoginPass) returns (err: Option<Error>)
      modifies data
      ensures var o := Vault.OpenAll(crypt, aead, LoginPassFields(old(data.Value())));
              data.Value() == WithLoginPassFields(old(data.Value()), o.fields) && err == OpenError(LoginPassOpening, o)
    {
      ghost var f := LoginPassFields(data.Value());
      Vault.OpenStep(Vault.Opener(crypt, aead), f, 0);
      var plain := Crypt.Decrypt(crypt, aead, data.login);
      if plain.Err? {
        data.login := [];
        return Some(Wrap(DecryptLoginFailed, plain.error));
      }
      data.login := plain.value;
      Vault.OpenStep(Vault.Opener(crypt, aead), f[0 := data.login], 1);
      plain := Crypt.Decrypt(crypt, aead, data.password);
      if plain.Err? {
        data.password := [];
        return Some(Wrap(DecryptPasswordFailed, plain.error));
      }
      data.password := plain.value;
      return None;
    }

    /** `AddDataText`: the text encrypted in place, then stored. */
    method AddDataText(ownerLogin: Bytes, data: DataText) returns (r: Result<int, Error>)
      requires Valid()
      modifies data, rand, store`texts, store`queries
      ensures Valid()
      ensures old(Owner(ownerLogin)).Err? ==>
                && r == Err(Wrap(GetUserFailed, old(Owner(ownerLogin)).error))
                && data.Value() == old(data.Value()) && rand.pool == old(rand.pool)
                && store.texts == old(store.texts) && store.queries == old(store.queries) + 1
      ensures old(Owner(ownerLogin)).Ok? ==>
                var s := old(Sealed(TextFields(data.Value())));
                && data.Value() == WithTextFields(old(data.Value()), s.fields)
                && rand.pool == s.pool
                && (s.failure.Some? ==>
                      && r == Err(Wrap(EncryptTextFailed, s.failure.value))
                      && store.texts == old(store.texts) && store.queries == old(store.queries) + 1)
                && (s.failure.None? && old(FaultsAt(1)) ==>
                      && r == Err(Wrap(AddTextFailed, Storage.Fault(Storage.ExecQuery)))
                      && store.texts == old(store.texts) && store.queries == old(store.queries) + 2)
                && (s.failure.None? && !old(FaultsAt(1)) ==>
                      && r == Ok(|old(store.texts)| + 1)
                      && store.texts == old(store.texts) +
                           [Row(old(Owner(ownerLogin)).value.id, data.Value().(id := |old(store.texts)| + 1))]
                      && store.queries == old(store.queries) + 2)
    {
      var u := store.UserByLogin(ownerLogin);
      if u.Err? {
        return Err(Wrap(GetUserFailed, u.error));
      }
      var err;
      data.text, err := Vault.SealNext(rand, crypt, aead, rand.pool, TextFields(data.Value()), 0, data.text);
      if err.Some? {
        return Err(Wrap(EncryptTextFailed, err.value));
      }
      var id := store.AddText(u.value.id, data);
      if id.Err? {
        return Err(Wrap(AddTextFailed, id.error));
      }
      return Ok(id.value);
    }

    /** `DataTextList` */
    method DataTextList(ownerLogin: Bytes) returns (r: Result<seq<Text>, Error>)
      requires Valid()
      modifies store`queries
      ensures Valid()
      ensures old(Owner(ownerLogin)).Err? ==>
                r == Err(Wrap(GetUserFailed, old(Owner(ownerLogin)).error)) &&
                store.queries == old(store.queries) + 1
      ensures old(Owner(ownerLogin)).Ok? ==> store.queries == old(store.queries) + 2
      ensures old(Owner(ownerLogin)).Ok? && old(FaultsAt(1)) ==>
                r == Err(Wrap(TextListFailed, Storage.Fault(Storage.ExecQuery)))
      ensures old(Owner(ownerLogin)).Ok? && !old(FaultsAt(1)) ==>
                r == Ok(Listing(store.texts, old(Owner(ownerLogin)).value.id, Storage.TextBrief))
    {
      var u := store.UserByLogin(ownerLogin);
      if u.Err? {
        return Err(Wrap(GetUserFailed, u.error));
      }
      var data := store.TextList(u.value.id);
      if data.Err? {
        return Err(Wrap(TextListFailed, data.error));
      }
      return Ok(data.value);
    }

    /** `DataText` */
    method DataText(ownerLogin: Bytes, id: int) returns (r: Result<DataText, Error>)
      requires Valid()
      modifies store`queries
      ensures Valid()
      ensures old(Owner(ownerLogin)).Err? ==>
                r == Err(Wrap(GetUserFailed, old(Owner(ownerLogin)).error)) &&
                store.queries == old(store.queries) + 1
      ensures old(Owner(ownerLogin)).Ok? ==> store.queries == old(store.queries) + 2
      ensures old(Owner(ownerLogin)).Ok? && old(FaultsAt(1)) ==>
                r == Err(Wrap(GetTextFailed, Storage.Fault(Storage.ExecQuery)))
      ensures old(Owner(ownerLogin)).Ok? && !old(FaultsAt(1)) ==>
                var row := Select(store.texts, Storage.TextId, old(Owner(ownerLogin)).value.id, id);
                && (row.None? ==> r == Err(Wrap(GetTextFailed, Sentinel(EntityNoData))))
                && (row.Some? ==>
                      var o := Crypt.Decrypt(crypt, aead, row.value.text);
                      && (o.Err? ==> r == Err(Wrap(DecryptTextFailed, o.error)))
                      && (o.Ok? ==> r.Ok? && fresh(r.value) && r.value.Value() == row.value.(text := o.value)))
    {
      var u := store.UserByLogin(ownerLogin);
      if u.Err? {
        return Err(Wrap(GetUserFailed, u.error));
      }
      var got := store.TextByID(u.value.id, id);
      if got.Err? {
        return Err(Wrap(GetTextFailed, got.error));
      }
      var data := got.value;
      var plain := Crypt.Decrypt(crypt, aead, data.text);
      if plain.Err? {
        data.text := [];
        return Err(Wrap(DecryptTextFailed, plain.error));
      }
      data.text := plain.value;
      return Ok(data);
    }

    /** `encryptCardData`: number, owner, expiration date and CVC code
        encrypted in place, stopping at the first failure. */
    method EncryptCardData(data: DataCard) returns (err: Option<Error>)
      requires Crypt.AesKeySize(|crypt.secretKey|)
      modifies data, rand
      ensures var s := old(Sealed(CardFields(data.Value())));
              && data.Value() == WithCardFields(old(data.Value()), s.fields)
              && rand.pool == s.pool
              && err == SealError(CardSealing, s)
    {
      ghost var p := rand.pool;
      ghost var f := CardFields(data.Value());
      data.number, err := Vault.SealNext(rand, crypt, aead, p, f, 0, data.number);
      if err.Some? {
        return Some(Wrap(EncryptNumberFailed, err.value));
      }
      f := f[0 := data.number];
      assert data.Value() == WithCardFields(old(data.Value()), f);
      data.owner, err := Vault.SealNext(rand, crypt, aead, p, f, 1, data.owner);
      if err.Some? {
        return Some(Wrap(EncryptOwnerFailed, err.value));
      }
      f := f[1 := data.owner];
      assert data.Value() == WithCardFields(old(data.Value()), f);
      data.expDate, err := Vault.SealNext(rand, crypt, aead, p, f, 2, data.expDate);
      if err.Some? {
        return Some(Wrap(EncryptExpDateFailed, err.value));
      }
      f := f[2 := data.expDate];
      assert data.Value() == WithCardFields(old(data.Value()), f);
      data.cvcCode, err := Vault.SealNext(rand, crypt, aead, p, f, 3, data.cvcCode);
      if err.Some? {
        return Some(Wrap(EncryptCvcFailed, err.value));
      }
      return None;
    }

    /** `decryptCardData`: the four fields decrypted in place, stopping at
        the first failure. */
    method DecryptCardData(data: DataCard) returns (err: Option<Error>)
      modifies data
      ensures var o := Vault.OpenAll(crypt, aead, CardFields(old(data.Value())));
              data.Value() == WithCardFields(old(data.Value()), o.fields) && err == OpenError(CardOpening, o)
    {
      ghost var f := CardFields(data.Value());
      Vault.OpenStep(Vault.Opener(crypt, aead), f, 0);
      var plain := Crypt.Decrypt(crypt, aead, data.number);
      if plain.Err? {
        data.number := [];
        return Some(Wrap(DecryptNumberFailed, plain.error));
      }
      data.number := plain.value;
      f := f[0 := data.number];
      assert data.Value() == WithCardFields(old(data.Value()), f);
      Vault.OpenStep(Vault.Opener(crypt, aead), f, 1);
      plain := Crypt.Decrypt(crypt, aead, data.owner);
      if plain.Err? {
        data.owner := [];
        return Some(Wrap(DecryptOwnerFailed, plain.error));
      }
      data.owner := plain.value;
      f := f[1 := data.owner];
      assert data.Value() == WithCardFields(old(data.Value()), f);
      Vault.OpenStep(Vault.Opener(crypt, aead), f, 2);
      plain := Crypt.Decrypt(crypt, aead, data.expDate);
      if plain.Err? {
        data.expDate := [];
        return Some(Wrap(DecryptExpDateFailed, plain.error));
      }
      data.expDate := plain.value;
      f := f[2 := data.expDate];
      assert data.Value() == WithCardFields(old(data.Value()), f);
      Vault.OpenStep(Vault.Opener(crypt, aead), f, 3);
      plain := Crypt.Decrypt(crypt, aead, data.cvcCode);
      if plain.Err? {
        data.cvcCode := [];
        return Some(Wrap(DecryptCvcFailed, plain.error));
      }
      data.cvcCode := plain.value;
      return None;
    }

    /** `AddDataCard` */
    method AddDataCard(ownerLogin: Bytes, data: DataCard) returns (r: Result<int, Error>)
      requires Valid()
      modifies data, rand, store`cards, store`queries
      ensures Valid()
      ensures old(Owner(ownerLogin)).Err? ==>
                && r == Err(Wrap(GetUserFailed, old(Owner(ownerLogin)).error))
                && data.Value() == old(data.Value()) && rand.pool == old(rand.pool)
                && store.cards == old(store.cards) && store.queries == old(store.queries) + 1
      ensures old(Owner(ownerLogin)).Ok? ==>
                var s := old(Sealed(CardFields(data.Value())));
                && data.Value() == WithCardFields(old(data.Value()), s.fields)
                && rand.pool == s.pool
                && (s.failure.Some? ==>
                      && r == Err(Wrap(EncryptCardFailed, SealError(CardSealing, s).value))
                      && store.cards == old(store.cards) && store.queries == old(store.queries) + 1)
                && (s.failure.None? && old(FaultsAt(1)) ==>
                      && r == Err(Wrap(AddCardFailed, Storage.Fault(Storage.ExecQuery)))
                      && store.cards == old(store.cards) && store.queries == old(store.queries) + 2)
                && (s.failure.None? && !old(FaultsAt(1)) ==>
                      && r == Ok(|old(store.cards)| + 1)
                      && store.cards == old(store.cards) +
                           [Row(old(Owner(ownerLogin)).value.id, data.Value().(id := |old(store.cards)| + 1))]
                      && store.queries == old(store.queries) + 2)
    {
      var u := store.UserByLogin(ownerLogin);
      if u.Err? {
        return Err(Wrap(GetUserFailed, u.error));
      }
      var err := EncryptCardData(data);
      if err.Some? {
        return Err(Wrap(EncryptCardFailed, err.value));
      }
      var id := store.AddCard(u.value.id, data);
      if id.Err? {
        return Err(Wrap(AddCardFailed, id.error));
      }
      return Ok(id.value);
    }

    /** `DataCardList` */
    method DataCardList(ownerLogin: Bytes) returns (r: Result<seq<Card>, Error>)
      requires Valid()
      modifies store`queries
      ensures Valid()
      ensures old(Owner(ownerLogin)).Err? ==>
                r == Err(Wrap(GetUserFailed, old(Owner(ownerLogin)).error)) &&
                store.queries == old(store.queries) + 1
      ensures old(Owner(ownerLogin)).Ok? ==> store.queries == old(store.queries) + 2
      ensures old(Owner(ownerLogin)).Ok? && old(FaultsAt(1)) ==>
                r == Err(Wrap(CardListFailed, Storage.Fault(Storage.ExecQuery)))
      ensures old(Owner(ownerLogin)).Ok? && !old(FaultsAt(1)) ==>
                r == Ok(Listing(store.cards, old(Owner(ownerLogin)).value.id, Storage.CardBrief))
    {
      var u := store.UserByLogin(ownerLogin);
      if u.Err? {
        return Err(Wrap(GetUserFailed, u.error));
      }
      var data := store.CardList(u.value.id);
      if data.Err? {
        return Err(Wrap(CardListFailed, data.error));
      }
      return Ok(data.value);
    }

    /** `DataCard` */
    method DataCard(ownerLogin: Bytes, id: int) returns (r: Result<DataCard, Error>)
      requires Valid()
      modifies store`queries
      ensures Valid()
      ensures old(Owner(ownerLogin)).Err? ==>
                r == Err(Wrap(GetUserFailed, old(Owner(ownerLogin)).error)) &&
                store.queries == old(store.queries) + 1
      ensures old(Owner(ownerLogin)).Ok? ==> store.queries == old(store.queries) + 2
      ensures old(Owner(ownerLogin)).Ok? && old(FaultsAt(1)) ==>
                r == Err(Wrap(GetCardFailed, Storage.Fault(Storage.ExecQuery)))
      ensures old(Owner(ownerLogin)).Ok? && !old(FaultsAt(1)) ==>
                var row := Select(store.cards, Storage.CardId, old(Owner(ownerLogin)).value.id, id);
                && (row.None? ==> r == Err(Wrap(GetCardFailed, Sentinel(EntityNoData))))
                && (row.Some? ==>
                      var o := Vault.OpenAll(crypt, aead, CardFields(row.value));
                      && (o.failure.Some? ==> r == Err(Wrap(DecryptCardFailed, OpenError(CardOpening, o).value)))
                      && (o.failure.None? ==> r.Ok? && fresh(r.value) && r.value.Value() == WithCardFields(row.value, o.fields)))
    {
      var u := store.UserByLogin(ownerLogin);
      if u.Err? {
        return Err(Wrap(GetUserFailed, u.error));
      }
      var got := store.CardByID(u.value.id, id);
      if got.Err? {
        return Err(Wrap(GetCardFailed, got.error));
      }
      var data := got.value;
      var err := DecryptCardData(data);
      if err.Some? {
        return Err(Wrap(DecryptCardFailed, err.value));
      }
      return Ok(data);
    }
  
    /** State after the workers of the upload's first n chunks are done: the
        rows they added over `base`, the draws they made, the queries they
        ran, and the chunks' foreign key kept. */
    ghost predicate Fed(u: Vault.Upload, base: map<(int, int), Bytes>, n: nat)
      reads store, rand
    {
      && n <= |u.chunks| && store.ChunksValid() && Crypt.AesKeySize(|crypt.secretKey|)
      && rand.pool == Vault.PoolAfter(u.pool, n)
      && store.queries == u.firstQuery + Vault.Drawn(u.pool, n)
      && store.chunks == base + Vault.Writes(crypt, aead, store.failing, u, n)
    }

    /** One chunk worker, run to completion: encrypt the chunk, then store it
        under the binary's id and its order number. */
    method StoreChunk(binID: int, orderNumber: int, chunk: Bytes) returns (err: Option<Error>)
      requires store.ChunksValid() && Crypt.AesKeySize(|crypt.secretKey|) && 1 <= binID <= |store.binaries|
      modifies rand, store`chunks, store`queries
      ensures store.ChunksValid() && rand.pool == Vault.PoolAfter(old(rand.pool), 1)
      ensures Vault.NthNonce(old(rand.pool), 0).None? ==>
                && err == Some(Wrap(Vault.EncryptChunk, Crypt.Encrypt(crypt, aead, None, chunk).error))
                && store.chunks == old(store.chunks) && store.queries == old(store.queries)
      ensures Vault.NthNonce(old(rand.pool), 0).Some? ==> store.queries == old(store.queries) + 1
      ensures Vault.NthNonce(old(rand.pool), 0).Some? && old(store.queries) in store.failing ==>
                err == Some(Wrap(Vault.AddChunk, Storage.Fault(Storage.ExecQuery))) &&
                store.chunks == old(store.chunks)
      ensures Vault.NthNonce(old(rand.pool), 0).Some? && old(store.queries) !in store.failing ==>
                err.None? &&
                store.chunks == old(store.chunks)[(binID, orderNumber) :=
                                  Crypt.Encrypt(crypt, aead, Vault.NthNonce(old(rand.pool), 0), chunk).value]
    {
      var encrypted, e := Vault.Seal(rand, crypt, aead, chunk);
      if e.Some? {
        return Some(Wrap(Vault.EncryptChunk, e.value));
      }
      var a := store.AddBinaryChunk(binID, encrypted, orderNumber);
      if a.Some? {
        return Some(Wrap(Vault.AddChunk, a.value));
      }
      return None;
    }

    /** `AddDataBinary`: the binary's row first, then its body cut into
        chunks of `chunkSize` bytes numbered from 1, each encrypted and
        stored under the row's id; the first chunk error, in order-number
        order, fails the call after every chunk was tried. */
    method AddDataBinary(ownerLogin: Bytes, binary: Binary) returns (r: Result<int, Error>)
      requires Valid()
      modifies rand, store`binaries, store`chunks, store`queries
      ensures Valid()
      ensures old(Owner(ownerLogin)).Err? ==>
                && r == Err(Wrap(GetUserFailed, old(Owner(ownerLogin)).error))
                && store.binaries == old(store.binaries) && store.chunks == old(store.chunks)
                && rand.pool == old(rand.pool) && store.queries == old(store.queries) + 1
      ensures old(Owner(ownerLogin)).Ok? && old(FaultsAt(1)) ==>
                && r == Err(Wrap(AddBinaryFailed, Storage.Fault(Storage.ExecQuery)))
                && store.binaries == old(store.binaries) && store.chunks == old(store.chunks)
                && rand.pool == old(rand.pool) && store.queries == old(store.queries) + 2
      ensures old(Owner(ownerLogin)).Ok? && !old(FaultsAt(1)) ==>
                var u := Vault.Upload(|old(store.binaries)| + 1, Chunking.Split(binary.body, chunkSize),
                                      old(rand.pool), old(store.queries) + 2);
                && store.binaries == old(store.binaries) +
                     [Row(old(Owner(ownerLogin)).value.id, BinaryInfo(u.binID, binary.title, binary.fileName))]
                && store.chunks == old(store.chunks) + Vault.Writes(crypt, aead, store.failing, u, |u.chunks|)
                && rand.pool == Vault.PoolAfter(u.pool, |u.chunks|)
                && store.queries == u.firstQuery + Vault.Drawn(u.pool, |u.chunks|)
                && (r.Ok? <==> Vault.FirstError(crypt, aead, store.failing, u, |u.chunks|).None?)
                && (r.Ok? ==> r.value == u.binID)
                && (r.Err? ==> r.error == Wrap(ErrGroupFailed, Vault.FirstError(crypt, aead, store.failing, u, |u.chunks|).value))
    {
      var owner := store.UserByLogin(ownerLogin);
      if owner.Err? {
        return Err(Wrap(GetUserFailed, owner.error));
      }
      var added := store.AddBinary(owner.value.id, binary);
      if added.Err? {
        return Err(Wrap(AddBinaryFailed, added.error));
      }
      var binID := added.value;
      ghost var u := Vault.Upload(binID, Chunking.Split(binary.body, chunkSize), rand.pool, store.queries);
      assert u == Vault.Upload(|old(store.binaries)| + 1, Chunking.Split(binary.body, chunkSize),
                               old(rand.pool), old(store.queries) + 2);
      ghost var base := store.chunks;
      assert base == old(store.chunks);
      var firstErr := FeedChunks(u, store.chunks, binID, binary.body);
      assert Valid();
      assert store.chunks == base + Vault.Writes(crypt, aead, store.failing, u, |u.chunks|);
      if firstErr.Some? {
        return Err(Wrap(ErrGroupFailed, firstErr.value));
      }
      return Ok(binID);
    }

    /** The `for b := range binary.Body` loop of `AddDataBinary` and its
        trailing flush: bytes gathered into `chunk` until it holds
        `chunkSize` of them, each full chunk and the non-empty remainder
        handed to a worker under the next order number, and `g.Wait()`'s
        first error. */
    method FeedChunks(ghost u: Vault.Upload, ghost base: map<(int, int), Bytes>, binID: int, body: Bytes)
      returns (firstErr: Option<Error>)
      requires store.ChunksValid() && Crypt.AesKeySize(|crypt.secretKey|) && u.binID == binID && 1 <= binID <= |store.binaries|
      requires u.chunks == Chunking.Split(body, chunkSize)
      requires rand.pool == u.pool && store.queries == u.firstQuery && store.chunks == base
      modifies rand, store`chunks, store`queries
      ensures Fed(u, base, |u.chunks|)
      ensures firstErr == Vault.FirstError(crypt, aead, store.failing, u, |u.chunks|)
    {
      Vault.NoneFed(crypt, aead, store.failing, u, base);
      var cnt: nat := 0;
      var chunkNum: nat := 0;
      var chunk: Bytes := [];
      firstErr := None;
      var i: nat := 0;
      while i < |body|
        invariant i <= |body| && Feeding(u, base, body, i, cnt, chunkNum, chunk, firstErr)
      {
        cnt, chunkNum, chunk, firstErr := Take(u, base, binID, body, i, cnt, chunkNum, chunk, firstErr);
        i := i + 1;
      }
      firstErr := FlushTail(u, base, binID, body, chunkNum, chunk, firstErr);
    }

    /** The loop's state after byte i: the bytes since the last flush
        gathered, the flushed chunks' workers done, their first error kept. */
    ghost predicate Feeding(u: Vault.Upload, base: map<(int, int), Bytes>, body: Bytes, i: nat, cnt: nat,
                            chunkNum: nat, chunk: Bytes, firstErr: Option<Error>)
      reads store, rand
    {
      && cnt == |chunk| && Chunking.Gathered(body, chunkSize, i, chunkNum, chunk) && Fed(u, base, chunkNum)
      && firstErr == Vault.FirstError(crypt, aead, store.failing, u, chunkNum)
    }

    /** The loop's body for byte i: the byte appended to the chunk, and a
        full chunk handed to a worker under the next order number. */
    method Take(ghost u: Vault.Upload, ghost base: map<(int, int), Bytes>, binID: int, body: Bytes,
                i: nat, cnt: nat, chunkNum: nat, chunk: Bytes, firstErr: Option<Error>)
      returns (cnt': nat, chunkNum': nat, chunk': Bytes, firstErr': Option<Error>)
      requires u.binID == binID && 1 <= binID <= |store.binaries|
      requires u.chunks == Chunking.Split(body, chunkSize)
      requires i < |body| && Feeding(u, base, body, i, cnt, chunkNum, chunk, firstErr)
      modifies rand, store`chunks, store`queries
      ensures Feeding(u, base, body, i + 1, cnt', chunkNum', chunk', firstErr')
    {
      Chunking.GatherByte(body, chunkSize, i, chunkNum, chunk);
      chunk' := chunk + [body[i]];
      cnt' := cnt + 1;
      chunkNum' := chunkNum;
      firstErr' := firstErr;
      if cnt' == chunkSize {
        cnt' := 0;
        chunkNum' := chunkNum' + 1;
        firstErr' := Flush(u, base, binID, chunkNum', chunk', firstErr');
        chunk' := [];
      }
    }

    /** After the loop: the non-empty remainder as the last chunk, and with
        it every chunk of the body handed over. */
    method FlushTail(ghost u: Vault.Upload, ghost base: map<(int, int), Bytes>, binID: int, body: Bytes,
                     chunkNum: nat, chunk: Bytes, firstErr: Option<Error>)
      returns (result: Option<Error>)
      requires u.binID == binID && 1 <= binID <= |store.binaries|
      requires u.chunks == Chunking.Split(body, chunkSize)
      requires Chunking.Gathered(body, chunkSize, |body|, chunkNum, chunk)
      requires Fed(u, base, chunkNum)
      requires firstErr == Vault.FirstError(crypt, aead, store.failing, u, chunkNum)
      modifies rand, store`chunks, store`queries
      ensures Fed(u, base, |u.chunks|)
      ensures result == Vault.FirstError(crypt, aead, store.failing, u, |u.chunks|)
    {
      Chunking.GatheredAll(body, chunkSize, chunkNum, chunk);
      result := firstErr;
      if |chunk| > 0 {
        result := Flush(u, base, binID, chunkNum + 1, chunk, result);
      }
    }

    /** A chunk handed to its worker: chunk `orderNumber` of the upload,
        whose earlier chunks are done, adds its row, and the error group
        keeps the first error reported so far. */
    method Flush(ghost u: Vault.Upload, ghost base: map<(int, int), Bytes>, binID: int, orderNumber: nat, chunk: Bytes, firstErr: Option<Error>)
      returns (first: Option<Error>)
      requires u.binID == binID && 1 <= binID <= |store.binaries|
      requires 1 <= orderNumber <= |u.chunks| && chunk == u.chunks[orderNumber - 1]
      requires Fed(u, base, orderNumber - 1)
      requires firstErr == Vault.FirstError(crypt, aead, store.failing, u, orderNumber - 1)
      modifies rand, store`chunks, store`queries
      ensures Fed(u, base, orderNumber)
      ensures first == Vault.FirstError(crypt, aead, store.failing, u, orderNumber)
    {
      ghost var pool, queries, chunks := rand.pool, store.queries, store.chunks;
      var err := StoreChunk(binID, orderNumber, chunk);
      Vault.ChunkStored(crypt, aead, store.failing, u, base, orderNumber, pool, queries, chunks, err,
                        rand.pool, store.queries, store.chunks);
      first := if firstErr.None? then err else firstErr;
    }

    /** `AddDataBinaryTitle`: the binary must be the owner's before its title
        is updated; the stored binary's id is returned. */
    method AddDataBinaryTitle(ownerLogin: Bytes, binary: Binary) returns (r: Result<int, Error>)
      requires Valid()
      modifies store`binaries, store`queries
      ensures Valid()
      ensures old(Owner(ownerLogin)).Err? ==>
                r == Err(Wrap(GetUserFailed, old(Owner(ownerLogin)).error)) &&
                store.binaries == old(store.binaries) && store.queries == old(store.queries) + 1
      ensures old(Owner(ownerLogin)).Ok? && old(FaultsAt(1)) ==>
                r == Err(Wrap(GetBinaryFailed, Storage.Fault(Storage.ExecQuery))) &&
                store.binaries == old(store.binaries) && store.queries == old(store.queries) + 2
      ensures old(Owner(ownerLogin)).Ok? && !old(FaultsAt(1)) ==>
                var row := Select(old(store.binaries), Storage.BinaryId, old(Owner(ownerLogin)).value.id, binary.id);
                && (row.None? ==>
                      r == Err(Wrap(GetBinaryFailed, Sentinel(EntityNoData))) &&
                      store.binaries == old(store.binaries) && store.queries == old(store.queries) + 2)
                && (row.Some? && old(FaultsAt(2)) ==>
                      r == Err(Wrap(UpdateBinaryFailed, Storage.Fault(Storage.ExecQuery))) &&
                      store.binaries == old(store.binaries) && store.queries == old(store.queries) + 3)
                && (row.Some? && !old(FaultsAt(2)) ==>
                      && r == Ok(row.value.id) && row.value.id == binary.id
                      && store.binaries == old(store.binaries)[binary.id - 1 :=
                           old(store.binaries)[binary.id - 1].(record := row.value.(title := binary.title))]
                      && store.queries == old(store.queries) + 3)
    {
      var u := store.UserByLogin(ownerLogin);
      if u.Err? {
        return Err(Wrap(GetUserFailed, u.error));
      }
      var bin := store.BinaryByID(u.value.id, binary.id);
      if bin.Err? {
        return Err(Wrap(GetBinaryFailed, bin.error));
      }
      SelectSerial(store.binaries, Storage.BinaryId, u.value.id, binary.id);
      var err := store.UpdateBinary(binary);
      if err.Some? {
        return Err(Wrap(UpdateBinaryFailed, err.value));
      }
      return Ok(bin.value.id);
    }
  }
}
