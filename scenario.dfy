/** Properties of whole request sequences across the service, the store and
    the gRPC handlers. */
module Scenario {
  import opened Wrappers
  import opened Strings
  import opened Errors
  import opened Entity
  import opened Tables
  import Grpc
  import Crypt
  import Storage
  import Vault
  import Backend
  import Handler

  /** A login-and-password record added with complete randomness and read
      back by the id its insertion got: its owner selects the stored row,
      no one else does, and decrypting the row gives back the record as it
      was added, under its new id. */
  lemma AddThenGetLoginPass(c: Crypt.Crypt, g: Crypt.Aead, pool: Bytes, table: seq<Row<LoginPass>>,
                            owner: nat, other: nat, d: LoginPass)
    requires Crypt.Lawful(g) && Crypt.AesKeySize(|c.secretKey|) && Serial(table, Storage.LoginPassId)
    requires Crypt.NonceSize * 2 <= |pool| && other != owner
    ensures var id := |table| + 1;
            var stored := Backend.WithLoginPassFields(d, Vault.SealAll(c, g, pool, Backend.LoginPassFields(d)).fields).(id := id);
            var tableAfter := table + [Row(owner, stored)];
            && Select(tableAfter, Storage.LoginPassId, owner, id) == Some(stored)
            && Select(tableAfter, Storage.LoginPassId, other, id) == None
            && Vault.OpenAll(c, g, Backend.LoginPassFields(stored)) == Vault.Opening(Backend.LoginPassFields(d), None)
            && Backend.WithLoginPassFields(stored, Backend.LoginPassFields(d)) == d.(id := id)
  {
    var id := |table| + 1;
    var s := Vault.SealAll(c, g, pool, Backend.LoginPassFields(d));
    var stored := Backend.WithLoginPassFields(d, s.fields).(id := id);
    SelectInserted(table, Storage.LoginPassId, Row(owner, stored), owner);
    SelectInserted(table, Storage.LoginPassId, Row(owner, stored), other);
    Vault.OpenSealed(c, g, pool, Backend.LoginPassFields(d));
    assert Backend.LoginPassFields(stored) == s.fields;
  }

  /** `AddDataLoginPass`, then `DataLoginPass` with the id it returned, by a
      registered owner, with randomness for both fields and no query
      rejected: the record comes back decrypted, as it was sent. */
  method AddThenGet(svc: Backend.Service, ownerLogin: Bytes, data: DataLoginPass)
    returns (added: Result<int, Error>, got: Result<DataLoginPass, Error>)
    requires svc.Valid() && Crypt.Lawful(svc.aead) && Crypt.NonceSize * 2 <= |svc.rand.pool|
    requires svc.Owner(ownerLogin).Ok?
    requires forall k :: 0 <= k < 4 ==> !svc.FaultsAt(k)
    modifies data, svc.rand, svc.store`loginPass, svc.store`queries
    ensures added.Ok? && got.Ok?
    ensures got.value.Value() == old(data.Value()).(id := added.value)
  {
    ghost var d := data.Value();
    ghost var owner := svc.Owner(ownerLogin).value.id;
    ghost var stored := Backend.WithLoginPassFields(d, Vault.SealAll(svc.crypt, svc.aead, svc.rand.pool, Backend.LoginPassFields(d)).fields).(id := |svc.store.loginPass| + 1);
    AddThenGetLoginPass(svc.crypt, svc.aead, svc.rand.pool, svc.store.loginPass, owner, owner + 1, d);
    assert !svc.FaultsAt(2) && !svc.FaultsAt(3);
    added := AddLoginPass(svc, ownerLogin, data);
    assert !svc.FaultsAt(0) && !svc.FaultsAt(1);
    assert svc.Owner(ownerLogin) == old(svc.Owner(ownerLogin));
    got := GetLoginPass(svc, ownerLogin, added.value, stored);
  }

  /** The add half of `AddThenGet`: the sealed record stored under the next id. */
  method AddLoginPass(svc: Backend.Service, ownerLogin: Bytes, data: DataLoginPass) returns (added: Result<int, Error>)
    requires svc.Valid() && Crypt.NonceSize * 2 <= |svc.rand.pool|
    requires svc.Owner(ownerLogin).Ok? && !svc.FaultsAt(1)
    modifies data, svc.rand, svc.store`loginPass, svc.store`queries
    ensures svc.Valid() && svc.store.queries == old(svc.store.queries) + 2 && svc.store.users == old(svc.store.users)
    ensures added == Ok(|old(svc.store.loginPass)| + 1)
    ensures svc.store.loginPass == old(svc.store.loginPass) +
              [Row(old(svc.Owner(ownerLogin)).value.id,
                   Backend.WithLoginPassFields(old(data.Value()),
                     Vault.SealAll(svc.crypt, svc.aead, old(svc.rand.pool), Backend.LoginPassFields(old(data.Value()))).fields)
                   .(id := |old(svc.store.loginPass)| + 1))]
  {
    Vault.SealFromOutcome(svc.crypt, svc.aead, svc.rand.pool, Backend.LoginPassFields(data.Value()), 0);
    added := svc.AddDataLoginPass(ownerLogin, data);
  }

  /** The get half of `AddThenGet`: a row the owner selects, whose fields
      all decrypt, read back decrypted. */
  method GetLoginPass(svc: Backend.Service, ownerLogin: Bytes, id: int, ghost stored: LoginPass) returns (got: Result<DataLoginPass, Error>)
    requires svc.Valid() && svc.Owner(ownerLogin).Ok? && !svc.FaultsAt(0) && !svc.FaultsAt(1)
    requires Select(svc.store.loginPass, Storage.LoginPassId, svc.Owner(ownerLogin).value.id, id) == Some(stored)
    requires Vault.OpenAll(svc.crypt, svc.aead, Backend.LoginPassFields(stored)).failure.None?
    modifies svc.store`queries
    ensures got.Ok?
    ensures got.value.Value() == Backend.WithLoginPassFields(stored, Vault.OpenAll(svc.crypt, svc.aead, Backend.LoginPassFields(stored)).fields)
  {
    got := svc.DataLoginPass(ownerLogin, id);
  }

  /** A text record added with a nonce to spare, read back by its new id:
      its owner alone selects the stored row, whose text decrypts to the
      text as it was added. */
  lemma AddThenGetText(c: Crypt.Crypt, g: Crypt.Aead, pool: Bytes, table: seq<Row<Text>>,
                       owner: nat, other: nat, d: Text)
    requires Crypt.Lawful(g) && Crypt.AesKeySize(|c.secretKey|) && Serial(table, Storage.TextId)
    requires Crypt.NonceSize <= |pool| && other != owner
    ensures var id := |table| + 1;
            var stored := Backend.WithTextFields(d, Vault.SealAll(c, g, pool, Backend.TextFields(d)).fields).(id := id);
            var tableAfter := table + [Row(owner, stored)];
            && Select(tableAfter, Storage.TextId, owner, id) == Some(stored)
            && Select(tableAfter, Storage.TextId, other, id) == None
            && Crypt.Decrypt(c, g, stored.text) == Ok(d.text)
            && stored.(text := d.text) == d.(id := id)
  {
    var id := |table| + 1;
    var s := Vault.SealAll(c, g, pool, Backend.TextFields(d));
    var stored := Backend.WithTextFields(d, s.fields).(id := id);
    SelectInserted(table, Storage.TextId, Row(owner, stored), owner);
    SelectInserted(table, Storage.TextId, Row(owner, stored), other);
    Vault.OpenSealed(c, g, pool, Backend.TextFields(d));
    Vault.OpenStep(Vault.Opener(c, g), s.fields, 0);
    assert Backend.TextFields(stored) == s.fields;
  }

  /** `AddDataText`, then `DataText` with the id it returned: the text comes
      back decrypted, as it was sent. */
  method TextRoundTrip(svc: Backend.Service, ownerLogin: Bytes, data: DataText)
    returns (added: Result<int, Error>, got: Result<DataText, Error>)
    requires svc.Valid() && Crypt.Lawful(svc.aead) && Crypt.NonceSize <= |svc.rand.pool|
    requires svc.Owner(ownerLogin).Ok?
    requires forall k :: 0 <= k < 4 ==> !svc.FaultsAt(k)
    modifies data, svc.rand, svc.store`texts, svc.store`queries
    ensures added.Ok? && got.Ok?
    ensures got.value.Value() == old(data.Value()).(id := added.value)
  {
    ghost var d := data.Value();
    ghost var owner := svc.Owner(ownerLogin).value.id;
    ghost var stored := Backend.WithTextFields(d, Vault.SealAll(svc.crypt, svc.aead, svc.rand.pool, Backend.TextFields(d)).fields).(id := |svc.store.texts| + 1);
    AddThenGetText(svc.crypt, svc.aead, svc.rand.pool, svc.store.texts, owner, owner + 1, d);
    assert !svc.FaultsAt(2) && !svc.FaultsAt(3);
    added := AddText(svc, ownerLogin, data);
    assert !svc.FaultsAt(0) && !svc.FaultsAt(1);
    assert svc.Owner(ownerLogin) == old(svc.Owner(ownerLogin));
    got := GetText(svc, ownerLogin, added.value, stored);
  }

  /** The add half of `TextRoundTrip`: the sealed text stored under the next id. */
  method AddText(svc: Backend.Service, ownerLogin: Bytes, data: DataText) returns (added: Result<int, Error>)
    requires svc.Valid() && Crypt.NonceSize <= |svc.rand.pool|
    requires svc.Owner(ownerLogin).Ok? && !svc.FaultsAt(1)
    modifies data, svc.rand, svc.store`texts, svc.store`queries
    ensures svc.Valid() && svc.store.queries == old(svc.store.queries) + 2 && svc.store.users == old(svc.store.users)
    ensures added == Ok(|old(svc.store.texts)| + 1)
    ensures svc.store.texts == old(svc.store.texts) +
              [Row(old(svc.Owner(ownerLogin)).value.id,
                   Backend.WithTextFields(old(data.Value()),
                     Vault.SealAll(svc.crypt, svc.aead, old(svc.rand.pool), Backend.TextFields(old(data.Value()))).fields)
                   .(id := |old(svc.store.texts)| + 1))]
  {
    Vault.SealFromOutcome(svc.crypt, svc.aead, svc.rand.pool, Backend.TextFields(data.Value()), 0);
    added := svc.AddDataText(ownerLogin, data);
  }

  /** The get half of `TextRoundTrip`: a row the owner selects, whose text
      decrypts, read back decrypted. */
  method GetText(svc: Backend.Service, ownerLogin: Bytes, id: int, ghost stored: Text) returns (got: Result<DataText, Error>)
    requires svc.Valid() && svc.Owner(ownerLogin).Ok? && !svc.FaultsAt(0) && !svc.FaultsAt(1)
    requires Select(svc.store.texts, Storage.TextId, svc.Owner(ownerLogin).value.id, id) == Some(stored)
    requires Crypt.Decrypt(svc.crypt, svc.aead, stored.text).Ok?
    modifies svc.store`queries
    ensures got.Ok?
    ensures got.value.Value() == stored.(text := Crypt.Decrypt(svc.crypt, svc.aead, stored.text).value)
  {
    got := svc.DataText(ownerLogin, id);
  }

  /** A card added with nonces for its four fields, read back by its new id:
      its owner alone selects the stored row, which decrypts to the card as
      it was added. */
  lemma AddThenGetCard(c: Crypt.Crypt, g: Crypt.Aead, pool: Bytes, table: seq<Row<Card>>,
                       owner: nat, other: nat, d: Card)
    requires Crypt.Lawful(g) && Crypt.AesKeySize(|c.secretKey|) && Serial(table, Storage.CardId)
    requires Crypt.NonceSize * 4 <= |pool| && other != owner
    ensures var id := |table| + 1;
            var stored := Backend.WithCardFields(d, Vault.SealAll(c, g, pool, Backend.CardFields(d)).fields).(id := id);
            var tableAfter := table + [Row(owner, stored)];
            && Select(tableAfter, Storage.CardId, owner, id) == Some(stored)
            && Select(tableAfter, Storage.CardId, other, id) == None
            && Vault.OpenAll(c, g, Backend.CardFields(stored)) == Vault.Opening(Backend.CardFields(d), None)
            && Backend.WithCardFields(stored, Backend.CardFields(d)) == d.(id := id)
  {
    var id := |table| + 1;
    var s := Vault.SealAll(c, g, pool, Backend.CardFields(d));
    var stored := Backend.WithCardFields(d, s.fields).(id := id);
    SelectInserted(table, Storage.CardId, Row(owner, stored), owner);
    SelectInserted(table, Storage.CardId, Row(owner, stored), other);
    Vault.OpenSealed(c, g, pool, Backend.CardFields(d));
    assert Backend.CardFields(stored) == s.fields;
  }

  /** `AddDataCard`, then `DataCard` with the id it returned: the card comes
      back decrypted, as it was sent. */
  method CardRoundTrip(svc: Backend.Service, ownerLogin: Bytes, data: DataCard)
    returns (added: Result<int, Error>, got: Result<DataCard, Error>)
    requires svc.Valid() && Crypt.Lawful(svc.aead) && Crypt.NonceSize * 4 <= |svc.rand.pool|
    requires svc.Owner(ownerLogin).Ok?
    requires forall k :: 0 <= k < 4 ==> !svc.FaultsAt(k)
    modifies data, svc.rand, svc.store`cards, svc.store`queries
    ensures added.Ok? && got.Ok?
    ensures got.value.Value() == old(data.Value()).(id := added.value)
  {
    ghost var d := data.Value();
    ghost var owner := svc.Owner(ownerLogin).value.id;
    ghost var stored := Backend.WithCardFields(d, Vault.SealAll(svc.crypt, svc.aead, svc.rand.pool, Backend.CardFields(d)).fields).(id := |svc.store.cards| + 1);
    AddThenGetCard(svc.crypt, svc.aead, svc.rand.pool, svc.store.cards, owner, owner + 1, d);
    assert !svc.FaultsAt(2) && !svc.FaultsAt(3);
    added := AddCard(svc, ownerLogin, data);
    assert !svc.FaultsAt(0) && !svc.FaultsAt(1);
    assert svc.Owner(ownerLogin) == old(svc.Owner(ownerLogin));
    got := GetCard(svc, ownerLogin, added.value, stored);
  }

  /** The add half of `CardRoundTrip`: the sealed card stored under the next id. */
  method AddCard(svc: Backend.Service, ownerLogin: Bytes, data: DataCard) returns (added: Result<int, Error>)
    requires svc.Valid() && Crypt.NonceSize * 4 <= |svc.rand.pool|
    requires svc.Owner(ownerLogin).Ok? && !svc.FaultsAt(1)
    modifies data, svc.rand, svc.store`cards, svc.store`queries
    ensures svc.Valid() && svc.store.queries == old(svc.store.queries) + 2 && svc.store.users == old(svc.store.users)
    ensures added == Ok(|old(svc.store.cards)| + 1)
    ensures svc.store.cards == old(svc.store.cards) +
              [Row(old(svc.Owner(ownerLogin)).value.id,
                   Backend.WithCardFields(old(data.Value()),
                     Vault.SealAll(svc.crypt, svc.aead, old(svc.rand.pool), Backend.CardFields(old(data.Value()))).fields)
                   .(id := |old(svc.store.cards)| + 1))]
  {
    Vault.SealFromOutcome(svc.crypt, svc.aead, svc.rand.pool, Backend.CardFields(data.Value()), 0);
    added := svc.AddDataCard(ownerLogin, data);
  }

  /** The get half of `CardRoundTrip`: a row the owner selects, whose fields
      all decrypt, read back decrypted. */
  method GetCard(svc: Backend.Service, ownerLogin: Bytes, id: int, ghost stored: Card) returns (got: Result<DataCard, Error>)
    requires svc.Valid() && svc.Owner(ownerLogin).Ok? && !svc.FaultsAt(0) && !svc.FaultsAt(1)
    requires Select(svc.store.cards, Storage.CardId, svc.Owner(ownerLogin).value.id, id) == Some(stored)
    requires Vault.OpenAll(svc.crypt, svc.aead, Backend.CardFields(stored)).failure.None?
    modifies svc.store`queries
    ensures got.Ok?
    ensures got.value.Value() == Backend.WithCardFields(stored, Vault.OpenAll(svc.crypt, svc.aead, Backend.CardFields(stored)).fields)
  {
    got := svc.DataCard(ownerLogin, id);
  }

  /** A second registration of a taken login, if the handler is given the
      backend service's error unchanged: storage reports the entity
      package's `ErrAlreadyExists`, the service wraps it, and the handler,
      which tests for the server package's `ErrAlreadyExists`, answers
      Internal. */
  method RegisterTaken(svc: Backend.Service, login: Bytes, password: Bytes) returns (status: Result<Handler.Empty, Grpc.Status>)
    requires svc.Valid() && !svc.store.Faults() && Storage.FindUser(svc.store.users, login).Some?
    modifies svc.store`users, svc.store`queries
    ensures svc.store.users == old(svc.store.users)
    ensures status == Err(Grpc.Named(Grpc.Internal))
  {
    var r := svc.RegisterUser(login, password);
    status := Handler.RegisterUser(Err(r.error));
  }

  /** A wrong password, if the handler is given the backend service's error
      unchanged: the service answers the entity package's
      `ErrUsersPasswordNotMatch`, and the handler, which tests for the server
      package's sentinel, answers Internal rather than PermissionDenied. */
  method WrongPassword(svc: Backend.Service, login: Bytes, password: Bytes, now: int)
    returns (status: Result<Bytes, Grpc.Status>)
    requires svc.Valid() && svc.Owner(login).Ok? && svc.hash(password) != svc.Owner(login).value.passwordHash
    modifies svc.store`queries
    ensures status == Err(Grpc.Named(Grpc.Internal))
  {
    var r := svc.AuthUser(login, password, now);
    status := Handler.AuthUser(Err(r.error));
  }
}
