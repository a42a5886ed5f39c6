/** internal/transport/storage/storage.go: the PostgreSQL store, as in-memory
    tables. Each method runs one query; `failing` names the queries (by their
    position in the run, counted by `queries`) that the database driver
    rejects, so every error path of the source is reachable. The binary
    tables (`AddBinary`, `AddBinaryChunk`, `BinaryByID`, `UpdateBinary`) are
    called by the service but defined in no file of this model; they follow
    the same shape, with chunks keyed by (binary id, order number). */
module Storage {
  import opened Wrappers
  import opened Strings
  import opened Errors
  import opened Entity
  import opened Tables

  /** The contexts the store's methods wrap a driver error with, and the
      driver's own text for a rejected query. */
  const ExecQuery := "failed to exec query"
  const QueryRow := "query row error"
  const BadConnection := "driver: bad connection"

  /** A query the driver rejects, wrapped as the method wraps it. */
  function Fault(context: string): (e: Error)
    ensures forall s :: !Is(e, s)
  {
    Wrap(context, Opaque(BadConnection))
  }

  /** `WHERE login = $1`, as the unique index answers it. */
  function FindUser(users: seq<User>, login: Bytes): (r: Option<User>)
    ensures r.Some? ==> r.value in users && r.value.login == login
    ensures r.None? ==> forall u :: u in users ==> u.login != login
  {
    if users == [] then None
    else if users[0].login == login then Some(users[0])
    else FindUser(users[1..], login)
  }

  /** What `UserByLogin` answers: a driver fault, `ErrUserNotFound` for an
      unknown login, or the stored user with that login. */
  function UserLookup(fault: bool, users: seq<User>, login: Bytes): (r: Result<User, Error>)
    ensures fault ==> r == Err(Fault(QueryRow))
    ensures !fault && (forall u :: u in users ==> u.login != login) ==> r == Err(Sentinel(EntityUserNotFound))
    ensures r.Ok? <==> !fault && exists u :: u in users && u.login == login
    ensures r.Ok? ==> r.value in users && r.value.login == login
  {
    if fault then Err(Fault(QueryRow))
    else match FindUser(users, login)
      case None => Err(Sentinel(EntityUserNotFound))
      case Some(u) => Ok(u)
  }

  function LoginPassId(r: LoginPass): int { r.id }
  function TextId(r: Text): int { r.id }
  function CardId(r: Card): int { r.id }
  function BinaryId(r: BinaryInfo): int { r.id }

  /** What the list queries select: `id, title`, the other fields empty. */
  function LoginPassBrief(r: LoginPass): LoginPass { LoginPass(r.id, r.title, [], []) }
  function TextBrief(r: Text): Text { Text(r.id, r.title, []) }
  function CardBrief(r: Card): Card { Card(r.id, r.title, [], [], [], []) }

  class Storage {
    var users: seq<User>
    var loginPass: seq<Row<LoginPass>>
    var texts: seq<Row<Text>>
    var cards: seq<Row<Card>>
    var binaries: seq<Row<BinaryInfo>>
    /** `(binary id, order number)` to the stored (encrypted) chunk */
    var chunks: map<(int, int), Bytes>
    /** queries run so far */
    var queries: nat
    /** positions of the queries the driver rejects */
    const failing: set<nat>

    /** The tables as the database keeps them: serial ids, unique logins,
        and chunks only under binaries that exist. */
    ghost predicate Valid()
      reads this`users, this`loginPass, this`texts, this`cards, this`binaries, this`chunks
    {
      UsersValid() && RowsValid() && ChunksValid()
    }

    /** Users numbered from 1 in insertion order; logins unique. */
    ghost predicate UsersValid()
      reads this`users
    {
      && (forall i :: 0 <= i < |users| ==> users[i].id == i + 1)
      && (forall i, j :: 0 <= i < j < |users| ==> users[i].login != users[j].login)
    }

    /** Every record table numbered from 1 in insertion order. */
    ghost predicate RowsValid()
      reads this`loginPass, this`texts, this`cards, this`binaries
    {
      Serial(loginPass, LoginPassId) && Serial(texts, TextId) && Serial(cards, CardId) && Serial(binaries, BinaryId)
    }

    /** The foreign key from a chunk to its binary. */
    ghost predicate ChunksValid()
      reads this`chunks, this`binaries
    {
      forall k :: k in chunks ==> 1 <= k.0 <= |binaries|
    }

    /** Whether the next query is one the driver rejects. */
    predicate Faults()
      reads this`queries
    {
      queries in failing
    }

    constructor (failing: set<nat>)
      ensures Valid() && this.failing == failing && queries == 0
      ensures users == [] && loginPass == [] && texts == [] && cards == [] && binaries == [] && chunks == map[]
    {
      users, loginPass, texts, cards, binaries, chunks := [], [], [], [], [], map[];
      queries := 0;
      this.failing := failing;
    }

    /** `RegisterUser`: a login already present is a unique violation. */
    method RegisterUser(login: Bytes, passwordHash: Bytes) returns (r: Result<nat, Error>)
      requires Valid()
      modifies this`users, this`queries
      ensures Valid() && queries == old(queries) + 1
      ensures old(Faults()) ==> r == Err(Fault(ExecQuery)) && users == old(users)
      ensures !old(Faults()) && FindUser(old(users), login).Some? ==>
                r == Err(Sentinel(EntityAlreadyExists)) && users == old(users)
      ensures !old(Faults()) && FindUser(old(users), login).None? ==>
                r == Ok(|old(users)| + 1) && users == old(users) + [User(|old(users)| + 1, login, passwordHash)]
    {
      if Faults() {
        r := Err(Fault(ExecQuery));
      } else if FindUser(users, login).Some? {
        r := Err(Sentinel(EntityAlreadyExists));
      } else {
        users := users + [User(|users| + 1, login, passwordHash)];
        r := Ok(|users|);
      }
      queries := queries + 1;
    }

    /** `UserByLogin` */
    method UserByLogin(login: Bytes) returns (r: Result<User, Error>)
      requires Valid()
      modifies this`queries
      ensures Valid() && queries == old(queries) + 1
      ensures r == UserLookup(old(Faults()), users, login)
    {
      if Faults() {
        r := Err(Fault(QueryRow));
      } else if FindUser(users, login).None? {
        r := Err(Sentinel(EntityUserNotFound));
      } else {
        r := Ok(FindUser(users, login).value);
      }
      queries := queries + 1;
    }

    /** `AddLoginPass`: stores title, login and password as given. */
    method AddLoginPass(owner: nat, data: DataLoginPass) returns (r: Result<int, Error>)
      requires Valid()
      modifies this`loginPass, this`queries
      ensures Valid() && queries == old(queries) + 1
      ensures old(Faults()) ==> r == Err(Fault(ExecQuery)) && loginPass == old(loginPass)
      ensures !old(Faults()) ==> (r == Ok(|old(loginPass)| + 1) &&
                loginPass == old(loginPass) + [Row(owner, data.Value().(id := |old(loginPass)| + 1))])
    {
      if Faults() {
        r := Err(Fault(ExecQuery));
      } else {
        AppendSerial(loginPass, LoginPassId, Row(owner, data.Value().(id := |loginPass| + 1)));
        loginPass := loginPass + [Row(owner, data.Value().(id := |loginPass| + 1))];
        r := Ok(|loginPass|);
      }
      queries := queries + 1;
    }

    /** `LoginPassList`: id and title of the owner's rows. */
    method LoginPassList(owner: nat) returns (r: Result<seq<LoginPass>, Error>)
      requires Valid()
      modifies this`queries
      ensures Valid() && queries == old(queries) + 1
      ensures old(Faults()) ==> r == Err(Fault(ExecQuery))
      ensures !old(Faults()) ==> r == Ok(Listing(loginPass, owner, LoginPassBrief))
    {
      if Faults() {
        r := Err(Fault(ExecQuery));
      } else {
        var data := Scan(loginPass, owner, LoginPassBrief);
        r := Ok(data);
      }
      queries := queries + 1;
    }

    /** `LoginPassByID`: a new record, or `ErrNoData` unless the id is the owner's. */
    method LoginPassByID(owner: nat, id: int) returns (r: Result<DataLoginPass, Error>)
      requires Valid()
      modifies this`queries
      ensures Valid() && queries == old(queries) + 1
      ensures old(Faults()) ==> r == Err(Fault(ExecQuery))
      ensures !old(Faults()) && Select(loginPass, LoginPassId, owner, id).None? ==> r == Err(Sentinel(EntityNoData))
      ensures !old(Faults()) && Select(loginPass, LoginPassId, owner, id).Some? ==>
                r.Ok? && fresh(r.value) && r.value.Value() == Select(loginPass, LoginPassId, owner, id).value
    {
      if Faults() {
        r := Err(Fault(ExecQuery));
      } else {
        var row := Select(loginPass, LoginPassId, owner, id);
        if row.None? {
          r := Err(Sentinel(EntityNoData));
        } else {
          var data := new DataLoginPass(row.value);
          r := Ok(data);
        }
      }
      queries := queries + 1;
    }

    /** `AddText` */
    method AddText(owner: nat, data: DataText) returns (r: Result<int, Error>)
      requires Valid()
      modifies this`texts, this`queries
      ensures Valid() && queries == old(queries) + 1
      ensures old(Faults()) ==> r == Err(Fault(ExecQuery)) && texts == old(texts)
      ensures !old(Faults()) ==> (r == Ok(|old(texts)| + 1) &&
                texts == old(texts) + [Row(owner, data.Value().(id := |old(texts)| + 1))])
    {
      if Faults() {
        r := Err(Fault(ExecQuery));
      } else {
        AppendSerial(texts, TextId, Row(owner, data.Value().(id := |texts| + 1)));
        texts := texts + [Row(owner, data.Value().(id := |texts| + 1))];
        r := Ok(|texts|);
      }
      queries := queries + 1;
    }

    /** `TextList` */
    method TextList(owner: nat) returns (r: Result<seq<Text>, Error>)
      requires Valid()
      modifies this`queries
      ensures Valid() && queries == old(queries) + 1
      ensures old(Faults()) ==> r == Err(Fault(ExecQuery))
      ensures !old(Faults()) ==> r == Ok(Listing(texts, owner, TextBrief))
    {
      if Faults() {
        r := Err(Fault(ExecQuery));
      } else {
        var data := Scan(texts, owner, TextBrief);
        r := Ok(data);
      }
      queries := queries + 1;
    }

    /** `TextByID` */
    method TextByID(owner: nat, id: int) returns (r: Result<DataText, Error>)
      requires Valid()
      modifies this`queries
      ensures Valid() && queries == old(queries) + 1
      ensures old(Faults()) ==> r == Err(Fault(ExecQuery))
      ensures !old(Faults()) && Select(texts, TextId, owner, id).None? ==> r == Err(Sentinel(EntityNoData))
      ensures !old(Faults()) && Select(texts, TextId, owner, id).Some? ==>
                r.Ok? && fresh(r.value) && r.value.Value() == Select(texts, TextId, owner, id).value
    {
      if Faults() {
        r := Err(Fault(ExecQuery));
      } else {
        var row := Select(texts, TextId, owner, id);
        if row.None? {
          r := Err(Sentinel(EntityNoData));
        } else {
          var data := new DataText(row.value);
          r := Ok(data);
        }
      }
      queries := queries + 1;
    }

    /** `AddCard` */
    method AddCard(owner: nat, data: DataCard) returns (r: Result<int, Error>)
      requires Valid()
      modifies this`cards, this`queries
      ensures Valid() && queries == old(queries) + 1
      ensures old(Faults()) ==> r == Err(Fault(ExecQuery)) && cards == old(cards)
      ensures !old(Faults()) ==> (r == Ok(|old(cards)| + 1) &&
                cards == old(cards) + [Row(owner, data.Value().(id := |old(cards)| + 1))])
    {
      if Faults() {
        r := Err(Fault(ExecQuery));
      } else {
        AppendSerial(cards, CardId, Row(owner, data.Value().(id := |cards| + 1)));
        cards := cards + [Row(owner, data.Value().(id := |cards| + 1))];
        r := Ok(|cards|);
      }
      queries := queries + 1;
    }

    /** `CardList` */
    method CardList(owner: nat) returns (r: Result<seq<Card>, Error>)
      requires Valid()
      modifies this`queries
      ensures Valid() && queries == old(queries) + 1
      ensures old(Faults()) ==> r == Err(Fault(ExecQuery))
      ensures !old(Faults()) ==> r == Ok(Listing(cards, owner, CardBrief))
    {
      if Faults() {
        r := Err(Fault(ExecQuery));
      } else {
        var data := Scan(cards, owner, CardBrief);
        r := Ok(data);
      }
      queries := queries + 1;
    }

    /** `CardByID` */
    method CardByID(owner: nat, id: int) returns (r: Result<DataCard, Error>)
      requires Valid()
      modifies this`queries
      ensures Valid() && queries == old(queries) + 1
      ensures old(Faults()) ==> r == Err(Fault(ExecQuery))
      ensures !old(Faults()) && Select(cards, CardId, owner, id).None? ==> r == Err(Sentinel(EntityNoData))
      ensures !old(Faults()) && Select(cards, CardId, owner, id).Some? ==>
                r.Ok? && fresh(r.value) && r.value.Value() == Select(cards, CardId, owner, id).value
    {
      if Faults() {
        r := Err(Fault(ExecQuery));
      } else {
        var row := Select(cards, CardId, owner, id);
        if row.None? {
          r := Err(Sentinel(EntityNoData));
        } else {
          var data := new DataCard(row.value);
          r := Ok(data);
        }
      }
      queries := queries + 1;
    }

    /** `AddBinary`: the binary's row, without its body. */
    method AddBinary(owner: nat, b: Binary) returns (r: Result<int, Error>)
      requires Valid()
      modifies this`binaries, this`queries
      ensures Valid() && queries == old(queries) + 1
      ensures old(Faults()) ==> r == Err(Fault(ExecQuery)) && binaries == old(binaries)
      ensures !old(Faults()) ==> (r == Ok(|old(binaries)| + 1) &&
                binaries == old(binaries) + [Row(owner, BinaryInfo(|old(binaries)| + 1, b.title, b.fileName))])
    {
      if Faults() {
        r := Err(Fault(ExecQuery));
      } else {
        AppendSerial(binaries, BinaryId, Row(owner, BinaryInfo(|binaries| + 1, b.title, b.fileName)));
        binaries := binaries + [Row(owner, BinaryInfo(|binaries| + 1, b.title, b.fileName))];
        r := Ok(|binaries|);
      }
      queries := queries + 1;
    }

    /** `AddBinaryChunk`: one chunk under its binary and order number; a
        binary id with no row is a foreign-key violation. */
    method AddBinaryChunk(binID: int, chunk: Bytes, orderNumber: int) returns (err: Option<Error>)
      requires ChunksValid()
      modifies this`chunks, this`queries
      ensures ChunksValid() && queries == old(queries) + 1
      ensures err.None? <==> !old(Faults()) && 1 <= binID <= |binaries|
      ensures old(Faults()) ==> err == Some(Fault(ExecQuery))
      ensures err.Some? ==> chunks == old(chunks) && forall s :: !Is(err.value, s)
      ensures err.None? ==> chunks == old(chunks)[(binID, orderNumber) := chunk]
    {
      if Faults() {
        err := Some(Fault(ExecQuery));
      } else if !(1 <= binID <= |binaries|) {
        err := Some(Wrap(ExecQuery, Opaque("foreign key violation")));
      } else {
        chunks := chunks[(binID, orderNumber) := chunk];
        err := None;
      }
      queries := queries + 1;
    }

    /** `BinaryByID` */
    method BinaryByID(owner: nat, id: int) returns (r: Result<BinaryInfo, Error>)
      requires Valid()
      modifies this`queries
      ensures Valid() && queries == old(queries) + 1
      ensures old(Faults()) ==> r == Err(Fault(ExecQuery))
      ensures !old(Faults()) && Select(binaries, BinaryId, owner, id).None? ==> r == Err(Sentinel(EntityNoData))
      ensures !old(Faults()) && Select(binaries, BinaryId, owner, id).Some? ==>
                r == Ok(Select(binaries, BinaryId, owner, id).value)
    {
      if Faults() {
        r := Err(Fault(ExecQuery));
      } else {
        var row := Select(binaries, BinaryId, owner, id);
        if row.None? {
          r := Err(Sentinel(EntityNoData));
        } else {
          r := Ok(row.value);
        }
      }
      queries := queries + 1;
    }

    /** `UpdateBinary`: sets the title of the binary with `b`'s id, whoever
        owns it; an id with no row updates nothing. */
    method UpdateBinary(b: Binary) returns (err: Option<Error>)
      requires Valid()
      modifies this`binaries, this`queries
      ensures Valid() && queries == old(queries) + 1
      ensures err.Some? <==> old(Faults())
      ensures err.Some? ==> err.value == Fault(ExecQuery)
      ensures |binaries| == |old(binaries)|
      ensures forall i :: 0 <= i < |binaries| ==>
                binaries[i] == if err.None? && i + 1 == b.id then old(binaries[i]).(record := old(binaries[i]).record.(title := b.title))
                               else old(binaries[i])
    {
      if Faults() {
        err := Some(Fault(ExecQuery));
      } else {
        if 1 <= b.id <= |binaries| {
          var row := binaries[b.id - 1];
          binaries := binaries[b.id - 1 := row.(record := row.record.(title := b.title))];
        }
        err := None;
      }
      queries := queries + 1;
    }
  }
}
