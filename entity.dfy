/** The records the server passes between its layers. A record the service
    receives or returns by reference and overwrites field by field is a class;
    its `Value` is the plain record, which is what the tables store and what
    lists return. */
module Entity {
  import opened Strings

  /** the incoming metadata key carrying the JWT */
  const AuthTokenHeader := "auth_token"
  /** the outgoing metadata key the access gate attaches the login under */
  const UserLoginHeaderName := "User-Login"

  /** A user as the `users` table holds it; the id is the table's serial. */
  datatype User = User(id: nat, login: Bytes, passwordHash: Bytes)

  datatype LoginPass = LoginPass(id: int, title: Bytes, login: Bytes, password: Bytes)
  datatype Text = Text(id: int, title: Bytes, text: Bytes)
  datatype Card = Card(id: int, title: Bytes, number: Bytes, owner: Bytes, expDate: Bytes, cvcCode: Bytes)

  /** `entity.DataBinary`. The body is the byte channel the request stream
      fills; the model takes the bytes it delivers before it is closed. */
  datatype Binary = Binary(id: int, title: Bytes, fileName: Bytes, body: Bytes)

  /** A stored binary's row: everything but the body, which lives in chunks. */
  datatype BinaryInfo = BinaryInfo(id: int, title: Bytes, fileName: Bytes)

  /** `*entity.DataLoginPass` */
  class DataLoginPass {
    var id: int
    var title: Bytes
    var login: Bytes
    var password: Bytes

    constructor (r: LoginPass)
      ensures Value() == r
    {
      id, title, login, password := r.id, r.title, r.login, r.password;
    }

    function Value(): LoginPass
      reads this
    {
      LoginPass(id, title, login, password)
    }
  }

  /** `*entity.DataText` */
  class DataText {
    var id: int
    var title: Bytes
    var text: Bytes

    constructor (r: Text)
      ensures Value() == r
    {
      id, title, text := r.id, r.title, r.text;
    }

    function Value(): Text
      reads this
    {
      Text(id, title, text)
    }
  }

  /** `*entity.DataCard` */
  class DataCard {
    var id: int
    var title: Bytes
    var number: Bytes
    var owner: Bytes
    var expDate: Bytes
    var cvcCode: Bytes

    constructor (r: Card)
      ensures Value() == r
    {
      id, title, number, owner, expDate, cvcCode := r.id, r.title, r.number, r.owner, r.expDate, r.cvcCode;
    }

    function Value(): Card
      reads this
    {
      Card(id, title, number, owner, expDate, cvcCode)
    }
  }
}
