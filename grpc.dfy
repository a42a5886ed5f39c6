/** The parts of gRPC the server core touches: status codes and their names,
    `status.Error`, and request metadata carried in a context. Metadata keys
    are stored lower-cased, as the gRPC library stores them. */
module Grpc {
  import opened Wrappers
  import opened Strings

  datatype Code =
    | OK | Canceled | Unknown | InvalidArgument | DeadlineExceeded | NotFound
    | AlreadyExists | PermissionDenied | ResourceExhausted | FailedPrecondition
    | Aborted | OutOfRange | Unimplemented | Internal | Unavailable | DataLoss
    | Unauthenticated

  /** `codes.Code.String()` */
  function CodeName(c: Code): string {
    match c
    case OK => "OK"
    case Canceled => "Canceled"
    case Unknown => "Unknown"
    case InvalidArgument => "InvalidArgument"
    case DeadlineExceeded => "DeadlineExceeded"
    case NotFound => "NotFound"
    case AlreadyExists => "AlreadyExists"
    case PermissionDenied => "PermissionDenied"
    case ResourceExhausted => "ResourceExhausted"
    case FailedPrecondition => "FailedPrecondition"
    case Aborted => "Aborted"
    case OutOfRange => "OutOfRange"
    case Unimplemented => "Unimplemented"
    case Internal => "Internal"
    case Unavailable => "Unavailable"
    case DataLoss => "DataLoss"
    case Unauthenticated => "Unauthenticated"
  }

  /** The error `status.Error(code, message)` returns. */
  datatype Status = Status(code: Code, message: string)

  /** `status.Error(c, c.String())`, the form every handler error takes. */
  function Named(c: Code): (st: Status)
    ensures st.code == c && st.message == CodeName(c)
  {
    Status(c, CodeName(c))
  }

  /** `metadata.MD`: lower-cased keys to their values in arrival order. */
  type Metadata = map<string, seq<Bytes>>

  /** A request context: its incoming metadata (`metadata.FromIncomingContext`)
      and its outgoing metadata (`metadata.FromOutgoingContext`), each absent
      when the context carries none. */
  datatype Context = Context(incoming: Option<Metadata>, outgoing: Option<Metadata>)

  /** `md.Get(key)`: the values of the lower-cased key, none when it is absent. */
  function Get(md: Metadata, key: string): seq<Bytes> {
    if ToLower(key) in md then md[ToLower(key)] else []
  }

  /** `metadata.AppendToOutgoingContext(ctx, key, value)`: the outgoing
      metadata now exists and `value` is the last value of `key`; every other
      key and the incoming metadata are untouched. */
  function AppendToOutgoing(ctx: Context, key: string, value: Bytes): (r: Context)
    ensures r.incoming == ctx.incoming && r.outgoing.Some?
    ensures Get(r.outgoing.value, key) == (if ctx.outgoing.Some? then Get(ctx.outgoing.value, key) else []) + [value]
    ensures forall k :: k in r.outgoing.value && k != ToLower(key) ==> ctx.outgoing.Some? && k in ctx.outgoing.value && r.outgoing.value[k] == ctx.outgoing.value[k]
    ensures ctx.outgoing.Some? ==> forall k :: k in ctx.outgoing.value ==> k in r.outgoing.value
  {
    var md := if ctx.outgoing.Some? then ctx.outgoing.value else map[];
    var k := ToLower(key);
    Context(ctx.incoming, Some(md[k := Get(md, key) + [value]]))
  }
}
