/** Go error values. Package-level sentinels are distinct values even when two
    packages give them the same text, so each package's sentinel is its own
    constructor here; `errors.Is` follows the chain built by `fmt.Errorf("…: %w", e)`. */
module Errors {

  /** The package that declares a sentinel. */
  datatype Package = Entity | Server | TokenLib | CryptLib | JwtLib

  datatype Sentinel =
    // internal/service/entity/error.go
    | EntityAlreadyExists | EntityMissingToken | EntityInvalidToken | EntityTokenExpired
    | EntityUsersPasswordNotMatch | EntityNotFound | EntityUserNotFound | EntityNoData
    | EntityOrderConflict | EntityNotEnoughBonuses | EntityThirdPartyOrderNotRegistered
    | EntityThirdPartyToManyRequests | EntityThirdPartyInternal
    // internal/service/server/error.go
    | ServerAlreadyExists | ServerInvalidToken | ServerTokenExpired | ServerUsersPasswordNotMatch
    | ServerNotFound | ServerUserNotFound | ServerOrderConflict | ServerNotEnoughBonuses
    | ServerThirdPartyOrderNotRegistered | ServerThirdPartyToManyRequests | ServerThirdPartyInternal
    // internal/lib/token/token.go
    | TokenInvalidToken | TokenTokenExpired | TokenEmptySecretKey
    // internal/lib/crypt/crypt.go
    | CryptSecretKeyLen
    // github.com/golang-jwt/jwt/v4
    | JwtTokenExpired

  function PackageOf(s: Sentinel): Package {
    if s.TokenInvalidToken? || s.TokenTokenExpired? || s.TokenEmptySecretKey? then TokenLib
    else if s.CryptSecretKeyLen? then CryptLib
    else if s.JwtTokenExpired? then JwtLib
    else if s.ServerAlreadyExists? || s.ServerInvalidToken? || s.ServerTokenExpired?
         || s.ServerUsersPasswordNotMatch? || s.ServerNotFound? || s.ServerUserNotFound?
         || s.ServerOrderConflict? || s.ServerNotEnoughBonuses? || s.ServerThirdPartyOrderNotRegistered?
         || s.ServerThirdPartyToManyRequests? || s.ServerThirdPartyInternal? then Server
    else Entity
  }

  /** The text `Error()` gives for a sentinel. */
  const InvalidTokenText := "invalid token"
  const TokenExpiredText := "token expired"

  function SentinelText(s: Sentinel): string {
    match s
    case EntityAlreadyExists | ServerAlreadyExists => "already exists"
    case EntityMissingToken => "missing auth token"
    case EntityInvalidToken | ServerInvalidToken | TokenInvalidToken => InvalidTokenText
    case EntityTokenExpired | ServerTokenExpired | TokenTokenExpired | JwtTokenExpired => TokenExpiredText
    case EntityUsersPasswordNotMatch | ServerUsersPasswordNotMatch => "users password not match"
    case EntityNotFound | ServerNotFound => "not found"
    case EntityUserNotFound | ServerUserNotFound => "user not found"
    case EntityNoData => "no data"
    case EntityOrderConflict | ServerOrderConflict => "order already registered another user"
    case EntityNotEnoughBonuses | ServerNotEnoughBonuses => "not enough bonuses on balance"
    case EntityThirdPartyOrderNotRegistered | ServerThirdPartyOrderNotRegistered => "third party order not registered"
    case EntityThirdPartyToManyRequests | ServerThirdPartyToManyRequests => "third party to many requests"
    case EntityThirdPartyInternal | ServerThirdPartyInternal => "third party internal error"
    case TokenEmptySecretKey => "secret key must not be empty"
    case CryptSecretKeyLen => "secret key len must be 32 bytes"
  }

  datatype Error =
    | Sentinel(sentinel: Sentinel)
      /** `fmt.Errorf("<context>: %w", cause)` */
    | Wrapped(context: string, cause: Error)
      /** an error that wraps nothing: `errors.New`, `fmt.Errorf` without `%w`,
          or one from a driver or library this model does not look inside */
    | Opaque(text: string)

  /** `errors.Is(e, s)` */
  predicate Is(e: Error, s: Sentinel) {
    match e
    case Sentinel(t) => t == s
    case Wrapped(_, cause) => Is(cause, s)
    case Opaque(_) => false
  }

  /** `e.Error()` */
  function Message(e: Error): string {
    match e
    case Sentinel(s) => SentinelText(s)
    case Wrapped(context, cause) => context + ": " + Message(cause)
    case Opaque(text) => text
  }

  /** `fmt.Errorf(context + ": %w", e)`: the new error matches exactly the
      sentinels its cause matches. */
  function Wrap(context: string, e: Error): (r: Error)
    ensures forall s :: Is(r, s) <==> Is(e, s)
  {
    Wrapped(context, e)
  }

  /** An error none of whose chain is a sentinel of a package other than `p`. */
  ghost predicate OnlyFrom(e: Error, p: Package) {
    forall s :: Is(e, s) ==> PackageOf(s) == p
  }

  /** A sentinel is matched only by itself: the identically worded sentinels
      of two packages are different errors. */
  lemma SentinelIdentity(s: Sentinel, t: Sentinel)
    ensures Is(Sentinel(s), t) <==> s == t
  {
  }
}
