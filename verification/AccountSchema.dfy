/** Columns of the accounts table, the values they carry, and an account's fields. */
module AccountSchema {
  import opened Wrappers

  datatype Column =
    | ID | CreatedAt | UpdatedAt | DeletedAt | Name | Notes | Platform | Type | Credentials | Extra
    | ProxyID | ProxyFallbackOriginID | Concurrency | LoadFactor | Priority | RateMultiplier | Status
    | ErrorMessage | LastUsedAt | ExpiresAt | AutoPauseOnExpired | Schedulable | RateLimitedAt
    | RateLimitResetAt | OverloadUntil | TempUnschedulableUntil | TempUnschedulableReason
    | SessionWindowStart | SessionWindowEnd | SessionWindowStatus | ParentAccountID | QuotaDimension
    | Unknown(name: string)

  const COLUMNS: seq<Column> := [
    ID, CreatedAt, UpdatedAt, DeletedAt, Name, Notes, Platform, Type, Credentials, Extra,
    ProxyID, ProxyFallbackOriginID, Concurrency, LoadFactor, Priority, RateMultiplier, Status,
    ErrorMessage, LastUsedAt, ExpiresAt, AutoPauseOnExpired, Schedulable, RateLimitedAt,
    RateLimitResetAt, OverloadUntil, TempUnschedulableUntil, TempUnschedulableReason,
    SessionWindowStart, SessionWindowEnd, SessionWindowStatus, ParentAccountID, QuotaDimension]

  /** A JSON object's entries, each value as its text; a nil map has none at all. */
  type JsonMap = Option<map<string, string>>

  datatype Value =
    | VInt(n: int)
    | VFloat(r: real)
    | VBool(b: bool)
    | VString(s: string)
    | VTime(t: int)
    | VJson(json: JsonMap)

  /** The Go type of an account's field. */
  datatype Kind = KInt | KFloat | KBool | KString | KTime | KJson

  function KindOf(c: Column): Kind {
    match c
    case ID | ProxyID | ProxyFallbackOriginID | Concurrency | LoadFactor | Priority | ParentAccountID => KInt
    case RateMultiplier => KFloat
    case AutoPauseOnExpired | Schedulable => KBool
    case Credentials | Extra => KJson
    case Name | Notes | Platform | Type | Status | ErrorMessage | TempUnschedulableReason
       | SessionWindowStatus | QuotaDimension => KString
    case _ => KTime
  }

  predicate HasKind(v: Value, k: Kind) {
    match v
    case VInt(_) => k == KInt
    case VFloat(_) => k == KFloat
    case VBool(_) => k == KBool
    case VString(_) => k == KString
    case VTime(_) => k == KTime
    case VJson(_) => k == KJson
  }

  /** Fields that have been set. An unset field has its Go zero value, nil for the nillable ones. */
  type Fields = map<Column, Value>

  /** Every value has its column's type, as the typed setters guarantee. */
  ghost predicate WellTyped(f: Fields) {
    forall c | c in f :: !c.Unknown? && HasKind(f[c], KindOf(c))
  }

  // ----- edges ----------------------------------------------------------------------------

  datatype Relation = Groups | Proxy | Parent | Children | UsageLogs

  /** An edge specification. As a clear it means every edge of the relation when it names no nodes. */
  datatype EdgeSpec = EdgeSpec(relation: Relation, nodes: seq<int>)
}
