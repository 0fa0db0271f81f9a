/**
 The connection rows of the accounting integration and the single statements that write them
 (apps/api/src/accounting/accounting-connection.service.ts).
 */
module Connections {
  import opened Wrappers

  type ConnectionId = nat
  type DistributorId = nat

  /** A ciphertext is unique to one encryption, because its IV is fresh; it is its place in `minted`. */
  type Ciphertext = nat

  datatype Status = CONNECTED | ERROR | REVOKED | DISCONNECTED

  datatype Connection = Connection(
    distributorId: DistributorId, status: Status, credential: Ciphertext, connectedAt: int)

  /** What a token set is to this service: when it expires. */
  datatype TokenSet = TokenSet(secret: int, expiresAt: int)

  /** An encrypted token set, and the ciphertext whose token set was refreshed to obtain it. */
  datatype Minted = Minted(tokenSet: TokenSet, refreshedFrom: Option<Ciphertext>)

  const REFRESH_BUFFER_MS := 300_000

  type Rows = map<ConnectionId, Connection>

  predicate Usable(tokenSet: TokenSet, now: int) {
    tokenSet.expiresAt - now > REFRESH_BUFFER_MS
  }

  /** findFirst ordered by connectedAt, newest first. */
  predicate IsLatest(rows: Rows, distributorId: DistributorId, id: ConnectionId) {
    && id in rows && rows[id].distributorId == distributorId
    && forall other :: other in rows && rows[other].distributorId == distributorId ==>
         rows[other].connectedAt <= rows[id].connectedAt
  }

  predicate HasNone(rows: Rows, distributorId: DistributorId) {
    forall id :: id in rows ==> rows[id].distributorId != distributorId
  }

  /** An update by primary key: it does not look at the status it overwrites. */
  function SetStatus(rows: Rows, id: ConnectionId, status: Status): Rows {
    if id in rows then rows[id := rows[id].(status := status)] else rows
  }

  /** The conditional credential write: it applies to a CONNECTED row still holding what was read. */
  predicate CanSwap(rows: Rows, id: ConnectionId, expected: Ciphertext) {
    id in rows && rows[id].status == CONNECTED && rows[id].credential == expected
  }

  function Swap(rows: Rows, id: ConnectionId, next: Ciphertext): Rows
    requires id in rows
  {
    rows[id := rows[id].(credential := next)]
  }

  /** The connections a successful callback retires: broken ones too. */
  predicate Retirable(c: Connection, distributorId: DistributorId) {
    c.distributorId == distributorId && (c.status == CONNECTED || c.status == ERROR)
  }

  function Retire(rows: Rows, ids: set<ConnectionId>): Rows {
    map id | id in rows :: if id in ids then rows[id].(status := DISCONNECTED) else rows[id]
  }
}
