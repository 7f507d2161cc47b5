/** The outbox table of the Postgres adapter: its rows, its status ladder, and
    one function per SQL statement of the drain. Each statement runs atomically
    and reads the database clock once. */
module OutboxTable {
  import opened Common

  type Uuid = nat

  datatype MessageStatus = Pending | Publishing | Published | Retrying | Failed | Dlq {
    predicate Waiting() {
      Pending? || Retrying?
    }

    predicate Terminal() {
      Published? || Failed? || Dlq?
    }
  }

  /** The columns that are written once, at insertion. */
  datatype Content = Content(aggregateType: string, aggregateId: string, eventType: string,
                             payload: string, headers: Option<string>,
                             topic: string, partitionKey: Option<string>)

  /** Times are microseconds of the database clock, except `createdAt`, which
      the accepting server stamps with its own clock. */
  datatype Row = Row(content: Content, status: MessageStatus, retryCount: int,
                     createdAt: int, updatedAt: int)

  type Table = map<Uuid, Row>

  const CLAIM_LEASE := 60_000_000

  /** The largest value of the `INTEGER` column `retry_count`. */
  const MAX_RETRY_COUNT := 0x7fff_ffff

  predicate Claimable(row: Row, now: int) {
    || row.status.Waiting()
    || (row.status.Publishing? && row.updatedAt < now - CLAIM_LEASE)
  }

  function Claimed(table: Table, ids: set<Uuid>, now: int): Table {
    map id | id in table ::
      if id in ids then table[id].(status := Publishing, updatedAt := now) else table[id]
  }

  /** The rows a batch mark affects: only those still `publishing`. */
  function Markable(table: Table, ids: seq<Uuid>): set<Uuid> {
    set id | id in ids && id in table && table[id].status.Publishing?
  }

  function Marked(table: Table, ids: seq<Uuid>, now: int): Table {
    map id | id in table ::
      if id in Markable(table, ids) then table[id].(status := Published, updatedAt := now) else table[id]
  }

  function Released(table: Table, id: Uuid, now: int): Table {
    if id in table && table[id].status.Publishing?
    then table[id := table[id].(status := Pending, updatedAt := now)]
    else table
  }

  /** `increment_retry` has no status guard. Its one failure besides a lost
      connection is the overflow of the column, which leaves the row alone. */
  predicate CanIncrement(table: Table, id: Uuid) {
    id in table && table[id].retryCount < MAX_RETRY_COUNT
  }

  function Incremented(table: Table, id: Uuid, now: int): Table
    requires CanIncrement(table, id)
  {
    var row := table[id];
    table[id := row.(status := Retrying, retryCount := row.retryCount + 1, updatedAt := now)]
  }

  /** `update_status` has no status guard either. */
  function Updated(table: Table, id: Uuid, status: MessageStatus, now: int): Table {
    if id in table then table[id := table[id].(status := status, updatedAt := now)] else table
  }

  /** Which rows a claim may take: those that wait, and those whose claim is more than
      60 seconds old. */
  lemma ClaimableExactly(row: Row, now: int)
    ensures Claimable(row, now)
       <==> || row.status == Pending || row.status == Retrying
            || (row.status == Publishing && now - row.updatedAt > 60_000_000)
  {
  }

  /** An increment fails only at the largest 32-bit value. */
  lemma IncrementableExactly(table: Table, id: Uuid)
    requires id in table
    ensures CanIncrement(table, id) <==> table[id].retryCount + 1 <= 2_147_483_647
  {
  }
}
