/** The table idempotency_keys and its four statements, each atomic
    (backend/app/features/idempotency/repository.py), with the turn lock built on the same
    claim (backend/app/features/idempotency/service.py) and the periodic purge of old rows
    (backend/app/features/purge/task.py). */
module IdempotencyTable {
  import opened Options

  /** The two kinds of row that share the table; their names never collide. */
  datatype Key = TurnLock(user: int, session: int) | Client(user: int, key: string)

  /** response None: claimed, work still running. */
  datatype Row = Row(response: Option<string>, createdAt: int)

  type Rows = map<Key, Row>

  const STALE_CLAIM_SECONDS := 120

  function StaleBefore(now: int): int { now - STALE_CLAIM_SECONDS }

  /** INSERT ... ON CONFLICT DO UPDATE WHERE: a fresh row, or a pending one gone stale. */
  predicate Claimable(rows: Rows, k: Key, staleBefore: int) {
    k in rows ==> rows[k].response.None? && rows[k].createdAt < staleBefore
  }

  function AfterComplete(rows: Rows, k: Key, response: string): Rows {
    if k in rows then rows[k := rows[k].(response := Some(response))] else rows
  }

  const KEY_TTL_SECONDS := 24 * 3600

  predicate Purged(row: Row, now: int) { row.createdAt < now - KEY_TTL_SECONDS }

  /** The periodic purge: rows older than a day go, completed ones included. */
  function AfterPurge(rows: Rows, now: int): Rows {
    map k | k in rows && !Purged(rows[k], now) :: rows[k]
  }

  class IdempotencyRepository {
    var rows: Rows

    constructor ()
      ensures rows == map[]
    {
      rows := map[];
    }

    method Lookup(k: Key) returns (found: bool, response: Option<string>)
      ensures found == (k in rows)
      ensures response == if k in rows then rows[k].response else None
    {
      if k !in rows {
        return false, None;
      }
      return true, rows[k].response;
    }

    /** True exactly when this caller now owns the key; the row then dates from now. */
    method Claim(k: Key, now: int, staleBefore: int) returns (won: bool)
      modifies this
      ensures won == old(Claimable(rows, k, staleBefore))
      ensures rows == if won then old(rows)[k := Row(None, now)] else old(rows)
    {
      if k !in rows {
        rows := rows[k := Row(None, now)];
        return true;
      }
      if rows[k].response.None? && rows[k].createdAt < staleBefore {
        rows := rows[k := rows[k].(createdAt := now)];
        return true;
      }
      return false;
    }

    /** UPDATE without an ownership check: sets the response of whatever row is there. */
    method Complete(k: Key, response: string)
      modifies this
      ensures rows == AfterComplete(old(rows), k, response)
    {
      if k in rows {
        rows := rows[k := rows[k].(response := Some(response))];
      }
    }

    /** DELETE without an ownership check: drops whatever row is there. */
    method Release(k: Key)
      modifies this
      ensures rows == old(rows) - {k}
    {
      rows := rows - {k};
    }
  }
}
