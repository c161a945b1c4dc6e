/** The psycopg2 connection the loader writes through: a committed state, and the open
    transaction's state that `commit` publishes and `rollback` discards. */
module Database {
  import opened Tables

  class Connection {
    /** What a commit has made durable. */
    var committed: Db
    /** The state inside the open transaction. */
    var pending: Db
    /** The server's checks beyond the key constraints (see `Admits`). */
    const accepts: Insert -> bool

    constructor (db: Db, accepts: Insert -> bool)
      ensures committed == db && pending == db && this.accepts == accepts
    {
      committed := db;
      pending := db;
      this.accepts := accepts;
    }

    /** `cur.execute(...)`: false when the server raises, in which case the
        transaction's state is left as it was. */
    method Execute(s: Insert) returns (ok: bool)
      modifies this
      ensures ok == Admits(old(pending), s, accepts)
      ensures pending == if ok then Apply(old(pending), s) else old(pending)
      ensures committed == old(committed)
    {
      ok := Admits(pending, s, accepts);
      if ok {
        pending := Apply(pending, s);
      }
    }

    /** `conn.commit()`. */
    method Commit()
      modifies this
      ensures committed == old(pending) && pending == old(pending)
    {
      committed := pending;
    }

    /** `conn.rollback()`. */
    method Rollback()
      modifies this
      ensures committed == old(committed) && pending == old(committed)
    {
      pending := committed;
    }
  }
}
