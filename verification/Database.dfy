/** The MySQL server as the repositories use it: committed tables, at most one open transaction,
    auto-increment counters and a clock. Any statement may fail for a reason the model does not track. */
module Database {
  import opened Results
  import opened Store
  import opened Faults
  import opened TaskQueries

  /** Whether the request context carries the transaction. */
  datatype Context = Pool | InTx

  /** Ids already used are below the counters and logged times are not in the future. */
  predicate Below(s: Tables, team: int, task: int, history: int, clock: int) {
    && (forall t :: t in s.teams ==> t.id < team)
    && (forall t :: t in s.tasks ==> t.id < task)
    && (forall h :: h in s.history ==> h.id < history && h.changedAt <= clock)
  }

  class Server {
    const same: Collation
    const faults: FaultLog
    var tables: Tables
    var tx: Option<Tables>
    var nextTeam: int
    var nextTask: int
    var nextHistory: int
    var clock: int

    ghost predicate Fits(s: Tables)
      reads this
    {
      WellFormed(s) && Below(s, nextTeam, nextTask, nextHistory, clock)
    }

    ghost predicate Valid()
      reads this
    {
      Fits(tables) && (tx.Some? ==> Fits(tx.value))
    }

    constructor (same: Collation, clock: int)
      ensures Valid() && tables == EMPTY && tx == None && this.same == same && fresh(faults)
    {
      this.same := same;
      faults := new FaultLog();
      tables, tx := EMPTY, None;
      nextTeam, nextTask, nextHistory := 1, 1, 1;
      this.clock := clock;
    }

    /** `queryExecutor`: the transaction of the context if there is one, else the pool. */
    function View(ctx: Context): Tables
      reads this
    {
      if ctx.InTx? && tx.Some? then tx.value else tables
    }

    /** A context that carries a transaction is used only while that transaction is open. */
    ghost predicate Open(ctx: Context)
      reads this
    {
      ctx.InTx? ==> tx.Some?
    }

    /** Counters and clock never go back, not even when the transaction that advanced them is rolled back. */
    twostate predicate Advanced()
      reads this
    {
      && old(nextTeam) <= nextTeam && old(nextTask) <= nextTask
      && old(nextHistory) <= nextHistory && old(clock) <= clock
    }

    /** The tables seen through `ctx` became `s`; what is seen through the other executor did not change. */
    twostate predicate Wrote(ctx: Context, s: Tables)
      reads this
    {
      if ctx.InTx? then tx == Some(s) && tables == old(tables) else tables == s && tx == old(tx)
    }

    method Tick()
      requires Valid()
      modifies this`clock
      ensures Valid() && old(clock) <= clock
    {
      var d: int :| 0 <= d;
      clock := clock + d;
    }

    method TeamId() returns (id: int)
      requires Valid()
      modifies this`nextTeam
      ensures Valid() && id == old(nextTeam) && nextTeam == id + 1
    {
      id := nextTeam;
      nextTeam := nextTeam + 1;
    }

    method TaskId() returns (id: int)
      requires Valid()
      modifies this`nextTask
      ensures Valid() && id == old(nextTask) && nextTask == id + 1
    {
      id := nextTask;
      nextTask := nextTask + 1;
    }

    method HistoryId() returns (id: int)
      requires Valid()
      modifies this`nextHistory
      ensures Valid() && id == old(nextHistory) && nextHistory == id + 1
    {
      id := nextHistory;
      nextHistory := nextHistory + 1;
    }

    method Store(ctx: Context, s: Tables)
      requires Valid() && Open(ctx) && Fits(s)
      modifies this`tables, this`tx
      ensures Valid() && Open(ctx) && Wrote(ctx, s)
    {
      if ctx.InTx? {
        tx := Some(s);
      } else {
        tables := s;
      }
    }
  }

  /** `UnitOfWork.Do`, cut at the call of its closure: what runs before it and what runs after it. */
  class UnitOfWork {
    const db: Server

    constructor (db: Server)
      ensures this.db == db
    {
      this.db := db;
    }

    /** Opens the transaction and puts it into the context of the closure. */
    method Begin() returns (r: Result<Context>)
      requires db.Valid() && db.tx == None
      modifies db`tx, db.faults
      ensures db.Valid()
      ensures r.Ok? ==> r.value == InTx && db.tx == Some(db.tables)
      ensures r.Err? ==> r.error == Error.Database && db.tx == None
      ensures db.faults.Explain(r.Err?)
    {
      var broken := db.faults.Send();
      if broken {
        return Err(Error.Database);
      }
      db.tx := Some(db.tables);
      return Ok(InTx);
    }

    method Commit() returns (r: Option<Error>)
      requires db.Valid() && db.tx.Some?
      modifies db`tx, db`tables, db.faults
      ensures db.Valid()
      ensures r == None || r == Some(Error.Database)
      ensures db.faults.Explain(r.Some?)
      ensures r.Some? ==> db.tables == old(db.tables)
      ensures r.None? ==> db.tables == old(db.tx).value
    {
      var broken := db.faults.Send();
      if broken {
        return Some(Error.Database);
      }
      db.tables := db.tx.value;
      db.tx := None;
      return None;
    }

    /** After the closure: an error leads to the deferred rollback, success to commit. All or nothing is kept. */
    method End(failure: Option<Error>) returns (r: Option<Error>)
      requires db.Valid() && db.tx.Some?
      modifies db`tx, db`tables, db.faults
      ensures db.Valid() && db.tx == None
      ensures failure.Some? ==> r == failure
      ensures db.faults.Explain(r.Some? && failure.None?)
      ensures r.Some? ==> db.tables == old(db.tables) && (failure == r || r == Some(Error.Database))
      ensures r.None? ==> db.tables == old(db.tx).value
    {
      r := failure;
      if failure.None? {
        r := Commit();
      }
      db.tx := None;
    }
  }
}
