/**
 * The loader of the analytics engine in payment_intelligence/etl_logic.py:
 * a guarded state transition on `_data_loaded`. One multi-statement execute
 * creates the three tables, the row counts are validated, and any exception
 * inside the try block is re-raised as a RuntimeError wrapping it.
 */
module OptimizedEngine {
  import opened Relational
  import opened Catalog

  /** The exception caught inside the try block: a DuckDB error, or the ValueError of the validation. */
  datatype LoadFailure = Db(error: DbError) | EmptyTables(userCount: nat, subCount: nat, txCount: nat)

  /** `RuntimeError("Failed to load data into DuckDB: ...") from e`. */
  datatype RuntimeError = RuntimeError(cause: LoadFailure)

  datatype LoadState = LoadState(tables: Tables, loaded: bool, error: Option<RuntimeError>)

  /** Every table exists and holds at least one row. */
  predicate AllNonEmpty(db: Tables)
  {
    AllCreated(db) && |db.users.value| > 0 && |db.subscriptions.value| > 0 && |db.transactions.value| > 0
  }

  /** load_data from state (db, loaded) with the data directory holding `dir`. */
  function Load(db: Tables, loaded: bool, dir: DataDir): (s: LoadState)
    ensures Grows(db, s.tables, dir)
    ensures s.loaded ==> s.error.None?
    ensures s.loaded && !loaded ==> AllNonEmpty(s.tables)
    ensures s.error.Some? ==> !s.loaded
  {
    if loaded then LoadState(db, loaded, None)
    else
      match CreateTableAs(db.users, dir.usersCsv, UsersTable)
      case Failed(e) => LoadState(db, loaded, Some(RuntimeError(Db(e))))
      case Created(us) =>
        var db1 := db.(users := Some(us));
        match CreateTableAs(db1.subscriptions, dir.subscriptionsCsv, SubscriptionsTable)
        case Failed(e) => LoadState(db1, loaded, Some(RuntimeError(Db(e))))
        case Created(ss) =>
          var db2 := db1.(subscriptions := Some(ss));
          match CreateTableAs(db2.transactions, dir.transactionsCsv, TransactionsTable)
          case Failed(e) => LoadState(db2, loaded, Some(RuntimeError(Db(e))))
          case Created(ts) =>
            var db3 := db2.(transactions := Some(ts));
            if |us| == 0 || |ss| == 0 || |ts| == 0 then
              LoadState(db3, loaded, Some(RuntimeError(EmptyTables(|us|, |ss|, |ts|))))
            else LoadState(db3, true, None)
  }

  class PaymentAnalytics {
    /** The tables of the in-memory `self.conn`. */
    var tables: Tables
    /** `self._data_loaded`. */
    var dataLoaded: bool

    /** The flag is set only over three non-empty tables. */
    predicate Valid()
      reads this
    {
      dataLoaded ==> AllNonEmpty(tables)
    }

    /** __init__: a fresh ":memory:" connection, nothing loaded. */
    constructor ()
      ensures Valid()
      ensures tables == NoTables && !dataLoaded
    {
      tables := NoTables;
      dataLoaded := false;
    }

    /** load_data. */
    method LoadData(dir: DataDir) returns (error: Option<RuntimeError>)
      requires Valid()
      modifies this
      ensures Valid()
      ensures LoadState(tables, dataLoaded, error) == Load(old(tables), old(dataLoaded), dir)
    {
      if dataLoaded {
        return None;
      }
      var users := CreateTableAs(tables.users, dir.usersCsv, UsersTable);
      if users.Failed? {
        return Some(RuntimeError(Db(users.error)));
      }
      tables := tables.(users := Some(users.rows));
      var subs := CreateTableAs(tables.subscriptions, dir.subscriptionsCsv, SubscriptionsTable);
      if subs.Failed? {
        return Some(RuntimeError(Db(subs.error)));
      }
      tables := tables.(subscriptions := Some(subs.rows));
      var txs := CreateTableAs(tables.transactions, dir.transactionsCsv, TransactionsTable);
      if txs.Failed? {
        return Some(RuntimeError(Db(txs.error)));
      }
      tables := tables.(transactions := Some(txs.rows));
      var userCount, subCount, txCount := |users.rows|, |subs.rows|, |txs.rows|;
      if userCount == 0 || subCount == 0 || txCount == 0 {
        return Some(RuntimeError(EmptyTables(userCount, subCount, txCount)));
      }
      dataLoaded := true;
      return None;
    }
  }

  /**
   * Idempotent: once loaded, a call returns at once without error, whatever
   * the files now hold; in particular a second call after a successful one.
   */
  lemma LoadIdempotent(db: Tables, dir: DataDir, again: DataDir)
    ensures Load(db, true, dir) == LoadState(db, true, None)
    ensures Load(db, false, dir).loaded ==>
              Load(Load(db, false, dir).tables, true, again) == LoadState(Load(db, false, dir).tables, true, None)
  {
  }

  /**
   * A first load succeeds exactly on a database without the three tables,
   * from three present, non-empty files, and then holds their rows.
   */
  lemma LoadSucceeds(db: Tables, dir: DataDir)
    ensures Load(db, false, dir).error.None?
            <==> db == NoTables && AllNonEmpty(Tables(dir.usersCsv, dir.subscriptionsCsv, dir.transactionsCsv))
    ensures Load(db, false, dir).loaded <==> Load(db, false, dir).error.None?
    ensures Load(db, false, dir).error.None? ==>
              Load(db, false, dir).tables == Tables(dir.usersCsv, dir.subscriptionsCsv, dir.transactionsCsv)
  {
  }

  /**
   * The validation: on a fresh database, three present files of which one is
   * empty raise the ValueError, wrapped, with the three row counts; the tables
   * stay created and the flag stays false.
   */
  lemma LoadRejectsEmpty(dir: DataDir)
    requires dir.usersCsv.Some? && dir.subscriptionsCsv.Some? && dir.transactionsCsv.Some?
    requires |dir.usersCsv.value| == 0 || |dir.subscriptionsCsv.value| == 0 || |dir.transactionsCsv.value| == 0
    ensures Load(NoTables, false, dir) == LoadState(
              Tables(dir.usersCsv, dir.subscriptionsCsv, dir.transactionsCsv), false,
              Some(RuntimeError(EmptyTables(|dir.usersCsv.value|, |dir.subscriptionsCsv.value|, |dir.transactionsCsv.value|))))
  {
  }

  /**
   * A failed first load leaves its tables behind, so while the flag is false
   * and the users table exists, every further call raises again.
   */
  lemma LoadAfterFailure(db: Tables, dir: DataDir)
    requires db.users.Some?
    ensures Load(db, false, dir).error.Some? && !Load(db, false, dir).loaded
    ensures Load(db, false, dir).tables == db
  {
  }
}
