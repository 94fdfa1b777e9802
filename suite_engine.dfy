/**
 * The loader of the analytics engine in src/payment_intelligence/etl_logic.py:
 * three CREATE TABLE .. AS SELECT statements on the engine's connection, then
 * the `tables_loaded` flag. There is no guard: a second call runs the
 * statements again and fails on the first table that already exists.
 */
module SuiteEngine {
  import opened Relational
  import opened Catalog

  /** What load_data raises: FileNotFoundError for a missing users.csv, else a DuckDB error. */
  datatype LoadError = FileNotFound | Duck(error: DbError)

  /** The connection's tables, the flag and the raised error after one load_data call. */
  datatype LoadState = LoadState(tables: Tables, loaded: bool, error: Option<LoadError>)

  /** load_data from state (db, loaded) with the data directory holding `dir`. */
  function Load(db: Tables, loaded: bool, dir: DataDir): (s: LoadState)
    ensures Grows(db, s.tables, dir)
    ensures s.error.None? ==> s.loaded && AllCreated(s.tables)
    ensures s.error.Some? ==> s.loaded == loaded
  {
    if dir.usersCsv.None? then LoadState(db, loaded, Some(FileNotFound))
    else
      match CreateTableAs(db.users, dir.usersCsv, UsersTable)
      case Failed(e) => LoadState(db, loaded, Some(Duck(e)))
      case Created(us) =>
        var db1 := db.(users := Some(us));
        match CreateTableAs(db1.subscriptions, dir.subscriptionsCsv, SubscriptionsTable)
        case Failed(e) => LoadState(db1, loaded, Some(Duck(e)))
        case Created(ss) =>
          var db2 := db1.(subscriptions := Some(ss));
          match CreateTableAs(db2.transactions, dir.transactionsCsv, TransactionsTable)
          case Failed(e) => LoadState(db2, loaded, Some(Duck(e)))
          case Created(ts) => LoadState(db2.(transactions := Some(ts)), true, None)
  }

  class PaymentAnalytics {
    /** The tables of `self.conn`. */
    var tables: Tables
    /** `self.tables_loaded`. */
    var tablesLoaded: bool

    /** The flag is only ever set once all three tables exist. */
    predicate Valid()
      reads this
    {
      tablesLoaded ==> AllCreated(tables)
    }

    /** __init__: connects to the database at db_path, whose tables are `db` (none for ":memory:"). */
    constructor (db: Tables)
      ensures Valid()
      ensures tables == db && !tablesLoaded
    {
      tables := db;
      tablesLoaded := false;
    }

    /** load_data: the statements run one at a time and each one that succeeds stays in effect. */
    method LoadData(dir: DataDir) returns (error: Option<LoadError>)
      requires Valid()
      modifies this
      ensures Valid()
      ensures LoadState(tables, tablesLoaded, error) == Load(old(tables), old(tablesLoaded), dir)
    {
      if dir.usersCsv.None? {
        return Some(FileNotFound);
      }
      var users := CreateTableAs(tables.users, dir.usersCsv, UsersTable);
      if users.Failed? {
        return Some(Duck(users.error));
      }
      tables := tables.(users := Some(users.rows));
      var subs := CreateTableAs(tables.subscriptions, dir.subscriptionsCsv, SubscriptionsTable);
      if subs.Failed? {
        return Some(Duck(subs.error));
      }
      tables := tables.(subscriptions := Some(subs.rows));
      var txs := CreateTableAs(tables.transactions, dir.transactionsCsv, TransactionsTable);
      if txs.Failed? {
        return Some(Duck(txs.error));
      }
      tables := tables.(transactions := Some(txs.rows));
      tablesLoaded := true;
      return None;
    }
  }

  /** A load succeeds exactly on a database without the three tables, from three present files. */
  lemma LoadSucceeds(db: Tables, loaded: bool, dir: DataDir)
    ensures Load(db, loaded, dir).error.None?
            <==> db == NoTables && dir.usersCsv.Some? && dir.subscriptionsCsv.Some? && dir.transactionsCsv.Some?
    ensures Load(db, loaded, dir).error.None? ==>
              Load(db, loaded, dir).tables
              == Tables(dir.usersCsv, dir.subscriptionsCsv, dir.transactionsCsv)
  {
  }

  /** The flag is set by a load that succeeds and is otherwise left as it was. */
  lemma LoadFlag(db: Tables, loaded: bool, dir: DataDir)
    ensures Load(db, loaded, dir).loaded == (loaded || Load(db, loaded, dir).error.None?)
  {
  }

  /**
   * Not idempotent: once the users table exists (after a load that succeeded,
   * or one that failed after creating it), every further call raises and
   * leaves the tables and the flag as they were.
   */
  lemma {:induction false} LoadAgainFails(db: Tables, loaded: bool, dir: DataDir)
    requires db.users.Some?
    ensures Load(db, loaded, dir) == LoadState(db, loaded, Some(
              if dir.usersCsv.None? then FileNotFound else Duck(CatalogError(UsersTable))))
  {
  }

  /**
   * A load that fails part-way keeps the tables it created: with
   * subscriptions.csv missing, a fresh database ends with only a users table,
   * the flag stays false, and retrying cannot succeed.
   */
  lemma LoadPartial(dir: DataDir, retry: DataDir)
    requires dir.usersCsv.Some? && dir.subscriptionsCsv.None?
    ensures Load(NoTables, false, dir) == LoadState(Tables(dir.usersCsv, None, None), false, Some(Duck(IOError(SubscriptionsTable))))
    ensures Load(Load(NoTables, false, dir).tables, false, retry).error.Some?
  {
    LoadAgainFails(Tables(dir.usersCsv, None, None), false, retry);
  }
}
