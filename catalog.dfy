/**
 * The DuckDB side of loading: the CSV snapshots found in the data directory
 * and the tables of the connection. A table is None until CREATE TABLE has
 * created it; a CSV file is None when it does not exist.
 */
module Catalog {
  import opened Relational
  import opened Records

  datatype TableName = UsersTable | SubscriptionsTable | TransactionsTable

  /** users.csv, subscriptions.csv and transactions.csv as read_csv_auto reads them. */
  datatype DataDir = DataDir(
    usersCsv: Option<seq<User>>,
    subscriptionsCsv: Option<seq<Subscription>>,
    transactionsCsv: Option<seq<Transaction>>)

  /** The tables of the connection. */
  datatype Tables = Tables(
    users: Option<seq<User>>,
    subscriptions: Option<seq<Subscription>>,
    transactions: Option<seq<Transaction>>)

  /** A fresh in-memory database. */
  const NoTables := Tables(None, None, None)

  predicate AllCreated(db: Tables)
  {
    db.users.Some? && db.subscriptions.Some? && db.transactions.Some?
  }

  /** A table that existed stays as it was; a missing one stays missing or is created from its CSV. */
  predicate TableGrows<T(==)>(before: Option<seq<T>>, after: Option<seq<T>>, csv: Option<seq<T>>)
  {
    after == before || (before.None? && after == csv)
  }

  /** Loading only ever creates missing tables from their CSVs: it never drops or replaces one. */
  predicate Grows(before: Tables, after: Tables, dir: DataDir)
  {
    && TableGrows(before.users, after.users, dir.usersCsv)
    && TableGrows(before.subscriptions, after.subscriptions, dir.subscriptionsCsv)
    && TableGrows(before.transactions, after.transactions, dir.transactionsCsv)
  }

  /** The errors DuckDB raises while loading: a CSV that cannot be opened, a table that already exists. */
  datatype DbError = IOError(file: TableName) | CatalogError(table: TableName)

  datatype Created<T> = Created(rows: seq<T>) | Failed(error: DbError)

  /**
   * CREATE TABLE name AS SELECT .. FROM read_csv_auto(csv). Opening the CSV
   * comes first (binding the query), then the new name is entered in the
   * catalog, which fails when the table already exists.
   */
  function CreateTableAs<T>(existing: Option<seq<T>>, csv: Option<seq<T>>, name: TableName): (r: Created<T>)
    ensures r.Created? <==> existing.None? && csv.Some?
    ensures r.Created? ==> r.rows == csv.value
    ensures csv.None? ==> r == Failed(IOError(name))
    ensures csv.Some? && existing.Some? ==> r == Failed(CatalogError(name))
  {
    if csv.None? then Failed(IOError(name))
    else if existing.Some? then Failed(CatalogError(name))
    else Created(csv.value)
  }
}
