# BaseConnection: a verified model

`BaseConnection` (MySql.Connect.NetCore) is the base class that data-access classes inherit to
talk to MySQL. It owns one `MySqlConnection`, at most one `MySqlTransaction` and the last
`MySqlCommand`. Its protected operations are:

- `Connect` and `Disconnect`, for the connection;
- `BeginTransaction`, `Commit` and `Rollback`, for the transaction;
- `ExecuteSQL`, `ExecuteReader` and `ExecuteSQLReturnId`, which run statements on the open
  connection;
- `ReturnConvertedValue<T>`, which turns a column value into a value type and maps NULL to
  `default(T)`.

The model has four modules.

- `Coercion` (coercion.dfy) defines the raw column values (`DBNull`, integers, and anything
  else) and `ReturnConvertedValue` for the eight integral target types. NULL gives 0. An
  integer converts when the target type can represent it and overflows otherwise. Any other
  value is an invalid cast.
- `ConnectionModel` (connection_model.dfy) holds the class's state as a value: the three
  fields, a counter that gives each new driver object its identity, and a log of the calls
  made into the driver. It has one function per operation, each returning the new state and
  the result or raised error, with lemmas for:
  - each guard and the order of the checks;
  - the state each operation leaves;
  - the id loop of `ExecuteSQLReturnId`;
  - the quirks of the source, which are kept as they are.
- `ConnectionInvariant` (connection_invariant.dfy) runs arbitrary sequences of calls. It
  proves by induction that the driver log always respects the protocol:
  - at most one connection is open, and it is the current one;
  - commands only go to an open connection;
  - a transaction is begun only on an open connection;
  - no transaction is committed or rolled back twice;
  - the held transaction is in progress at the server exactly while its connection is open.
    Closing a connection counts as rolling its transaction back, because that is what the
    server does. After a reconnect, the class still commits or rolls back the transaction of
    the closed connection, and the log records that.
  It also proves that a call rejected by a guard changes nothing.
- `MySqlConnect` (base_connection.dfy) is the class `BaseConnection`, with mutable fields and
  imperative methods. `ExecuteSQLReturnId` keeps the `while (reader.Read())` loop. Each method
  is proved to produce exactly the state and result of the matching `ConnectionModel`
  function.

These behaviours of the source are modelled as written:

- `Disconnect` does not clear the transaction.
- `BeginTransaction` replaces an earlier transaction without ending it.
- `Connect` closes the previous connection but keeps its transaction. The next command is
  then bound to the new connection and the old transaction.
- So a transaction can outlive its connection, and a new transaction is not refused while
  one is held.
- `Connection` is assigned before `Open()` is called. So when `Open()` throws, the field
  holds a new, closed connection and the previous one is already closed.

The driver's answers are parameters:

- for `Connect`, whether the constructor rejects the string, `Open()` throws, or it
  succeeds;
- for the readers, the rows the server returns.

The connection string is `Option<string>`, with `None` standing for a C# null.

## Model

| member | source | states |
|---|---|---|
| `Coercion.ReturnConvertedValue` | BaseConnection.cs:193-208 | NULL gives `default(T)` = 0 and never raises; any other non-integer is an invalid cast; a successful result always fits the target type |
| `Coercion.IntegerConversion` | BaseConnection.cs:207 | an integer converts exactly when the target type represents it, and then to itself; otherwise it is an overflow |
| `Coercion.ConversionIdempotent` | BaseConnection.cs:207 | converting a converted value again gives the same result |
| `Coercion.WideningKeepsValue` | BaseConnection.cs:207 | a value that converts to a narrow type converts to the same value in every wider type |
| `ConnectionModel.Error.ConstructorArgument` | BaseConnection.cs:34-186 | the string the class passes when it raises ArgumentNullException (as the parameter name), MySqlOpenedConnectionException or MySqlOpenedTransactionException (as the message, lines 61, 79, 84, 102, 107, 139, 158, 186); the driver's and the conversion's errors have none |
| `ConnectionModel.State.IsConnectionOpened` | BaseConnection.cs:114-122 | Connection is non-null and its state is open |
| `ConnectionModel.CloseConnection` | BaseConnection.cs:26 | `Connection.Close()`: the connection is no longer open but stays referenced; no other field changes |
| `ConnectionModel.Connect` | BaseConnection.cs:20-36 | succeeds exactly when the string is neither null nor empty and the driver opens the connection, and then `IsConnectionOpened()` holds; whatever happens, Transaction and Command keep their values |
| `ConnectionModel.Disconnect` | BaseConnection.cs:41-48 | afterwards no connection is open; Transaction and Command keep their values |
| `ConnectionModel.BeginTransaction` | BaseConnection.cs:53-62 | succeeds exactly when a connection is open; the new transaction is on that connection; Connection and Command keep their values |
| `ConnectionModel.EndTransaction` | BaseConnection.cs:68-109 | succeeds exactly when a connection is open and a transaction is held, and then Transaction is null; a failure changes nothing; Connection and Command keep their values |
| `ConnectionModel.Commit` | BaseConnection.cs:68-86 | a successful `Commit` commits the held transaction at the driver |
| `ConnectionModel.Rollback` | BaseConnection.cs:91-109 | a successful `Rollback` rolls the held transaction back at the driver |
| `ConnectionModel.Issue` | BaseConnection.cs:131-135 | Command is bound to the current connection, the current transaction and the given text, and is run; Connection and Transaction keep their values |
| `ConnectionModel.ExecuteSQL` | BaseConnection.cs:127-141 | succeeds exactly when a connection is open; Connection and Transaction keep their values |
| `ConnectionModel.ExecuteReader` | BaseConnection.cs:146-160 | succeeds exactly when a connection is open, and then yields the server's rows; Connection and Transaction keep their values |
| `ConnectionModel.ConvertId` | BaseConnection.cs:179 | `ReturnConvertedValue<long>(reader["id"])`: a result fits a `long`; the only errors are a missing `id` column and a failed conversion |
| `ConnectionModel.ScanIds` | BaseConnection.cs:177-180 | the `while (reader.Read())` loop: after at least one row a result fits a `long`; it raises only a missing column or a failed conversion |
| `ConnectionModel.ExecuteSQLReturnId` | BaseConnection.cs:165-188 | with no open connection it raises MySqlOpenedConnectionException and changes nothing; a result fits a `long`; Connection and Transaction keep their values |
| `ConnectionModel.ConnectRejectsNullOrEmpty` | BaseConnection.cs:20-35 | `Connect` raises ArgumentNullException if and only if the string is null or empty, and then no field changes |
| `ConnectionModel.ConnectOpensNewConnection` | BaseConnection.cs:20-31 | a successful `Connect` closes the previous connection exactly when it was open, then opens a fresh connection built from the string; afterwards `IsConnectionOpened()` holds; Transaction and Command are unchanged |
| `ConnectionModel.ConnectOpenFailureLeavesClosedConnection` | BaseConnection.cs:29-30 | when `Open()` throws, Connection already holds the new, closed connection, so `IsConnectionOpened()` is false |
| `ConnectionModel.DisconnectCloses` | BaseConnection.cs:41-48 | `Disconnect` closes an open connection and sets Connection to null, changing nothing else; with none open it changes nothing |
| `ConnectionModel.DisconnectIdempotent` | BaseConnection.cs:41-48 | calling `Disconnect` twice has the effect of calling it once |
| `ConnectionModel.BeginTransactionSpec` | BaseConnection.cs:53-62 | `BeginTransaction` raises MySqlOpenedConnectionException if and only if no connection is open, and then changes nothing; otherwise it stores a new transaction on the open connection, whatever was stored before, and the connection stays open |
| `ConnectionModel.CommitSpec` | BaseConnection.cs:68-86 | with no open connection `Commit` raises MySqlOpenedConnectionException; with an open connection but no transaction, MySqlOpenedTransactionException; neither changes anything; otherwise it commits that transaction, Transaction becomes null and the connection stays open |
| `ConnectionModel.RollbackSpec` | BaseConnection.cs:91-109 | the same guards, in the same order, for `Rollback`, which rolls the transaction back |
| `ConnectionModel.SecondEndFails` | BaseConnection.cs:68-109 | on an open connection, a `Commit` or `Rollback` right after a `Commit` or `Rollback` raises MySqlOpenedTransactionException |
| `ConnectionModel.ExecuteGuard` | BaseConnection.cs:127-160 | `ExecuteSQL`, `ExecuteReader` and `ExecuteSQLReturnId` raise MySqlOpenedConnectionException and issue nothing without an open connection; otherwise the command is bound to the current connection and the current, possibly null, transaction, and becomes Command; the reader yields the server's rows |
| `ConnectionModel.ReturnIdCommand` | BaseConnection.cs:165-172 | `ExecuteSQLReturnId` sends `sql + "; SELECT LAST_INSERT_ID() as id"` on the current connection and transaction, and changes neither |
| `ConnectionModel.ScanIdsAllConvert` | BaseConnection.cs:175-182 | when every row's id converts, the read loop gives the last row's id, or its starting value 0 when there are no rows |
| `ConnectionModel.ScanIdsFirstFailure` | BaseConnection.cs:177-180 | the read loop stops at the first row whose id does not convert, and raises that row's error |
| `ConnectionModel.ScanIdsFailureHasCause` | BaseConnection.cs:177-180 | the read loop raises an error only when some row's id fails to convert |
| `ConnectionModel.ReturnIdValue` | BaseConnection.cs:165-188 | on an open connection, `ExecuteSQLReturnId` returns 0 for no rows, and otherwise the converted id of the last row, which is 0 when that id is NULL |
| `ConnectionModel.ConvertIdValues` | BaseConnection.cs:179 | `ReturnConvertedValue<long>(reader["id"])`: NULL gives 0, a 64-bit integer gives itself, a wider integer overflows |
| `ConnectionModel.BeginTransactionOverwrites` | BaseConnection.cs:53-58 | a second `BeginTransaction` succeeds and replaces the first transaction without committing or rolling it back |
| `ConnectionModel.ReconnectThenEndStaleTransaction` | BaseConnection.cs:24-30 | after a reconnect, `Commit` and `Rollback` succeed on the kept transaction of the closed connection, and the driver is asked to end it |
| `ConnectionModel.ReconnectKeepsStaleTransaction` | BaseConnection.cs:24-30 | after reconnecting while a transaction is held, the next command is bound to the new connection and to the old connection's transaction |
| `ConnectionInvariant.GuardFailureChangesNothing` | BaseConnection.cs:20-188 | any call rejected with ArgumentNullException, MySqlOpenedConnectionException or MySqlOpenedTransactionException leaves every field and the driver log unchanged |
| `ConnectionInvariant.CloseKeepsInvariant` | BaseConnection.cs:26 | closing the open connection keeps the invariant; afterwards no connection is open and no transaction is in progress |
| `ConnectionInvariant.OpenKeepsInvariant` | BaseConnection.cs:29-30 | building and opening a connection when none is open keeps the invariant, whatever the driver answers |
| `ConnectionInvariant.ConnectKeepsInvariant` | BaseConnection.cs:20-36 | `Connect` keeps the driver protocol invariant |
| `ConnectionInvariant.DisconnectKeepsInvariant` | BaseConnection.cs:41-48 | `Disconnect` keeps the driver protocol invariant |
| `ConnectionInvariant.BeginTransactionKeepsInvariant` | BaseConnection.cs:53-62 | `BeginTransaction` keeps the driver protocol invariant |
| `ConnectionInvariant.EndTransactionKeepsInvariant` | BaseConnection.cs:68-109 | `Commit` and `Rollback` keep the driver protocol invariant |
| `ConnectionInvariant.IssueKeepsInvariant` | BaseConnection.cs:131-135 | issuing a command on the open connection keeps the driver protocol invariant |
| `ConnectionInvariant.ApplyKeepsInvariant` | BaseConnection.cs:20-188 | every protected operation keeps the driver protocol invariant |
| `ConnectionInvariant.InitialInvariant` | BaseConnection.cs:11-15 | a new object, with every field null, satisfies the invariant |
| `ConnectionInvariant.RunKeepsInvariant` | BaseConnection.cs:20-188 | every sequence of calls keeps the invariant |
| `ConnectionInvariant.AtMostOneOpenConnection` | BaseConnection.cs:20-48 | after any sequence of calls on a new object, at most one connection is open at the driver, and it is the current Connection when `IsConnectionOpened()` holds. Each close, begin and command was made on an open connection. Each commit or rollback was of a transaction begun and not yet ended, which was either in progress or belonged to a connection already closed. Every transaction in progress belongs to the open connection. The held transaction was begun, is not ended, and is in progress exactly when its connection is open |
| `ConnectionInvariant.ReconnectEndsPendingTransaction` | BaseConnection.cs:24-30 | a reconnect while a transaction is held closes its connection, so the transaction is no longer in progress; the class still holds it, and `Commit` on it succeeds |
| `ConnectionInvariant.EndsAtMostOnce` | BaseConnection.cs:68-109 | in a well-formed driver log, no transaction is committed or rolled back twice |
| `ConnectionInvariant.EachTransactionEndsOnce` | BaseConnection.cs:68-109 | after any sequence of calls on a new object, no transaction has been committed or rolled back twice |
| `MySqlConnect.BaseConnection.constructor` | BaseConnection.cs:11-15 | a new object has Connection, Transaction and Command null |
| `MySqlConnect.BaseConnection.IsConnectionOpened` | BaseConnection.cs:114-122 | true exactly when a connection is held and its state is open |
| `MySqlConnect.BaseConnection.CloseConnection` | BaseConnection.cs:24-27 | closes the held connection, which stays referenced |
| `MySqlConnect.BaseConnection.Connect` | BaseConnection.cs:20-36 | new fields and result are those of `ConnectionModel.Connect` |
| `MySqlConnect.BaseConnection.Disconnect` | BaseConnection.cs:41-48 | new fields are those of `ConnectionModel.Disconnect` |
| `MySqlConnect.BaseConnection.BeginTransaction` | BaseConnection.cs:53-62 | new fields and result are those of `ConnectionModel.BeginTransaction` |
| `MySqlConnect.BaseConnection.Commit` | BaseConnection.cs:68-86 | new fields and result are those of `ConnectionModel.Commit` |
| `MySqlConnect.BaseConnection.Rollback` | BaseConnection.cs:91-109 | new fields and result are those of `ConnectionModel.Rollback` |
| `MySqlConnect.BaseConnection.IssueCommand` | BaseConnection.cs:131-135 | Command becomes a command on the current connection and transaction with the given text, and it is issued |
| `MySqlConnect.BaseConnection.ExecuteSQL` | BaseConnection.cs:127-141 | new fields and result are those of `ConnectionModel.ExecuteSQL` |
| `MySqlConnect.BaseConnection.ExecuteReader` | BaseConnection.cs:146-160 | new fields and result are those of `ConnectionModel.ExecuteReader` |
| `MySqlConnect.BaseConnection.ExecuteSQLReturnId` | BaseConnection.cs:165-188 | the loop over the rows gives the result of `ConnectionModel.ExecuteSQLReturnId`, and the new fields are the ones it gives |

## Left out

- The MySql.Data driver. `Open`, `Close`, `BeginTransaction`, `Commit`, `Rollback`,
  `ExecuteNonQuery` and `ExecuteReader` are network I/O inside a library. They appear only as
  state changes and entries in the ghost log. Failures raised by `Close`, `BeginTransaction`,
  `Commit`, `Rollback` or the command executions are not modelled. The driver's own refusal of
  nested transactions, and of a command bound to another connection's transaction, is not
  modelled either: `BeginTransactionOverwrites`, `ReconnectKeepsStaleTransaction` and
  `ReconnectThenEndStaleTransaction` state only what this class does. Closing a connection is
  taken to roll back its transaction at the server. That is all the invariant knows of the
  server's side of a transaction.
- Reader cursors. A reader is the sequence of rows the server returns; there is no lazy
  fetching and no single-active-reader rule. Column names are matched exactly, whereas the
  driver ignores case.
- `Coercion.ReturnConvertedValue`: only integral target types are modelled. `Convert.ChangeType`
  for strings, dates, floating point and culture rules belongs to the .NET library, so any
  non-integer value is an invalid cast here, although .NET would parse a numeric string.
- The enum branch of `ReturnConvertedValue` (BaseConnection.cs:202-205), which depends on
  runtime reflection over `T`.
- `Dispose` (BaseConnection.cs:210-213), whose body is empty.
- The exception classes in Exceptions/ hold only constructors. They are cases of
  `ConnectionModel.Error`. `Error.ConstructorArgument` gives the string the class passes to
  each constructor. The full `Message` of ArgumentNullException is composed by .NET around that
  string, which it takes as the parameter name, so it is not modelled.
- A null `sql` string: SQL text is always a string here.
- Concurrency: the class has no synchronisation of its own.
