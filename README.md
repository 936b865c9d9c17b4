# Oracle SQL engine: a Dafny model

This project models the Oracle SQL engine of testangel-oracle. The engine is a small state machine with three parts:

- an optional database connection;
- a queue of typed query parameters (text, 64-bit integer, boolean);
- an append-only list of evidence records.

Seven instructions drive it: `connect`; three add-parameter instructions; and three query instructions. The query instructions are `query`, `query_with_string_result` and `query_with_integer_result`. Each query instruction does the same five things in order:

1. It runs a lexical danger guard.
2. It checks that a connection exists.
3. It takes the whole parameter queue as the query's bindings and leaves the queue empty.
4. It calls the database.
5. It appends one "Ran Query" evidence record.

Every instruction takes the host's dry-run flag.

Files:

- `values.dfy` (module `Values`): the fixed-width integers `I32` and `I64`, `SqlValue`, `EngineError`, `Evidence`, `Option` and `Result`. It also holds `Driver`, the database driver as an abstract capability. Each driver operation (connect, execute, fetch the first row, read a text column, read an integer column) is an arbitrary total function value. The arguments of these functions show exactly what the engine passes to the driver. In a sequence of calls (`Run`) each call carries its own `Driver`, so the database may answer each call differently: the same statement may succeed once and fail later.
- `danger_guard.dfy` (module `DangerGuard`): the guard. It holds `str::split(' ')` as `Split`, with `Join` as its inverse. It holds `str::trim` as `Trim`, over the Unicode White_Space characters that `char::is_whitespace` accepts. It holds `to_ascii_lowercase` as `ToAsciiLower`. It defines the predicate `IsDangerous`. `CheckQuery` is the search loop with early return that the instructions run. The lemmas characterise the guard compositionally.
- `guard_examples.dfy` (module `GuardExamples`): the guard on concrete queries, including the exact-match edge cases.
- `instructions.dfy` (module `Instructions`): one step function per instruction, from the state before a call to the state after it plus the call's result. The engine's promises are the `ensures` clauses of these functions. Lemmas over whole call sequences (`Run`) cover dry runs, evidence growth, connection changes and queue order.
- `engine.dfy` (module `OracleEngine`): class `Engine` with the fields `conn`, `params` and `evidence`. Its imperative methods assign the connection, append to the queue, drain the queue and append evidence, as the source does. Each method is proved to produce exactly its step function's new state and result.
- `scenarios.dfy` (module `Scenarios`): end-to-end sessions.

Data model (module `Values` and `Instructions`):

- `SqlValue` (src/lib.rs:8-12): a queued parameter, text, 64-bit integer or boolean.
- `EngineError` (src/lib.rs:15-24): `PoisonedState`, `Oracle(cause)`, `DangerousQuery` and `NotYetConnected`, the source's four variants.
- `EngineState` (src/lib.rs:34-37): the optional connection and the parameter queue, plus the evidence recorded so far.

In all three query instructions the guard runs before the dry-run branch (src/lib.rs:115-125, 155-167, 199-211). So a refused query fails with `DangerousQuery` even in a dry run.

## Model

| member | source | states |
|---|---|---|
| Values.Widen | src/lib.rs:80-85 | the `i32` parameter widens to `i64` with the same value |
| Values.RanQuery | src/lib.rs:139 | an executed query's evidence record has the label "Ran Query" and the unmodified query text as its content |
| DangerGuard.Split | src/lib.rs:117 | splitting on `' '` gives one more piece than the text has spaces (empty pieces included), and no piece contains a space |
| DangerGuard.JoinSplit | src/lib.rs:117 | gluing the pieces back with spaces gives the original query |
| DangerGuard.SplitJoin | src/lib.rs:117 | splitting a space-join of space-free pieces returns exactly those pieces |
| DangerGuard.SplitAppend | src/lib.rs:117 | splitting `a + sep + b` gives the pieces of `a` followed by the pieces of `b` |
| DangerGuard.SplitPiecesFit | src/lib.rs:117 | no piece is longer than the text it was split from |
| DangerGuard.SplitWithoutSep | src/lib.rs:117 | text without the separator is one piece |
| DangerGuard.IsWhitespace | src/lib.rs:118 | the characters `trim` removes; among ASCII characters exactly space, tab, line feed, vertical tab, form feed and carriage return |
| DangerGuard.LeadingWhitespace | src/lib.rs:118 | the length of the longest all-whitespace prefix |
| DangerGuard.TrailingWhitespace | src/lib.rs:118 | the length of the longest all-whitespace suffix |
| DangerGuard.Trim | src/lib.rs:118 | the result is the contiguous middle of the piece; it neither starts nor ends with whitespace, and everything cut off is whitespace |
| DangerGuard.TrimIdempotent | src/lib.rs:118 | trimming twice is trimming once |
| DangerGuard.TrimWithoutWhitespace | src/lib.rs:118 | text with no whitespace is unchanged by trimming |
| DangerGuard.LowerChar | src/lib.rs:119 | an ASCII capital becomes its small letter (code point + 32); every other character is kept; no ASCII capital is left |
| DangerGuard.ToAsciiLower | src/lib.rs:119 | the length is kept; no ASCII capital remains; ASCII capitals map to their small letter (code point + 32); every other character is kept |
| DangerGuard.IsDangerousWord | src/lib.rs:118-119 | a piece trips the guard only if, trimmed, it is four, six or eight ASCII letters (a denylisted word in some letter case) |
| DangerGuard.IsDangerous | src/lib.rs:115-122 | the guard's verdict on a whole query; a query shorter than "drop" never trips it |
| DangerGuard.CheckQuery | src/lib.rs:115-123 | the search loop refuses the query iff dangerous queries are not allowed and some space-separated, trimmed, ASCII-lower-cased piece equals "truncate", "delete" or "drop" exactly |
| DangerGuard.DangerousSingleWord | src/lib.rs:117-122 | text without a space is dangerous iff it is, trimmed and lower-cased, a denylisted word |
| DangerGuard.DangerousJoin | src/lib.rs:117-122 | a query glued from space-free pieces is dangerous iff one of the pieces is |
| DangerGuard.DangerousAtSpace | src/lib.rs:117-122 | cut at any space, a query is dangerous iff one of the two sides is |
| DangerGuard.DangerousConcat | src/lib.rs:117-122 | `a + " " + b` is dangerous iff `a` is or `b` is |
| DangerGuard.AnyDangerousAppend | src/lib.rs:117-122 | a sequence of pieces joined end to end has a dangerous piece iff one of its parts does |
| DangerGuard.SingleWordCheck | src/lib.rs:117-122 | a word with no whitespace is dangerous iff its ASCII-lower-cased form is on the denylist |
| GuardExamples.Word | src/lib.rs:115-122 | a whitespace-free word with a given lower-cased form is dangerous iff that form is denylisted |
| GuardExamples.SelectPasses | src/lib.rs:115-122 | "SELECT * FROM t" passes the guard |
| GuardExamples.SelectWordPasses | src/lib.rs:115-122 | "SELECT" passes the guard |
| GuardExamples.StarFromTPasses | src/lib.rs:115-122 | "* FROM t" passes the guard |
| GuardExamples.FromTPasses | src/lib.rs:115-122 | "FROM t" passes the guard |
| GuardExamples.UpperCaseDropIsDangerous | src/lib.rs:115-122 | "DROP table t" trips the guard (case-insensitive) |
| GuardExamples.DeleteIsDangerous | src/lib.rs:115-122 | "DELETE FROM t" trips the guard |
| GuardExamples.PunctuatedDropPasses | src/lib.rs:115-122 | "drop;" passes (exact match, not substring) |
| GuardExamples.AirdropPasses | src/lib.rs:115-122 | "airdrop now" passes (exact match, not substring) |
| GuardExamples.NowPasses | src/lib.rs:115-122 | "now" passes the guard |
| GuardExamples.TrimmedTruncateIsDangerous | src/lib.rs:115-122 | a tab and newline around "TRUNCATE" are trimmed, so it trips the guard |
| GuardExamples.TrimTabNewline | src/lib.rs:118 | trimming "\tTRUNCATE\n" removes exactly the tab and the newline |
| GuardExamples.LeadingSpacesDoNotHide | src/lib.rs:115-122 | "  drop" trips the guard (the extra spaces only yield empty pieces) |
| GuardExamples.TabInsidePiecePasses | src/lib.rs:115-122 | "drop\tt" passes: only `' '` separates pieces, and trimming only touches the ends |
| Instructions.ConnectStep | src/lib.rs:47-55 | a dry run changes nothing and succeeds; otherwise a driver failure is reported as `Oracle` and keeps the old connection; a success replaces the connection with the driver's; queue and evidence never change |
| Instructions.AddParameterStep | src/lib.rs:65-101 | outside a dry run exactly one value is appended at the end and earlier values are unchanged; in a dry run the queue is unchanged; connection and evidence never change |
| Instructions.QueryStep | src/lib.rs:111-141 | `DangerousQuery` iff the guard refuses, dry run or not; `NotYetConnected` iff the guard passes outside a dry run with no connection; a dry run otherwise succeeds; every path that does not reach the driver leaves the whole state unchanged; reaching the driver empties the queue whatever the outcome, and success iff the driver succeeds on the old queue as bindings, a failure being `Oracle` of the driver's own error; one "Ran Query" record is appended only on success; the connection never changes |
| Instructions.RowQueryStep | src/lib.rs:150-229 | as QueryStep for guard, dry run (result is the zero value), connection check and drain; the result is the driver's column value iff both the row fetch and the column read succeed; a failed row fetch gives `Oracle` of the fetch error, and a failed column read after a good fetch gives `Oracle` of the read error; the evidence record is appended iff the row fetch succeeds, even when the column read then fails |
| Instructions.Queued | src/lib.rs:65-101 | the value an add-parameter instruction queues; for the integer variant, an `Integer` with the argument's value |
| Instructions.DryRunsChangeNothing | src/lib.rs:52-54 | any sequence of dry-run calls, whatever the database would answer at each, leaves connection, queue and evidence exactly as they were |
| Instructions.EvidenceOnlyGrows | src/lib.rs:139 | over any sequence of calls, with any database answer at each call, the old evidence is a prefix of the new |
| Instructions.OnlyConnectConnects | src/lib.rs:53 | without a non-dry-run connect, the connection never changes, whatever the database answers at each call |
| Instructions.AddsQueueInOrder | src/lib.rs:68-99 | after add-parameter calls the queue is the old queue followed by the non-dry-run values in call order; nothing else changes |
| Instructions.AddsThenQuery | src/lib.rs:126-138 | the next query past the connection check binds exactly the old queue followed by the added values, in order, and leaves the queue empty |
| OracleEngine.Engine.constructor | src/lib.rs:33-37 | a new engine has no connection, no parameters and no evidence |
| OracleEngine.Engine.Connect | src/lib.rs:47-55 | new state and result are those of ConnectStep |
| OracleEngine.Engine.AddParameterString | src/lib.rs:65-71 | new state is AddParameterStep with a `String` value |
| OracleEngine.Engine.AddParameterInt | src/lib.rs:80-86 | new state is AddParameterStep with the widened `Integer` value |
| OracleEngine.Engine.AddParameterBool | src/lib.rs:95-101 | new state is AddParameterStep with a `Boolean` value |
| OracleEngine.Engine.DrainParameters | src/lib.rs:127-128 | returns the old queue and leaves it empty, with nothing else changed |
| OracleEngine.Engine.Query | src/lib.rs:111-141 | new state and result are those of QueryStep |
| OracleEngine.Engine.QueryWithStringResult | src/lib.rs:150-185 | new state and result are those of RowQueryStep with the text getter and `""` |
| OracleEngine.Engine.QueryWithIntegerResult | src/lib.rs:194-229 | new state and result are those of RowQueryStep with the integer getter and `0` |
| Scenarios.ConnectAddAddQuery | src/lib.rs:47-139 | connect, add "Bob", add 42, then a passing query: the driver gets ["Bob", 42] in order; afterwards the queue is empty and the evidence is one "Ran Query" record with the query text iff the driver succeeded |
| Scenarios.QueryBeforeConnect | src/lib.rs:125-126 | without a connect, a query fails with `NotYetConnected` and the queued parameter stays queued |
| Scenarios.DeleteRefusedFirst | src/lib.rs:115-126 | "DELETE FROM t" without permission fails with `DangerousQuery` and changes nothing, with no connection and in a dry run too |
| Scenarios.DryRunAddIsNotBound | src/lib.rs:68-138 | a value added in a dry run is not bound by the next real query; only the value added for real is |

## Left out

- Driver internals: `Connection::connect`, `conn.query`, `conn.query_row`, `row.get` and `ToSql` are foreign library calls. They are arbitrary functions in `Driver`. SQL semantics and column type coercion are not modelled.
- The `&dyn ToSql` binding vector (src/lib.rs:130-137) only changes how the values are represented. The driver receives the queued `SqlValue`s themselves, in queue order.
- `EngineError::PoisonedState` and the lock around the engine state are host concurrency. The variant is declared, and no modelled operation produces it.
- The `engine!` macro metadata (ids, names, `lua_name`, flags, argument and output attributes) and the `#[error(...)]` message strings are not modelled. The `Box<dyn Error>` wrapping of errors is not modelled either.
- Evidence: the source pushes records onto an `evidence` list that the host supplies (src/lib.rs:139, 182, 226); its life outside a call is not part of this model. The model keeps it as the `evidence` field of the engine, which calls only append to. This assumes that the host keeps a record pushed before a later `?` fails in the same call (src/lib.rs:182-183, 226-227), as `RowQueryStep` states.
- Driver errors: `?` returns the driver's `oracle::Error` boxed as it is (src/lib.rs:53, 138, 181, 183, 225, 227); `EngineError::Oracle` (src/lib.rs:19) is declared but never built. The model reports such a failure as `Oracle(e)`, with `e` the driver's error, standing for that boxed driver error.
- Releasing the previous connection when `connect` replaces it is not modelled: the handle is just overwritten.
- Whitespace for `trim` is the fixed Unicode White_Space list written out in `IsWhitespace`.
- Lower-casing maps only `'A'..'Z'`, as `to_ascii_lowercase` does. Other Unicode case mappings are not relevant.
