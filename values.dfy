/** The values the Oracle engine manipulates: fixed-width integers, the three
    kinds of query parameter, the engine's error taxonomy, the evidence record
    and the abstract database driver the engine calls into. */
module Values {

  /** Rust `i32`: the width of the integer-parameter argument and of the
      integer-result output. */
  newtype I32 = x: int | -0x8000_0000 <= x < 0x8000_0000

  /** Rust `i64`: the width of an integer held in the parameter queue. */
  newtype I64 = x: int | -0x8000_0000_0000_0000 <= x < 0x8000_0000_0000_0000

  /** `i64::from(x)` for an `i32`: a lossless widening. */
  function Widen(x: I32): (r: I64)
    ensures r as int == x as int
  {
    x as int as I64
  }

  /** A queued query parameter (`SqlValue`). */
  datatype SqlValue = String(text: string) | Integer(number: I64) | Boolean(flag: bool)

  /** An error reported by the database driver; its content is not interpreted. */
  datatype OracleError = OracleError(code: int, message: string)

  /** `EngineError`: the failures an instruction can report. */
  datatype EngineError =
    | PoisonedState
    | Oracle(cause: OracleError)
    | DangerousQuery
    | NotYetConnected

  datatype Option<T> = None | Some(value: T)

  datatype Result<T, E> = Ok(value: T) | Err(error: E)

  /** A database session handed out by the driver, identified by an opaque handle. */
  datatype Connection = Connection(session: nat)

  /** A result row fetched by the driver, identified by an opaque handle. */
  datatype Row = Row(cursor: nat)

  /** One evidence record: a label (`title`, since `label` is a Dafny keyword) and a textual content. */
  datatype Evidence = Evidence(title: string, content: string)

  /** The label of the record every executed query leaves behind. */
  const RanQueryLabel: string := "Ran Query"

  function RanQuery(query: string): (e: Evidence)
    ensures e.title == RanQueryLabel && e.content == query
  {
    Evidence(RanQueryLabel, query)
  }

  /** The database driver as an abstract capability. Each field is an
      arbitrary total function, so every combination of success and failure
      the real driver could produce is one value of this type; the arguments
      make visible what the engine hands to the driver. */
  datatype Driver = Driver(
    connect: (string, string, string) -> Result<Connection, OracleError>,
    execute: (Connection, string, seq<SqlValue>) -> Result<(), OracleError>,
    queryRow: (Connection, string, seq<SqlValue>) -> Result<Row, OracleError>,
    getString: (Row, string) -> Result<string, OracleError>,
    getInteger: (Row, string) -> Result<I32, OracleError>)
}
