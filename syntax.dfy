/**
  The tree produced by the SELECT grammar of moz_sql_parser/sql_parser.py.

  The source builds JSON-like dictionaries in its parse actions; each
  dictionary shape becomes one constructor here, and `NodeKeys` /
  `JoinKeys` give back the key set that dictionary would have.
 */
module Syntax {

  datatype Option<+T> = None | Some(value: T)

  /** The `params` value of a call node: absent (None), a single node, or a list. */
  datatype Params = NoParams | One(param: Expr) | Many(list: seq<Expr>)

  datatype Expr =
    | IntLit(digits: string)             // intNum: the combined token text
    | RealLit(digits: string)            // realNum: the combined token text
    | Str(text: string)                  // sqlString after unquoting
    | Id(name: string)                   // ident: a dotted path, or "*"
    | List(items: seq<Expr>)             // a parenthesised, comma separated group
    | Op(name: string, args: seq<Expr>)  // {name: [args]} from to_json_operator
    | Call(fn: string, params: Params)   // {fn: params} from to_json_call
    | When(cond: Expr, result: Expr)     // {"when": cond, "then": result}
    | Case(cases: seq<Expr>)             // {"case": [when..., else?]}
    | Sub(query: Select)                 // a nested SELECT statement

  datatype Column = Column(value: Expr, alias: Option<string>)

  datatype TableRef = TableRef(table: string, alias: Option<string>)

  /** {op: table, "on": cond?} from to_join_call; op is "join", "inner join" or "cross join". */
  datatype Join = Join(op: string, table: TableRef, on: Option<Expr>)

  datatype SortColumn = SortColumn(value: Expr, desc: bool)

  datatype FromClause = FromClause(tables: seq<TableRef>, joins: seq<Join>)

  datatype Select = Select(
    columns: seq<Column>,
    from: Option<FromClause>,
    where: Option<Expr>,
    groupBy: Option<seq<Column>>,
    having: Option<Expr>,
    orderBy: Option<seq<SortColumn>>)

  /** The keys of the dictionary the source builds for a node (empty for scalars and lists). */
  function NodeKeys(e: Expr): set<string>
  {
    match e
    case Op(name, _) => {name}
    case Call(fn, _) => {fn}
    case When(_, _) => {"when", "then"}
    case Case(_) => {"case"}
    case _ => {}
  }

  /** The keys of the dictionary built by to_join_call. */
  function JoinKeys(j: Join): set<string>
  {
    {j.op} + (if j.on.Some? then {"on"} else {})
  }

  /** The parameter list a `Params` value stands for. */
  function ParamList(p: Params): seq<Expr>
  {
    match p
    case NoParams => []
    case One(e) => [e]
    case Many(es) => es
  }
}
