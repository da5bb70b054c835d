/** A SQL Lab run: preparing a script, executing it block by block over one connection,
    trimming the rows it fetched, committing, and storing the results. What the database,
    the results backend and other workers do arrives in an `Env`. */
module SqlLab {
  import opened Wrappers
  import opened Ordering

  datatype QueryStatus = STOPPED | FAILED | PENDING | RUNNING | SCHEDULED | SUCCESS | FETCHING | TIMED_OUT
  datatype LimitingFactor = QUERY | DROPDOWN | QUERY_AND_DROPDOWN | NOT_LIMITED | UNKNOWN
  datatype CtasMethod = TABLE | VIEW
  datatype LimitMethod = FETCH_MANY | FORCE_LIMIT | WRAP_SQL

  type Row = int
  type Key = int

  /** The LIMIT clause of a statement. A SELECT or a set operation has one, though it may be
      empty; a command that is kept as raw text, such as SHOW or EXPLAIN, has none, and a
      limit set on it does not show in its text. */
  datatype LimitClause = NoClause | Clause(limit: Option<nat>)

  /** A statement: whether it mutates data or is a SELECT, and its LIMIT clause. */
  datatype Statement = Statement(sql: int, mutating: bool, select: bool, clause: LimitClause)

  /** A statement as sent: the LIMIT of the SELECT around it, if it has been wrapped. */
  datatype Text = Text(st: Statement, outer: Option<nat>)
  type Block = seq<Text>

  datatype Config = Config(
    ctasNoLimit: bool,          // SQLLAB_CTAS_NO_LIMIT
    sqlMaxRow: nat,             // SQL_MAX_ROW, 0 when unset
    hasBackend: bool,           // a results backend is configured
    allowRunAsync: bool,
    allowDml: bool,
    runAsOne: bool,             // run_multiple_statements_as_one
    limitMethod: LimitMethod)

  datatype Error =
    | BackendNotConfigured | PreparationFailed | DmlNotAllowed | EmptyScript | InvalidCtas | InvalidCvas
    | ConnectionFailed | CommitFailed | NoResultSet | QueryStopped | SqlLabTimeout | OAuth2Redirect
    | StatementFailed | ResultFailed | ResultTooLarge | SerializationFailed | WriteFailed | ResultsBackendError

  datatype Result<T> = Ok(value: T) | Err(error: Error)

  /** What happens to one block: whether a stop request shows when the query is refreshed
      before it, and how the database answers. A driver error may turn out, on the refresh
      that follows, to be the effect of a stop request. */
  datatype Answer =
    | Rows(rows: seq<Row>)
    | SoftTimeLimit
    | RedirectToLogin
    | DriverError(stopped: bool)
  datatype BlockEnv = BlockEnv(stopped: bool, answer: Answer)

  /** How serializing a payload ends; one over SQLLAB_PAYLOAD_MAX_MB is too large. */
  datatype Serialized = Fits | TooLarge | Unserializable

  /** How the write to the results backend ends. */
  datatype Write = Written | Refused | Raised

  datatype Env = Env(
    preparationFails: bool,     // parsing, a disallowed function or row-level security raises
    connectionFails: bool,      // there is no connection, or no cursor on it
    block: nat -> BlockEnv,
    commitFails: bool,
    resultFails: bool,          // turning the last result set into a payload raises
    key: Key,                   // the fresh results key
    stored: Serialized,         // the payload to store
    write: Write,
    returned: Serialized)       // the payload to return

  datatype Payload = Payload(status: QueryStatus, data: seq<Row>, resultsKey: Option<Key>)

  class Query {
    var status: QueryStatus
    var limit: Option<nat>
    var limitingFactor: LimitingFactor
    var resultsKey: Option<Key>
    var hasError: bool
    var tmpTableName: Option<string>
    var selectAsCtaUsed: bool
    const selectAsCta: bool
    const ctasMethod: CtasMethod

    constructor (limit: Option<nat>, selectAsCta: bool, ctasMethod: CtasMethod)
      ensures status == PENDING && resultsKey == None && !selectAsCtaUsed
      ensures this.limit == limit && this.selectAsCta == selectAsCta && this.ctasMethod == ctasMethod
    {
      status, this.limit, limitingFactor := PENDING, limit, UNKNOWN;
      resultsKey, hasError, tmpTableName, selectAsCtaUsed := None, false, None, false;
      this.selectAsCta, this.ctasMethod := selectAsCta, ctasMethod;
    }
  }

  /** The connection: every block sent to it, and how often it was committed. */
  class Connection {
    var executed: seq<Block>
    var commits: nat
  }

  class ResultsBackend {
    var store: map<Key, Payload>
  }

  // ---------- limits ----------

  /** The limit a query runs under: clamped to the configured maximum, if there is one. */
  function Clamp(limit: Option<nat>, sqlMaxRow: nat): Option<nat> {
    if sqlMaxRow > 0 && (limit.None? || limit.value == 0 || limit.value > sqlMaxRow) then Some(sqlMaxRow) else limit
  }

  /** The user's own limit where it is positive and at most the maximum; otherwise the
      maximum, where there is one. */
  lemma ClampIs(limit: Option<nat>, sqlMaxRow: nat)
    ensures limit.Some? && 0 < limit.value && (sqlMaxRow == 0 || limit.value <= sqlMaxRow) ==>
              Clamp(limit, sqlMaxRow) == limit
    ensures sqlMaxRow > 0 && (limit.None? || limit.value == 0 || limit.value > sqlMaxRow) ==>
              Clamp(limit, sqlMaxRow) == Some(sqlMaxRow)
    ensures sqlMaxRow == 0 ==> Clamp(limit, sqlMaxRow) == limit
  {
  }

  predicate Unlimited(st: Statement, ctaUsed: bool, cfg: Config) {
    st.mutating || (ctaUsed && cfg.ctasNoLimit)
  }

  function OwnLimit(st: Statement): Option<nat> {
    if st.clause.NoClause? then None else st.clause.limit
  }

  /** Replacing a statement's own LIMIT, where its text has a place for one. */
  function Force(st: Statement, limit: nat): Statement {
    if st.clause.NoClause? then st else st.(clause := Clause(Some(limit)))
  }

  /** The statement with one row more than the limit asked for: the driver limits the fetch,
      or the statement's own LIMIT is replaced, or the statement is wrapped. */
  function SetLimit(st: Statement, limit: Option<nat>, m: LimitMethod): Text {
    if limit.None? || limit.value == 0 then Text(st, None)
    else
      match m
      case FETCH_MANY => Text(st, None)
      case FORCE_LIMIT => Text(Force(st, limit.value + 1), None)
      case WRAP_SQL => Text(st, Some(limit.value + 1))
  }

  function Limited(st: Statement, limit: Option<nat>, ctaUsed: bool, cfg: Config): Text {
    if Unlimited(st, ctaUsed, cfg) then Text(st, None) else SetLimit(st, Clamp(limit, cfg.sqlMaxRow), cfg.limitMethod)
  }

  method ApplyLimit(query: Query, st: Statement, cfg: Config) returns (r: Text)
    modifies query`limit
    ensures r == Limited(st, old(query.limit), query.selectAsCtaUsed, cfg)
    ensures TextIs(r, st, false, old(query.limit), query.selectAsCtaUsed, cfg)
    ensures query.limit == if st.mutating || (query.selectAsCtaUsed && cfg.ctasNoLimit) then old(query.limit)
                           else Clamp(old(query.limit), cfg.sqlMaxRow)
  {
    if st.mutating || (query.selectAsCtaUsed && cfg.ctasNoLimit) {
      return Text(st, None);
    }
    if cfg.sqlMaxRow > 0 && (query.limit.None? || query.limit.value == 0 || query.limit.value > cfg.sqlMaxRow) {
      query.limit := Some(cfg.sqlMaxRow);
    }
    r := Text(st, None);
    if query.limit.Some? && query.limit.value > 0 {
      match cfg.limitMethod {
        case FORCE_LIMIT => r := Text(Force(st, query.limit.value + 1), None);
        case WRAP_SQL => r := Text(st, Some(query.limit.value + 1));
        case FETCH_MANY =>
      }
    }
  }

  /** How a statement of the script is sent. `created` says that it is wrapped into a CREATE.
      A mutating statement, or any one once SQLLAB_CTAS_NO_LIMIT applies, is sent as it is.
      Otherwise one row more than the limit is asked for: the limit replaces that of the
      statement's LIMIT clause, if it has one, or is put around the statement, or is left to
      the fetch. */
  ghost predicate TextIs(x: Text, st: Statement, created: bool, limit: Option<nat>, ctaUsed: bool, cfg: Config) {
    && x.st.sql == st.sql
    && (if created then x.st.mutating && !x.st.select
        else x.st.mutating == st.mutating && x.st.select == st.select)
    && (if created || st.mutating || (ctaUsed && cfg.ctasNoLimit) then
          x.outer.None? && (!created ==> x.st.clause == st.clause)
        else
          match Clamp(limit, cfg.sqlMaxRow)
          case None => x == Text(st, None)
          case Some(l) =>
            if l == 0 || cfg.limitMethod.FETCH_MANY? then x == Text(st, None)
            else if cfg.limitMethod.WRAP_SQL? then x == Text(st, Some(l + 1))
            else if st.clause.NoClause? then x == Text(st, None)
            else x.outer.None? && x.st.clause == Clause(Some(l + 1)))
  }

  lemma LimitedIs(st: Statement, limit: Option<nat>, ctaUsed: bool, cfg: Config)
    ensures TextIs(Limited(st, limit, ctaUsed, cfg), st, false, limit, ctaUsed, cfg)
  {
  }

  function Cut(rows: seq<Row>, limit: Option<nat>): seq<Row> {
    if limit.None? then rows else rows[..Min(|rows|, limit.value)]
  }

  /** The rows a cursor yields for a block whose last statement, without any LIMIT, would
      yield `all`. */
  function CursorRows(all: seq<Row>, block: Block): seq<Row> {
    if block == [] then all
    else
      var last := block[|block| - 1];
      Cut(Cut(all, OwnLimit(last.st)), last.outer)
  }

  /** `fetch_data`. */
  function Fetch(cursor: seq<Row>, increased: Option<nat>, m: LimitMethod): seq<Row> {
    if m.FETCH_MANY? && increased.Some? && increased.value > 0 then cursor[..Min(|cursor|, increased.value)] else cursor
  }

  function Fetched(all: seq<Row>, block: Block, limit: Option<nat>, m: LimitMethod): seq<Row> {
    Fetch(CursorRows(all, block), if limit.None? then None else Some(limit.value + 1), m)
  }

  predicate NotLimited(data: seq<Row>, limit: Option<nat>) {
    limit.None? || |data| <= limit.value
  }

  /** What is kept of the fetched rows: all, or one less when they are over the limit. */
  function Trim(data: seq<Row>, limit: Option<nat>): seq<Row> {
    if NotLimited(data, limit) then data else data[..|data| - 1]
  }

  /** Trimming keeps to the limit exactly when no more than one row above it was fetched. */
  lemma TrimKeepsLimitIff(data: seq<Row>, limit: nat)
    ensures Trim(data, Some(limit)) == data[..Min(|data|, limit)] <==> |data| <= limit + 1
    ensures |Trim(data, Some(limit))| <= limit <==> |data| <= limit + 1
  {
    if |data| > limit + 1 {
      assert |Trim(data, Some(limit))| == |data| - 1 > |data[..limit]|;
    }
  }

  /** What a statement as written yields. */
  function Own(all: seq<Row>, st: Statement): seq<Row> {
    Cut(all, OwnLimit(st))
  }

  /** The rows that a run's limit applies to: those of the statement as written, except that
      forcing a limit has replaced its own. */
  function Base(all: seq<Row>, st: Statement, m: LimitMethod): seq<Row> {
    if m.FORCE_LIMIT? then all else Own(all, st)
  }

  /** A limit is forced on a text that has no place for it. */
  predicate Unheeded(st: Statement, m: LimitMethod) {
    m.FORCE_LIMIT? && st.clause.NoClause?
  }

  predicate Limits(st: Statement, limit: Option<nat>, ctaUsed: bool, cfg: Config) {
    && !Unlimited(st, ctaUsed, cfg)
    && Clamp(limit, cfg.sqlMaxRow).Some? && Clamp(limit, cfg.sqlMaxRow).value > 0
  }

  /** What is fetched for a block of one statement, and what is kept of it. */
  function FetchedOf(all: seq<Row>, st: Statement, limit: Option<nat>, ctaUsed: bool, cfg: Config): seq<Row> {
    Fetched(all, [Limited(st, limit, ctaUsed, cfg)], Clamp(limit, cfg.sqlMaxRow), cfg.limitMethod)
  }

  function ResultOf(all: seq<Row>, st: Statement, limit: Option<nat>, ctaUsed: bool, cfg: Config): seq<Row> {
    Trim(FetchedOf(all, st, limit, ctaUsed, cfg), Clamp(limit, cfg.sqlMaxRow))
  }

  /** A statement that is not mutating, under a positive limit: the extra row tells whether
      the limit is all there is, and the result is the first `limit` rows and at most the
      configured maximum, unless the limit is not heeded and two or more rows exceed it. */
  lemma LimitedResult(all: seq<Row>, st: Statement, limit: Option<nat>, ctaUsed: bool, cfg: Config)
    requires Limits(st, limit, ctaUsed, cfg)
    ensures var l, base := Clamp(limit, cfg.sqlMaxRow).value, Base(all, st, cfg.limitMethod);
            var result := ResultOf(all, st, limit, ctaUsed, cfg);
            && base == (if cfg.limitMethod.FORCE_LIMIT? || st.clause.NoClause? || st.clause.limit.None? then all
                        else if st.clause.limit.value < |all| then all[..st.clause.limit.value] else all)
            && (NotLimited(FetchedOf(all, st, limit, ctaUsed, cfg), Some(l)) <==> |base| <= l)
            && (result == base[..Min(|base|, l)] <==> !(Unheeded(st, cfg.limitMethod) && |base| > l + 1))
            && (cfg.sqlMaxRow > 0 ==>
                  (|result| <= cfg.sqlMaxRow <==>
                   !(Unheeded(st, cfg.limitMethod) && |base| > cfg.sqlMaxRow + 1)))
  {
    var l, base := Clamp(limit, cfg.sqlMaxRow).value, Base(all, st, cfg.limitMethod);
    var data := FetchedOf(all, st, limit, ctaUsed, cfg);
    if Unheeded(st, cfg.limitMethod) {
      assert data == base;
      TrimKeepsLimitIff(data, l);
    } else {
      assert data == base[..Min(|base|, l + 1)];
      assert |base| > l ==> data[..l] == base[..l];
    }
  }

  function SomeRows(n: nat): (rows: seq<Row>)
    ensures |rows| == n
  {
    seq(n, _ => 0)
  }

  /** Whatever the data, the result is the first rows of what the run's limit applies to, if
      and only if the limit is not forced on a text without a place for it. */
  lemma FirstRowsIff(st: Statement, limit: Option<nat>, ctaUsed: bool, cfg: Config)
    requires Limits(st, limit, ctaUsed, cfg)
    ensures (forall all: seq<Row> ::
               ResultOf(all, st, limit, ctaUsed, cfg) ==
               Cut(Base(all, st, cfg.limitMethod), Clamp(limit, cfg.sqlMaxRow)))
            <==> !Unheeded(st, cfg.limitMethod)
  {
    if Unheeded(st, cfg.limitMethod) {
      LimitedResult(SomeRows(Clamp(limit, cfg.sqlMaxRow).value + 2), st, limit, ctaUsed, cfg);
    }
    forall all: seq<Row> | !Unheeded(st, cfg.limitMethod)
      ensures ResultOf(all, st, limit, ctaUsed, cfg) ==
              Cut(Base(all, st, cfg.limitMethod), Clamp(limit, cfg.sqlMaxRow))
    {
      LimitedResult(all, st, limit, ctaUsed, cfg);
    }
  }

  /** Whatever the data, the result keeps to the configured maximum, under the same
      condition. */
  lemma MaximumKeptIff(st: Statement, limit: Option<nat>, ctaUsed: bool, cfg: Config)
    requires Limits(st, limit, ctaUsed, cfg) && cfg.sqlMaxRow > 0
    ensures (forall all: seq<Row> :: |ResultOf(all, st, limit, ctaUsed, cfg)| <= cfg.sqlMaxRow)
            <==> !Unheeded(st, cfg.limitMethod)
  {
    if Unheeded(st, cfg.limitMethod) {
      LimitedResult(SomeRows(cfg.sqlMaxRow + 2), st, limit, ctaUsed, cfg);
    }
    forall all: seq<Row> | !Unheeded(st, cfg.limitMethod)
      ensures |ResultOf(all, st, limit, ctaUsed, cfg)| <= cfg.sqlMaxRow
    {
      LimitedResult(all, st, limit, ctaUsed, cfg);
    }
  }

  /** A limit is forced over a LIMIT of the statement's own that is below `bound`. */
  predicate ForcedOver(st: Statement, m: LimitMethod, bound: nat) {
    m.FORCE_LIMIT? && OwnLimit(st).Some? && OwnLimit(st).value < bound
  }

  /** Whatever the data, the result is the first rows of what the statement as written
      yields, if and only if the limit is forced neither on a text without a place for it nor
      over a smaller LIMIT of its own. */
  lemma OwnLimitKeptIff(st: Statement, limit: Option<nat>, ctaUsed: bool, cfg: Config)
    requires Limits(st, limit, ctaUsed, cfg)
    ensures (forall all: seq<Row> ::
               ResultOf(all, st, limit, ctaUsed, cfg) == Cut(Own(all, st), Clamp(limit, cfg.sqlMaxRow)))
            <==> !Unheeded(st, cfg.limitMethod) &&
                 !ForcedOver(st, cfg.limitMethod, Clamp(limit, cfg.sqlMaxRow).value)
  {
    var l := Clamp(limit, cfg.sqlMaxRow).value;
    if Unheeded(st, cfg.limitMethod) {
      LimitedResult(SomeRows(l + 2), st, limit, ctaUsed, cfg);
    } else if ForcedOver(st, cfg.limitMethod, l) {
      LimitedResult(SomeRows(l), st, limit, ctaUsed, cfg);
      assert |ResultOf(SomeRows(l), st, limit, ctaUsed, cfg)| == l > |Own(SomeRows(l), st)|;
    } else {
      forall all: seq<Row>
        ensures ResultOf(all, st, limit, ctaUsed, cfg) == Cut(Own(all, st), Clamp(limit, cfg.sqlMaxRow))
      {
        LimitedResult(all, st, limit, ctaUsed, cfg);
        if cfg.limitMethod.FORCE_LIMIT? {
          CutTwice(all, OwnLimit(st), l);
        }
      }
    }
  }

  lemma CutTwice(all: seq<Row>, own: Option<nat>, limit: nat)
    requires own.None? || own.value >= limit
    ensures Cut(Cut(all, own), Some(limit)) == Cut(all, Some(limit))
  {
  }

  /** Whatever the data, the extra row tells whether the statement as written yields more
      than the limit, if and only if the limit is not forced over a LIMIT of its own that is
      no larger. */
  lemma OwnLimitToldIff(st: Statement, limit: Option<nat>, ctaUsed: bool, cfg: Config)
    requires Limits(st, limit, ctaUsed, cfg)
    ensures var l := Clamp(limit, cfg.sqlMaxRow);
            (forall all: seq<Row> ::
               NotLimited(FetchedOf(all, st, limit, ctaUsed, cfg), l) <==> |Own(all, st)| <= l.value)
            <==> !ForcedOver(st, cfg.limitMethod, l.value + 1)
  {
    var l := Clamp(limit, cfg.sqlMaxRow);
    if ForcedOver(st, cfg.limitMethod, l.value + 1) {
      LimitedResult(SomeRows(l.value + 1), st, limit, ctaUsed, cfg);
      assert |Own(SomeRows(l.value + 1), st)| <= l.value;
    }
    forall all: seq<Row> | !ForcedOver(st, cfg.limitMethod, l.value + 1)
      ensures NotLimited(FetchedOf(all, st, limit, ctaUsed, cfg), l) <==> |Own(all, st)| <= l.value
    {
      LimitedResult(all, st, limit, ctaUsed, cfg);
    }
  }

  /** A mutating statement is run with no limit but its own, so unless the driver limits the
      fetch, a result of more than one row above the limit exceeds the limit. */
  lemma MutatingResultExceeds(all: seq<Row>, st: Statement, limit: nat, cfg: Config)
    requires st.mutating && !cfg.limitMethod.FETCH_MANY?
    ensures var data := Fetched(all, [Limited(st, Some(limit), false, cfg)], Some(limit), cfg.limitMethod);
            |Trim(data, Some(limit))| > limit <==> |Own(all, st)| > limit + 1
  {
    TrimKeepsLimitIff(Own(all, st), limit);
  }

  // ---------- one block ----------

  method ExecuteQuery(query: Query, conn: Connection, block: Block, env: BlockEnv, m: LimitMethod)
    returns (r: Result<seq<Row>>)
    modifies query`status, query`limitingFactor, conn`executed
    ensures conn.executed == old(conn.executed) + [block]
    ensures match env.answer
            case Rows(all) =>
              && r == Ok(Trim(Fetched(all, block, query.limit, m), query.limit))
              && query.status == old(query.status)
              && query.limitingFactor == (if NotLimited(Fetched(all, block, query.limit, m), query.limit)
                                          then NOT_LIMITED else old(query.limitingFactor))
            case SoftTimeLimit => r == Err(SqlLabTimeout) && query.status == TIMED_OUT
            case RedirectToLogin => r == Err(OAuth2Redirect) && query.status == old(query.status)
            case DriverError(stopped) =>
              r == Err(if stopped then QueryStopped else StatementFailed) &&
              query.status == if stopped then STOPPED else old(query.status)
    ensures !env.answer.Rows? ==> query.limitingFactor == old(query.limitingFactor)
  {
    conn.executed := conn.executed + [block];
    match env.answer {
      case Rows(all) =>
        var increasedLimit := if query.limit.None? then None else Some(query.limit.value + 1);
        var data := Fetch(CursorRows(all, block), increasedLimit, m);
        if query.limit.None? || |data| <= query.limit.value {
          query.limitingFactor := NOT_LIMITED;
        } else {
          data := data[..|data| - 1];
        }
        r := Ok(data);
      case SoftTimeLimit =>
        query.status := TIMED_OUT;
        r := Err(SqlLabTimeout);
      case RedirectToLogin =>
        r := Err(OAuth2Redirect);
      case DriverError(stopped) =>
        if stopped {
          query.status := STOPPED;
          return Err(QueryStopped);
        }
        r := Err(StatementFailed);
    }
  }

  method HandleQueryError(query: Query) returns (payload: Payload)
    modifies query`status, query`hasError, query`tmpTableName
    ensures query.status == FAILED && query.hasError && query.tmpTableName == None
    ensures payload == Payload(FAILED, [], None)
  {
    query.hasError := true;
    query.tmpTableName := None;
    query.status := FAILED;
    payload := Payload(query.status, [], None);
  }

  // ---------- all blocks ----------

  /** How a run over blocks ends. */
  datatype Ending =
    | StoppedBefore(at: nat)   // a stop request showed before block `at`
    | StoppedDuring(at: nat)   // block `at` was broken off by a stop request
    | Broken(at: nat)          // block `at` failed
    | Finished

  function RunFrom(block: nat -> BlockEnv, n: nat, i: nat): Ending
    requires i <= n
    decreases n - i
  {
    if i == n then Finished
    else if block(i).stopped then StoppedBefore(i)
    else
      match block(i).answer
      case Rows(_) => RunFrom(block, n, i + 1)
      case DriverError(stopped) => if stopped then StoppedDuring(i) else Broken(i)
      case _ => Broken(i)
  }

  /** How many blocks were sent to the database. */
  function Ran(e: Ending, n: nat): nat {
    match e
    case StoppedBefore(at) => at
    case StoppedDuring(at) => at + 1
    case Broken(at) => at + 1
    case Finished => n
  }

  /** What the ending tells: no block runs once a stop request has shown, every block before
      the last one that ran succeeded, and the run finishes exactly if no stop showed and
      every block succeeded. */
  lemma {:induction false} EndingMeans(block: nat -> BlockEnv, n: nat, i: nat)
    requires i <= n
    ensures var e := RunFrom(block, n, i);
            && (e.Finished? || i <= e.at < n)
            && (forall j :: i <= j < Ran(e, n) ==> !block(j).stopped)
            && (forall j :: i <= j < Ran(e, n) - 1 ==> block(j).answer.Rows?)
            && (e.StoppedBefore? ==> block(e.at).stopped && (e.at > i ==> block(e.at - 1).answer.Rows?))
            && (e.StoppedDuring? ==> block(e.at).answer == DriverError(true))
            && (e.Broken? ==> !block(e.at).answer.Rows? && block(e.at).answer != DriverError(true))
            && (e.Finished? <==> forall j :: i <= j < n ==> !block(j).stopped && block(j).answer.Rows?)
            && (Ran(e, n) == n || block(Ran(e, n)).stopped || (Ran(e, n) > i && !block(Ran(e, n) - 1).answer.Rows?))
    decreases n - i
  {
    if i < n && !block(i).stopped && block(i).answer.Rows? {
      EndingMeans(block, n, i + 1);
    }
  }

  lemma RanSome(block: nat -> BlockEnv, n: nat)
    ensures Ran(RunFrom(block, n, 0), n) <= n
  {
    EndingMeans(block, n, 0);
  }

  /** The rows fetched for block `i`, when the database answers with rows. */
  function FetchedAt(block: nat -> BlockEnv, blocks: seq<Block>, i: nat, limit: Option<nat>, m: LimitMethod): seq<Row>
    requires i < |blocks|
  {
    if block(i).answer.Rows? then Fetched(block(i).answer.rows, blocks[i], limit, m) else []
  }

  /** The rows kept of the last block. */
  function LastRows(block: nat -> BlockEnv, blocks: seq<Block>, limit: Option<nat>, m: LimitMethod): seq<Row> {
    if blocks == [] then [] else Trim(FetchedAt(block, blocks, |blocks| - 1, limit, m), limit)
  }

  /** The result set in hand when `i` blocks have run. */
  function ResultAfter(block: nat -> BlockEnv, blocks: seq<Block>, i: nat, limit: Option<nat>, m: LimitMethod)
    : Option<seq<Row>>
    requires i <= |blocks|
  {
    if i == 0 then None else Some(Trim(FetchedAt(block, blocks, i - 1, limit, m), limit))
  }

  /** The rows of one of the first `n` blocks were within the limit. */
  predicate SomeNotLimited(block: nat -> BlockEnv, blocks: seq<Block>, n: nat, limit: Option<nat>, m: LimitMethod)
    requires n <= |blocks|
  {
    n > 0 && (NotLimited(FetchedAt(block, blocks, n - 1, limit, m), limit) ||
              SomeNotLimited(block, blocks, n - 1, limit, m))
  }

  /** The limiting factor when they have run. */
  function FactorAfter(block: nat -> BlockEnv, blocks: seq<Block>, n: nat, limit: Option<nat>, m: LimitMethod,
                       before: LimitingFactor): LimitingFactor
    requires n <= |blocks|
  {
    if SomeNotLimited(block, blocks, n, limit, m) then NOT_LIMITED else before
  }

  lemma FactorStep(block: nat -> BlockEnv, blocks: seq<Block>, i: nat, limit: Option<nat>, m: LimitMethod,
                   before: LimitingFactor)
    requires i < |blocks|
    ensures FactorAfter(block, blocks, i + 1, limit, m, before) ==
            if NotLimited(FetchedAt(block, blocks, i, limit, m), limit) then NOT_LIMITED
            else FactorAfter(block, blocks, i, limit, m, before)
  {
  }

  /** Where a run over blocks stands when the first `i` of them have succeeded. */
  ghost predicate Progress(block: nat -> BlockEnv, blocks: seq<Block>, i: nat, limit: Option<nat>, m: LimitMethod,
                           before: LimitingFactor, factor: LimitingFactor, resultSet: Option<seq<Row>>)
  {
    && i <= |blocks| && RunFrom(block, |blocks|, 0) == RunFrom(block, |blocks|, i)
    && resultSet == ResultAfter(block, blocks, i, limit, m)
    && factor == FactorAfter(block, blocks, i, limit, m, before)
  }

  lemma ProgressStep(block: nat -> BlockEnv, blocks: seq<Block>, i: nat, limit: Option<nat>, m: LimitMethod,
                     before: LimitingFactor, factor: LimitingFactor, resultSet: Option<seq<Row>>)
    requires Progress(block, blocks, i, limit, m, before, factor, resultSet) && i < |blocks|
    requires !block(i).stopped && block(i).answer.Rows?
    ensures var data := Fetched(block(i).answer.rows, blocks[i], limit, m);
            Progress(block, blocks, i + 1, limit, m, before, if NotLimited(data, limit) then NOT_LIMITED else factor,
                     Some(Trim(data, limit)))
  {
    FactorStep(block, blocks, i, limit, m, before);
  }

  lemma TakeNext<T>(front: seq<T>, s: seq<T>, i: nat)
    requires i < |s|
    ensures front + s[..i] + [s[i]] == front + s[..i + 1]
  {
  }

  method RunBlocks(query: Query, conn: Connection, blocks: seq<Block>, block: nat -> BlockEnv, m: LimitMethod)
    returns (e: Ending, resultSet: Option<seq<Row>>)
    requires query.status == RUNNING
    modifies query`status, query`limitingFactor, query`hasError, query`tmpTableName, conn`executed
    ensures e == RunFrom(block, |blocks|, 0)
    ensures Ran(e, |blocks|) <= |blocks| && conn.executed == old(conn.executed) + blocks[..Ran(e, |blocks|)]
    ensures e.Finished? ==> query.status == RUNNING
    ensures e.StoppedBefore? || e.StoppedDuring? ==> query.status == STOPPED
    ensures e.Broken? ==> query.status == FAILED
    ensures e.Finished? ==> resultSet == if blocks == [] then None else Some(LastRows(block, blocks, query.limit, m))
    ensures e.Finished? ==> query.limitingFactor ==
                            FactorAfter(block, blocks, |blocks|, query.limit, m, old(query.limitingFactor))
  {
    RanSome(block, |blocks|);
    resultSet := None;
    for i := 0 to |blocks|
      invariant query.status == RUNNING
      invariant conn.executed == old(conn.executed) + blocks[..i]
      invariant Progress(block, blocks, i, query.limit, m, old(query.limitingFactor), query.limitingFactor, resultSet)
    {
      // refresh the query
      if block(i).stopped {
        query.status := STOPPED;
        return StoppedBefore(i), None;
      }
      TakeNext(old(conn.executed), blocks, i);
      ghost var factor := query.limitingFactor;
      var r := ExecuteQuery(query, conn, blocks[i], block(i), m);
      if r.Err? {
        if r.error.QueryStopped? {
          return StoppedDuring(i), None;
        }
        var payload := HandleQueryError(query);
        return Broken(i), None;
      }
      ProgressStep(block, blocks, i, query.limit, m, old(query.limitingFactor), factor, resultSet);
      resultSet := Some(r.value);
    }
    assert blocks[..|blocks|] == blocks;
    e := Finished;
  }

  // ---------- the whole run ----------

  predicate HasMutation(script: seq<Statement>) {
    exists i :: 0 <= i < |script| && script[i].mutating
  }

  /** The first objection to a script. */
  function Objection(script: seq<Statement>, cta: bool, m: CtasMethod, cfg: Config, env: Env): Option<Error> {
    if cfg.allowRunAsync && !cfg.hasBackend then Some(BackendNotConfigured)
    else if env.preparationFails then Some(PreparationFailed)
    else if HasMutation(script) && !cfg.allowDml then Some(DmlNotAllowed)
    else if cta && m.TABLE? && script == [] then Some(EmptyScript)
    else if cta && m.TABLE? && !script[|script| - 1].select then Some(InvalidCtas)
    else if cta && m.VIEW? && !(|script| == 1 && script[0].select) then Some(InvalidCvas)
    else None
  }

  /** The reason for which a run sends nothing to the database, if there is one. */
  function Rejection(script: seq<Statement>, cta: bool, m: CtasMethod, cfg: Config, env: Env): Option<Error> {
    if Objection(script, cta, m, cfg, env).Some? then Objection(script, cta, m, cfg, env)
    else if env.connectionFails then Some(ConnectionFailed)
    else None
  }

  /** The CREATE around a SELECT; a LIMIT of the SELECT is none of the CREATE. */
  function Create(st: Statement): Statement {
    st.(mutating := true, select := false, clause := NoClause)
  }

  /** The statements as they are run: the last one wrapped into a CREATE for CTAS. */
  function Wrapped(script: seq<Statement>, cta: bool): seq<Statement> {
    if cta && script != [] then script[|script| - 1 := Create(script[|script| - 1])]
    else script
  }

  function LimitAll(script: seq<Statement>, limit: Option<nat>, ctaUsed: bool, cfg: Config): seq<Text> {
    seq(|script|, i requires 0 <= i < |script| => Limited(script[i], limit, ctaUsed, cfg))
  }

  predicate AllUnlimited(script: seq<Statement>, ctaUsed: bool, cfg: Config) {
    forall i :: 0 <= i < |script| ==> Unlimited(script[i], ctaUsed, cfg)
  }

  function LimitAfter(script: seq<Statement>, limit: Option<nat>, ctaUsed: bool, cfg: Config): Option<nat> {
    if AllUnlimited(script, ctaUsed, cfg) then limit else Clamp(limit, cfg.sqlMaxRow)
  }

  function Blocks(script: seq<Text>, runAsOne: bool): seq<Block> {
    if runAsOne then [script] else seq(|script|, i requires 0 <= i < |script| => [script[i]])
  }

  lemma ClampTwice(limit: Option<nat>, sqlMaxRow: nat)
    ensures Clamp(Clamp(limit, sqlMaxRow), sqlMaxRow) == Clamp(limit, sqlMaxRow)
  {
  }

  method ApplyLimits(query: Query, script: seq<Statement>, cfg: Config) returns (r: seq<Text>)
    modifies query`limit
    ensures r == LimitAll(script, old(query.limit), query.selectAsCtaUsed, cfg)
    ensures query.limit == LimitAfter(script, old(query.limit), query.selectAsCtaUsed, cfg)
  {
    r := [];
    ghost var limit := query.limit;
    for i := 0 to |script|
      invariant r == LimitAll(script[..i], limit, query.selectAsCtaUsed, cfg)
      invariant query.limit == LimitAfter(script[..i], limit, query.selectAsCtaUsed, cfg)
    {
      ClampTwice(limit, cfg.sqlMaxRow);
      assert script[..i + 1] == script[..i] + [script[i]];
      var st := ApplyLimit(query, script[i], cfg);
      r := r + [st];
    }
    assert script[..|script|] == script;
  }

  /** The blocks that a run sends, unless it is rejected or stopped on the way. */
  function RunBlocksOf(script: seq<Statement>, cta: bool, limit: Option<nat>, ctaUsed: bool, cfg: Config): seq<Block> {
    Blocks(LimitAll(Wrapped(script, cta), limit, ctaUsed || cta, cfg), cfg.runAsOne)
  }

  /** Which statement a text is, and whether it has been wrapped into a CREATE. */
  ghost predicate IsOf(x: Text, st: Statement, created: bool) {
    && x.st.sql == st.sql
    && (if created then x.st.mutating && !x.st.select
        else x.st.mutating == st.mutating && x.st.select == st.select)
  }

  /** Block `k` is statement `k` alone. */
  ghost predicate BlockIs(sent: seq<Block>, script: seq<Statement>, cta: bool, k: nat)
    requires k < |sent| && k < |script|
  {
    |sent[k]| == 1 && IsOf(sent[k][0], script[k], cta && k == |script| - 1)
  }

  /** The only block holds the statements in the order of the script. */
  ghost predicate HoldsScript(sent: seq<Block>, script: seq<Statement>, cta: bool)
    requires |sent| == 1
  {
    && |sent[0]| == |script|
    && (forall k :: 0 <= k < |script| ==> IsOf(sent[0][k], script[k], cta && k == |script| - 1))
  }

  /** The blocks of a script, or the first ones of them: one for each statement in the order
      of the script, or a single one that holds them all in that order. With CTAS the last
      statement, and no other, is wrapped into a CREATE. */
  ghost predicate IsSent(sent: seq<Block>, script: seq<Statement>, cta: bool, runAsOne: bool) {
    if runAsOne then |sent| == 0 || (|sent| == 1 && HoldsScript(sent, script, cta))
    else |sent| <= |script| && forall k :: 0 <= k < |sent| ==> BlockIs(sent, script, cta, k)
  }

  /** The blocks in full: which statements they are, and how each of them is limited. */
  lemma RunBlocksAre(script: seq<Statement>, cta: bool, limit: Option<nat>, ctaUsed: bool, cfg: Config)
    ensures var blocks := RunBlocksOf(script, cta, limit, ctaUsed, cfg);
            if cfg.runAsOne then
              && |blocks| == 1 && |blocks[0]| == |script|
              && (forall k :: 0 <= k < |script| ==>
                    TextIs(blocks[0][k], script[k], cta && k == |script| - 1, limit, ctaUsed || cta, cfg))
            else
              && |blocks| == |script|
              && (forall k :: 0 <= k < |script| ==>
                    |blocks[k]| == 1 &&
                    TextIs(blocks[k][0], script[k], cta && k == |script| - 1, limit, ctaUsed || cta, cfg))
  {
    var statements := Wrapped(script, cta);
    var texts := LimitAll(statements, limit, ctaUsed || cta, cfg);
    forall k | 0 <= k < |script|
      ensures TextIs(texts[k], script[k], cta && k == |script| - 1, limit, ctaUsed || cta, cfg)
    {
      LimitedIs(statements[k], limit, ctaUsed || cta, cfg);
    }
  }

  /** Sending the first `n` of them. */
  lemma SentPart(before: seq<Block>, script: seq<Statement>, cta: bool, limit: Option<nat>, ctaUsed: bool, cfg: Config,
                 n: nat)
    requires n <= |RunBlocksOf(script, cta, limit, ctaUsed, cfg)|
    ensures Sends(before, before + RunBlocksOf(script, cta, limit, ctaUsed, cfg)[..n], script, cta, cfg.runAsOne)
  {
    RunBlocksAre(script, cta, limit, ctaUsed, cfg);
    var more := RunBlocksOf(script, cta, limit, ctaUsed, cfg)[..n];
    assert (before + more)[|before|..] == more;
  }

  ghost predicate Sends(before: seq<Block>, after: seq<Block>, script: seq<Statement>, cta: bool, runAsOne: bool) {
    before <= after && IsSent(after[|before|..], script, cta, runAsOne)
  }

  lemma SendsNothing(before: seq<Block>, script: seq<Statement>, cta: bool, runAsOne: bool)
    ensures Sends(before, before, script, cta, runAsOne)
  {
  }

  /** The limit the query is left with. */
  function LimitOf(script: seq<Statement>, cta: bool, limit: Option<nat>, ctaUsed: bool, cfg: Config): Option<nat> {
    LimitAfter(Wrapped(script, cta), limit, ctaUsed || cta, cfg)
  }

  /** It is clamped unless every statement is exempt: because it mutates, or is turned into
      the CREATE, or SQLLAB_CTAS_NO_LIMIT applies. */
  lemma LimitOfIs(script: seq<Statement>, cta: bool, limit: Option<nat>, ctaUsed: bool, cfg: Config)
    ensures LimitOf(script, cta, limit, ctaUsed, cfg) ==
            if ((ctaUsed || cta) && cfg.ctasNoLimit) ||
               forall i :: 0 <= i < |script| ==> script[i].mutating || (cta && i == |script| - 1)
            then limit else Clamp(limit, cfg.sqlMaxRow)
  {
    var statements := Wrapped(script, cta);
    assert |statements| == |script|;
    assert forall i :: 0 <= i < |script| ==>
             (statements[i].mutating <==> script[i].mutating || (cta && i == |script| - 1));
    if i :| 0 <= i < |script| && !(script[i].mutating || (cta && i == |script| - 1)) {
      assert !statements[i].mutating;
    }
  }

  /** The rows a completed run results in. */
  function ResultRows(script: seq<Statement>, cta: bool, limit: Option<nat>, ctaUsed: bool, cfg: Config,
                      env: Env): seq<Row>
  {
    LastRows(env.block, RunBlocksOf(script, cta, limit, ctaUsed, cfg), LimitOf(script, cta, limit, ctaUsed, cfg),
             cfg.limitMethod)
  }

  /** Whether a completed run marks the query as not limited. */
  predicate NotLimitedRun(script: seq<Statement>, cta: bool, limit: Option<nat>, ctaUsed: bool, cfg: Config, env: Env) {
    var blocks := RunBlocksOf(script, cta, limit, ctaUsed, cfg);
    SomeNotLimited(env.block, blocks, |blocks|, LimitOf(script, cta, limit, ctaUsed, cfg), cfg.limitMethod)
  }

  /** The limit trick over a whole run without CTAS whose last statement is to be limited. The
      result is the first rows of that statement up to the clamped limit, and no more than the
      configured maximum, unless the limit is not heeded and two or more rows exceed it. A
      run of one statement is marked as not limited exactly if the limit is all there is. */
  lemma LimitedRun(script: seq<Statement>, limit: Option<nat>, ctaUsed: bool, cfg: Config, env: Env)
    requires script != [] && Limits(script[|script| - 1], limit, ctaUsed, cfg)
    requires env.block(if cfg.runAsOne then 0 else |script| - 1).answer.Rows?
    ensures var st, l := script[|script| - 1], Clamp(limit, cfg.sqlMaxRow).value;
            var all := env.block(if cfg.runAsOne then 0 else |script| - 1).answer.rows;
            var base := if cfg.limitMethod.FORCE_LIMIT? || st.clause.NoClause? || st.clause.limit.None? then all
                        else if st.clause.limit.value < |all| then all[..st.clause.limit.value] else all;
            var result := ResultRows(script, false, limit, ctaUsed, cfg, env);
            && (result == (if l < |base| then base[..l] else base) <==>
                !(Unheeded(st, cfg.limitMethod) && |base| > l + 1))
            && (cfg.sqlMaxRow > 0 ==>
                  (|result| <= cfg.sqlMaxRow <==>
                   !(Unheeded(st, cfg.limitMethod) && |base| > cfg.sqlMaxRow + 1)))
            && (|script| == 1 ==> (NotLimitedRun(script, false, limit, ctaUsed, cfg, env) <==> |base| <= l))
  {
    var st := script[|script| - 1];
    var all := env.block(if cfg.runAsOne then 0 else |script| - 1).answer.rows;
    LastStatementRun(script, limit, ctaUsed, cfg, env);
    LimitedResult(all, st, limit, ctaUsed, cfg);
  }

  /** Only the last text of the last block matters for its rows. */
  lemma LastStatementRun(script: seq<Statement>, limit: Option<nat>, ctaUsed: bool, cfg: Config, env: Env)
    requires script != [] && Limits(script[|script| - 1], limit, ctaUsed, cfg)
    requires env.block(if cfg.runAsOne then 0 else |script| - 1).answer.Rows?
    ensures var st, all := script[|script| - 1], env.block(if cfg.runAsOne then 0 else |script| - 1).answer.rows;
            && ResultRows(script, false, limit, ctaUsed, cfg, env) == ResultOf(all, st, limit, ctaUsed, cfg)
            && (|script| == 1 ==>
                  (NotLimitedRun(script, false, limit, ctaUsed, cfg, env) <==>
                   NotLimited(FetchedOf(all, st, limit, ctaUsed, cfg), Clamp(limit, cfg.sqlMaxRow))))
  {
    var st, all := script[|script| - 1], env.block(if cfg.runAsOne then 0 else |script| - 1).answer.rows;
    var l, m := Clamp(limit, cfg.sqlMaxRow), cfg.limitMethod;
    var blocks := RunBlocksOf(script, false, limit, ctaUsed, cfg);
    var last := blocks[|blocks| - 1];
    assert last[|last| - 1] == Limited(st, limit, ctaUsed, cfg);
    assert CursorRows(all, last) == CursorRows(all, [Limited(st, limit, ctaUsed, cfg)]);
    assert FetchedAt(env.block, blocks, |blocks| - 1, l, m) == FetchedOf(all, st, limit, ctaUsed, cfg);
    assert LimitOf(script, false, limit, ctaUsed, cfg) == l by {
      assert !Unlimited(script[|script| - 1], ctaUsed, cfg);
    }
    if |script| == 1 {
      assert !SomeNotLimited(env.block, blocks, 0, l, m);
    }
  }

  /** A SHOW of three rows under a forced limit of one row, which is also the configured
      maximum: two rows are returned. */
  lemma ShowExceeds(cfg: Config, env: Env)
    requires cfg.limitMethod.FORCE_LIMIT? && cfg.sqlMaxRow == 1
    requires env.block(0).answer == Rows([10, 20, 30])
    ensures var show := Statement(0, false, false, NoClause);
            ResultRows([show], false, Some(1), false, cfg, env) == [10, 20]
  {
    var show := Statement(0, false, false, NoClause);
    LastStatementRun([show], Some(1), false, cfg, env);
    assert FetchedOf([10, 20, 30], show, Some(1), false, cfg) == [10, 20, 30];
  }

  function BlockCount(script: seq<Statement>, cfg: Config): nat {
    if cfg.runAsOne then 1 else |script|
  }

  /** How the run over the blocks ends, if it gets that far. */
  function EndingOf(script: seq<Statement>, cfg: Config, env: Env): Ending {
    RunFrom(env.block, BlockCount(script, cfg), 0)
  }

  /** The script as accepted and all its blocks executed. */
  predicate Completed(script: seq<Statement>, cta: bool, m: CtasMethod, cfg: Config, env: Env) {
    Rejection(script, cta, m, cfg, env).None? && EndingOf(script, cfg, env).Finished?
  }

  predicate NeedsCommit(script: seq<Statement>, cta: bool) {
    HasMutation(script) || cta
  }

  /** Whether a run of `n` blocks gets past the last one and its commit with a result. */
  predicate HasResult(n: nat, mutates: bool, env: Env) {
    RunFrom(env.block, n, 0).Finished? && !(mutates && env.commitFails) && n > 0 && !env.resultFails
  }

  /** Why a result is not accepted, if so. */
  function StorageFailure(cfg: Config, env: Env, returnResults: bool, storeResults: bool): Option<Error> {
    if storeResults && cfg.hasBackend && StoreFailure(env, returnResults).Some? then StoreFailure(env, returnResults)
    else if returnResults && !env.returned.Fits? then Some(SizeError(env.returned))
    else None
  }

  function StoreFailure(env: Env, returnResults: bool): Option<Error> {
    if !env.stored.Fits? then Some(SizeError(env.stored))
    else if env.write.Raised? then Some(WriteFailed)
    else if env.write.Refused? && !returnResults then Some(ResultsBackendError)
    else None
  }

  function SizeError(s: Serialized): Error {
    if s.TooLarge? then ResultTooLarge else SerializationFailed
  }

  predicate RunSucceeds(n: nat, mutates: bool, cfg: Config, env: Env, returnResults: bool, storeResults: bool) {
    HasResult(n, mutates, env) && StorageFailure(cfg, env, returnResults, storeResults).None?
  }

  predicate RunStores(n: nat, mutates: bool, cfg: Config, env: Env, storeResults: bool) {
    HasResult(n, mutates, env) && storeResults && cfg.hasBackend && env.stored.Fits? && env.write.Written?
  }

  predicate Succeeds(script: seq<Statement>, cta: bool, m: CtasMethod, cfg: Config, env: Env,
                     returnResults: bool, storeResults: bool)
  {
    && Rejection(script, cta, m, cfg, env).None?
    && RunSucceeds(BlockCount(script, cfg), NeedsCommit(script, cta), cfg, env, returnResults, storeResults)
  }

  /** Whether the payload of a run reaches the results backend. */
  predicate Stores(script: seq<Statement>, cta: bool, m: CtasMethod, cfg: Config, env: Env, storeResults: bool) {
    && Rejection(script, cta, m, cfg, env).None?
    && RunStores(BlockCount(script, cfg), NeedsCommit(script, cta), cfg, env, storeResults)
  }

  /** A run is refused exactly if there is no backend for a database that may run
      asynchronously, preparing it raises, it mutates data where that is not allowed, its last
      statement, or for a view its only one, is no SELECT to create from, or there is no
      connection. */
  lemma RefusedIff(script: seq<Statement>, cta: bool, m: CtasMethod, cfg: Config, env: Env)
    ensures Rejection(script, cta, m, cfg, env).Some? <==>
            || (cfg.allowRunAsync && !cfg.hasBackend) || env.preparationFails || env.connectionFails
            || (!cfg.allowDml && exists i :: 0 <= i < |script| && script[i].mutating)
            || (cta && (script == [] || !script[|script| - 1].select || (m.VIEW? && |script| != 1)))
  {
  }

  /** A run succeeds exactly if it is not refused, no stop shows, every block succeeds, there
      is one, what has to be committed is, the result can be turned into a payload, and the
      payload is stored where it has to be and fit to be returned where it is. */
  lemma SucceedsIff(script: seq<Statement>, cta: bool, m: CtasMethod, cfg: Config, env: Env,
                    returnResults: bool, storeResults: bool)
    ensures Succeeds(script, cta, m, cfg, env, returnResults, storeResults) <==>
            && Rejection(script, cta, m, cfg, env).None?
            && (forall k :: 0 <= k < (if cfg.runAsOne then 1 else |script|) ==>
                            !env.block(k).stopped && env.block(k).answer.Rows?)
            && (cfg.runAsOne || script != [])
            && (cta || (exists i :: 0 <= i < |script| && script[i].mutating) ==> !env.commitFails)
            && !env.resultFails
            && (storeResults && cfg.hasBackend ==>
                  env.stored.Fits? && !env.write.Raised? && (env.write.Refused? ==> returnResults))
            && (returnResults ==> env.returned.Fits?)
  {
    EndingMeans(env.block, BlockCount(script, cfg), 0);
  }

  /** A payload is stored exactly if the run has a result that is to be stored, there is a
      backend, the payload fits and the write succeeds. */
  lemma StoresIff(script: seq<Statement>, cta: bool, m: CtasMethod, cfg: Config, env: Env, storeResults: bool)
    ensures Stores(script, cta, m, cfg, env, storeResults) <==>
            && Rejection(script, cta, m, cfg, env).None?
            && (forall k :: 0 <= k < (if cfg.runAsOne then 1 else |script|) ==>
                            !env.block(k).stopped && env.block(k).answer.Rows?)
            && (cfg.runAsOne || script != [])
            && (cta || (exists i :: 0 <= i < |script| && script[i].mutating) ==> !env.commitFails)
            && !env.resultFails && storeResults && cfg.hasBackend && env.stored.Fits? && env.write.Written?
  {
    EndingMeans(env.block, BlockCount(script, cfg), 0);
  }

  /** All blocks of an accepted script succeed exactly if no stop shows and no block fails. */
  lemma CompletedIff(script: seq<Statement>, cta: bool, m: CtasMethod, cfg: Config, env: Env)
    ensures Completed(script, cta, m, cfg, env) <==>
            Rejection(script, cta, m, cfg, env).None? &&
            forall k :: 0 <= k < (if cfg.runAsOne then 1 else |script|) ==>
                        !env.block(k).stopped && env.block(k).answer.Rows?
  {
    EndingMeans(env.block, BlockCount(script, cfg), 0);
  }

  /** Storing the payload of a successful run. */
  method StoreResults(query: Query, backend: ResultsBackend, payload: Payload, env: Env, returnResults: bool)
    returns (r: Result<Payload>)
    requires query.status == RUNNING
    modifies query`status, query`resultsKey, query`hasError, backend`store
    ensures r.Err? <==> StoreFailure(env, returnResults).Some?
    ensures r.Err? ==> r.error == if env.stored.TooLarge? then ResultTooLarge
                                  else if env.stored.Unserializable? then SerializationFailed
                                  else if env.write.Raised? then WriteFailed else ResultsBackendError
    ensures r.Ok? ==> query.status == RUNNING && r.value == payload.(resultsKey := Some(env.key))
    ensures if env.stored.Fits? && env.write.Written?
            then query.resultsKey == Some(env.key) &&
                 backend.store == old(backend.store)[env.key := payload.(resultsKey := Some(env.key))]
            else backend.store == old(backend.store) &&
                 query.resultsKey == if env.stored.Fits? && env.write.Refused? then None else old(query.resultsKey)
  {
    var stored := payload.(resultsKey := Some(env.key));
    if !env.stored.Fits? {
      return Err(SizeError(env.stored));
    }
    match env.write {
      case Raised =>
        return Err(WriteFailed);
      case Refused =>
        query.resultsKey := None;
        if !returnResults {
          query.status := FAILED;
          query.hasError := true;
          return Err(ResultsBackendError);
        }
      case Written =>
        backend.store := backend.store[env.key := stored];
        query.resultsKey := Some(env.key);
    }
    r := Ok(stored);
  }

  /** Wrapping the last statement of a CTAS and limiting every statement. */
  method PrepareBlocks(query: Query, script: seq<Statement>, cfg: Config) returns (blocks: seq<Block>)
    requires query.selectAsCta ==> script != []
    modifies query`limit, query`tmpTableName, query`selectAsCtaUsed
    ensures blocks == RunBlocksOf(script, query.selectAsCta, old(query.limit), old(query.selectAsCtaUsed), cfg)
    ensures |blocks| == (if cfg.runAsOne then 1 else |script|)
    ensures IsSent(blocks, script, query.selectAsCta, cfg.runAsOne)
    ensures query.tmpTableName == if query.selectAsCta && old(query.tmpTableName).None? then Some("tmp")
                                  else old(query.tmpTableName)
    ensures query.selectAsCtaUsed == (old(query.selectAsCtaUsed) || query.selectAsCta)
    ensures query.limit == LimitOf(script, query.selectAsCta, old(query.limit), old(query.selectAsCtaUsed), cfg)
  {
    var statements := script;
    if query.selectAsCta {
      if query.tmpTableName.None? {
        query.tmpTableName := Some("tmp");
      }
      var last := |script| - 1;
      statements := statements[last := Create(statements[last])];
      query.selectAsCtaUsed := true;
    }
    var texts := ApplyLimits(query, statements, cfg);
    blocks := Blocks(texts, cfg.runAsOne);
    RunBlocksAre(script, query.selectAsCta, old(query.limit), old(query.selectAsCtaUsed), cfg);
  }

  /** The checks before a run: the query is set running after the first one. */
  method Admit(query: Query, script: seq<Statement>, cfg: Config, env: Env) returns (error: Option<Error>)
    modifies query`status
    ensures error == Objection(script, query.selectAsCta, query.ctasMethod, cfg, env)
    ensures query.status == if error == Some(BackendNotConfigured) then old(query.status) else RUNNING
  {
    if cfg.allowRunAsync && !cfg.hasBackend {
      return Some(BackendNotConfigured);
    }
    query.status := RUNNING;
    if env.preparationFails {
      return Some(PreparationFailed);
    }
    if HasMutation(script) && !cfg.allowDml {
      return Some(DmlNotAllowed);
    }
    if query.selectAsCta {
      if query.ctasMethod.TABLE? {
        if script == [] {
          return Some(EmptyScript);
        }
        if !script[|script| - 1].select {
          return Some(InvalidCtas);
        }
      }
      if query.ctasMethod.VIEW? && !(|script| == 1 && script[0].select) {
        return Some(InvalidCvas);
      }
    }
    error := None;
  }

  /** What follows the last block: commit, store, mark as successful, return. */
  method Finish(query: Query, conn: Connection, backend: ResultsBackend, resultSet: Option<seq<Row>>, mutates: bool,
                cfg: Config, env: Env, returnResults: bool, storeResults: bool)
    returns (r: Result<Option<Payload>>)
    requires query.status == RUNNING
    modifies query`status, query`resultsKey, query`hasError, conn`commits, backend`store
    ensures conn.commits == old(conn.commits) + if mutates && !env.commitFails then 1 else 0
    ensures r.Ok? <==> !(mutates && env.commitFails) && resultSet.Some? && !env.resultFails &&
                       StorageFailure(cfg, env, returnResults, storeResults).None?
    ensures r.Ok? ==> query.status == SUCCESS && r.value.Some? == returnResults
    ensures r.Ok? && returnResults ==>
              r.value.value == Payload(SUCCESS, resultSet.value,
                                       if storeResults && cfg.hasBackend then Some(env.key) else None)
    ensures if !(mutates && env.commitFails) && resultSet.Some? && !env.resultFails && storeResults &&
               cfg.hasBackend && env.stored.Fits? && env.write.Written?
            then query.resultsKey == Some(env.key) &&
                 backend.store == old(backend.store)[env.key := Payload(SUCCESS, resultSet.value, Some(env.key))]
            else backend.store == old(backend.store) &&
                 (query.resultsKey == old(query.resultsKey) || query.resultsKey == None)
  {
    if mutates {
      if env.commitFails {
        return Err(CommitFailed);
      }
      conn.commits := conn.commits + 1;
    }
    if resultSet.None? {
      return Err(NoResultSet);
    }
    if env.resultFails {
      return Err(ResultFailed);
    }
    var payload := Payload(SUCCESS, resultSet.value, None);
    if storeResults && cfg.hasBackend {
      var stored := StoreResults(query, backend, payload, env, returnResults);
      if stored.Err? {
        return Err(stored.error);
      }
      payload := stored.value;
    }
    if !query.status.FAILED? {
      query.status := SUCCESS;
    }
    if returnResults {
      if !env.returned.Fits? {
        return Err(SizeError(env.returned));
      }
      return Ok(Some(payload));
    }
    r := Ok(None);
  }

  /** The prepared blocks: executed over the connection, then finished. */
  method ExecuteBlocks(query: Query, conn: Connection, backend: ResultsBackend, blocks: seq<Block>, mutates: bool,
                       cfg: Config, env: Env, returnResults: bool, storeResults: bool)
    returns (r: Result<Option<Payload>>)
    requires query.status == RUNNING
    modifies query`status, query`limitingFactor, query`hasError, query`tmpTableName, query`resultsKey
    modifies conn, backend
    ensures var e := RunFrom(env.block, |blocks|, 0);
            && Ran(e, |blocks|) <= |blocks| && conn.executed == old(conn.executed) + blocks[..Ran(e, |blocks|)]
            && (e.StoppedBefore? || e.StoppedDuring? ==> r.Ok? && query.status == STOPPED)
            && (e.Broken? ==> r.Ok? && query.status == FAILED)
            && conn.commits == old(conn.commits) + (if e.Finished? && mutates && !env.commitFails then 1 else 0)
            && (e.Finished? ==> query.limitingFactor == FactorAfter(env.block, blocks, |blocks|, query.limit,
                                                                    cfg.limitMethod, old(query.limitingFactor)))
    ensures RunFrom(env.block, |blocks|, 0).Finished? ==>
              if RunSucceeds(|blocks|, mutates, cfg, env, returnResults, storeResults)
              then r.Ok? && query.status == SUCCESS && r.value.Some? == returnResults else r.Err?
    ensures r.Ok? && r.value.Some? && query.status == SUCCESS ==>
              r.value.value == Payload(SUCCESS, LastRows(env.block, blocks, query.limit, cfg.limitMethod),
                                       if storeResults && cfg.hasBackend then Some(env.key) else None)
    ensures RunStores(|blocks|, mutates, cfg, env, storeResults) ==>
              var data := LastRows(env.block, blocks, query.limit, cfg.limitMethod);
              && query.resultsKey == Some(env.key)
              && backend.store == old(backend.store)[env.key := Payload(SUCCESS, data, Some(env.key))]
    ensures !RunStores(|blocks|, mutates, cfg, env, storeResults) ==>
              backend.store == old(backend.store) &&
              (query.resultsKey == old(query.resultsKey) || query.resultsKey == None)
  {
    var e, resultSet := RunBlocks(query, conn, blocks, env.block, cfg.limitMethod);
    if !e.Finished? {
      return Ok(Some(Payload(query.status, [], None)));
    }
    r := Finish(query, conn, backend, resultSet, mutates, cfg, env, returnResults, storeResults);
  }

  /** The body of `execute_sql_statements`. */
  method RunScript(query: Query, conn: Connection, backend: ResultsBackend, script: seq<Statement>,
                   cfg: Config, env: Env, returnResults: bool, storeResults: bool)
    returns (r: Result<Option<Payload>>)
    modifies query, conn, backend
    ensures Rejection(script, query.selectAsCta, query.ctasMethod, cfg, env).Some? ==>
              r.Err? && conn.executed == old(conn.executed) && conn.commits == old(conn.commits)
    ensures Rejection(script, query.selectAsCta, query.ctasMethod, cfg, env).None? ==>
              var e := EndingOf(script, cfg, env);
              var blocks := RunBlocksOf(script, query.selectAsCta, old(query.limit), old(query.selectAsCtaUsed), cfg);
              && Ran(e, |blocks|) <= |blocks| && conn.executed == old(conn.executed) + blocks[..Ran(e, |blocks|)]
              && (e.StoppedBefore? || e.StoppedDuring? ==> r.Ok? && query.status == STOPPED)
              && (e.Broken? ==> r.Ok? && query.status == FAILED)
    ensures conn.commits == old(conn.commits) +
              if Completed(script, query.selectAsCta, query.ctasMethod, cfg, env) &&
                 NeedsCommit(script, query.selectAsCta) && !env.commitFails then 1 else 0
    ensures Completed(script, query.selectAsCta, query.ctasMethod, cfg, env) ==>
              if Succeeds(script, query.selectAsCta, query.ctasMethod, cfg, env, returnResults, storeResults)
              then r.Ok? && query.status == SUCCESS && r.value.Some? == returnResults else r.Err?
    ensures r.Ok? && r.value.Some? && query.status == SUCCESS ==>
              r.value.value == Payload(SUCCESS, ResultRows(script, query.selectAsCta, old(query.limit),
                                                           old(query.selectAsCtaUsed), cfg, env),
                                       if storeResults && cfg.hasBackend then Some(env.key) else None)
    ensures Stores(script, query.selectAsCta, query.ctasMethod, cfg, env, storeResults) ==>
              var data := ResultRows(script, query.selectAsCta, old(query.limit), old(query.selectAsCtaUsed), cfg, env);
              && query.resultsKey == Some(env.key)
              && backend.store == old(backend.store)[env.key := Payload(SUCCESS, data, Some(env.key))]
    ensures !Stores(script, query.selectAsCta, query.ctasMethod, cfg, env, storeResults) ==>
              backend.store == old(backend.store) &&
              (query.resultsKey == old(query.resultsKey) || query.resultsKey == None)
    ensures Completed(script, query.selectAsCta, query.ctasMethod, cfg, env) ==>
              && query.limit == LimitOf(script, query.selectAsCta, old(query.limit), old(query.selectAsCtaUsed), cfg)
              && query.limitingFactor == if NotLimitedRun(script, query.selectAsCta, old(query.limit),
                                                          old(query.selectAsCtaUsed), cfg, env) then NOT_LIMITED
                                         else old(query.limitingFactor)
  {
    var objection := Admit(query, script, cfg, env);
    if objection.Some? {
      return Err(objection.value);
    }
    var blocks := PrepareBlocks(query, script, cfg);
    if env.connectionFails {
      return Err(ConnectionFailed);
    }
    var mutates := HasMutation(script) || query.selectAsCta;
    assert |blocks| == BlockCount(script, cfg) && mutates == NeedsCommit(script, query.selectAsCta);
    r := ExecuteBlocks(query, conn, backend, blocks, mutates, cfg, env, returnResults, storeResults);
  }

  /** Whatever a run sends is a beginning of the script. */
  lemma RanPart(before: seq<Block>, script: seq<Statement>, cta: bool, m: CtasMethod, limit: Option<nat>, ctaUsed: bool,
                cfg: Config, env: Env)
    ensures Sends(before, before, script, cta, cfg.runAsOne)
    ensures var blocks, n := RunBlocksOf(script, cta, limit, ctaUsed, cfg), BlockCount(script, cfg);
            var ran := Ran(EndingOf(script, cfg, env), n);
            |blocks| == n && ran <= n && Sends(before, before + blocks[..ran], script, cta, cfg.runAsOne)
  {
    RunBlocksAre(script, cta, limit, ctaUsed, cfg);
    RanSome(env.block, BlockCount(script, cfg));
    SendsNothing(before, script, cta, cfg.runAsOne);
    SentPart(before, script, cta, limit, ctaUsed, cfg, Ran(EndingOf(script, cfg, env), BlockCount(script, cfg)));
  }

  /** `execute_sql_statements`. An `Err` is an exception that leaves the function. */
  method ExecuteSqlStatements(query: Query, conn: Connection, backend: ResultsBackend, script: seq<Statement>,
                              cfg: Config, env: Env, returnResults: bool, storeResults: bool)
    returns (r: Result<Option<Payload>>)
    modifies query, conn, backend
    ensures Rejection(script, query.selectAsCta, query.ctasMethod, cfg, env).Some? ==>
              r.Err? && conn.executed == old(conn.executed) && conn.commits == old(conn.commits)
    ensures Rejection(script, query.selectAsCta, query.ctasMethod, cfg, env).None? ==>
              var e := EndingOf(script, cfg, env);
              var blocks := RunBlocksOf(script, query.selectAsCta, old(query.limit), old(query.selectAsCtaUsed), cfg);
              && Ran(e, |blocks|) <= |blocks| && conn.executed == old(conn.executed) + blocks[..Ran(e, |blocks|)]
              && (e.StoppedBefore? || e.StoppedDuring? ==> r.Ok? && query.status == STOPPED)
              && (e.Broken? ==> r.Ok? && query.status == FAILED)
    ensures Sends(old(conn.executed), conn.executed, script, query.selectAsCta, cfg.runAsOne)
    ensures conn.commits == old(conn.commits) +
              if Completed(script, query.selectAsCta, query.ctasMethod, cfg, env) &&
                 NeedsCommit(script, query.selectAsCta) && !env.commitFails then 1 else 0
    ensures Completed(script, query.selectAsCta, query.ctasMethod, cfg, env) ==>
              if Succeeds(script, query.selectAsCta, query.ctasMethod, cfg, env, returnResults, storeResults)
              then r.Ok? && query.status == SUCCESS && r.value.Some? == returnResults else r.Err?
    ensures r.Ok? && r.value.Some? && query.status == SUCCESS ==>
              r.value.value == Payload(SUCCESS, ResultRows(script, query.selectAsCta, old(query.limit),
                                                           old(query.selectAsCtaUsed), cfg, env),
                                       if storeResults && cfg.hasBackend then Some(env.key) else None)
    ensures Stores(script, query.selectAsCta, query.ctasMethod, cfg, env, storeResults) ==>
              var data := ResultRows(script, query.selectAsCta, old(query.limit), old(query.selectAsCtaUsed), cfg, env);
              && query.resultsKey == Some(env.key)
              && backend.store == old(backend.store)[env.key := Payload(SUCCESS, data, Some(env.key))]
    ensures !Stores(script, query.selectAsCta, query.ctasMethod, cfg, env, storeResults) ==>
              backend.store == old(backend.store) &&
              (query.resultsKey == old(query.resultsKey) || query.resultsKey == None)
    ensures Completed(script, query.selectAsCta, query.ctasMethod, cfg, env) ==>
              && query.limit == LimitOf(script, query.selectAsCta, old(query.limit), old(query.selectAsCtaUsed), cfg)
              && query.limitingFactor == if NotLimitedRun(script, query.selectAsCta, old(query.limit),
                                                          old(query.selectAsCtaUsed), cfg, env) then NOT_LIMITED
                                         else old(query.limitingFactor)
  {
    ghost var sent, limit, ctaUsed := conn.executed, query.limit, query.selectAsCtaUsed;
    r := RunScript(query, conn, backend, script, cfg, env, returnResults, storeResults);
    RanPart(sent, script, query.selectAsCta, query.ctasMethod, limit, ctaUsed, cfg, env);
  }

  /** `get_sql_results`: whatever leaves the run as an exception is recorded on the query, so
      it never stays running. It ends stopped, successful or failed exactly as the run did;
      a results key it ends with names the stored payload, and a run that only stores its
      results and is successful has such a key. */
  method GetSqlResults(query: Query, conn: Connection, backend: ResultsBackend, script: seq<Statement>,
                       cfg: Config, env: Env, returnResults: bool, storeResults: bool)
    returns (r: Option<Payload>)
    modifies query, conn, backend
    ensures query.status == STOPPED || query.status == SUCCESS || query.status == FAILED
    ensures query.status == SUCCESS <==>
            Succeeds(script, query.selectAsCta, query.ctasMethod, cfg, env, returnResults, storeResults)
    ensures query.status == STOPPED <==>
            Rejection(script, query.selectAsCta, query.ctasMethod, cfg, env).None? &&
            (EndingOf(script, cfg, env).StoppedBefore? || EndingOf(script, cfg, env).StoppedDuring?)
    ensures var blocks := RunBlocksOf(script, query.selectAsCta, old(query.limit), old(query.selectAsCtaUsed), cfg);
            var ran := if Rejection(script, query.selectAsCta, query.ctasMethod, cfg, env).Some? then 0
                       else Ran(EndingOf(script, cfg, env), |blocks|);
            ran <= |blocks| && conn.executed == old(conn.executed) + blocks[..ran]
    ensures Sends(old(conn.executed), conn.executed, script, query.selectAsCta, cfg.runAsOne)
    ensures (exists i :: 0 <= i < |script| && script[i].mutating) && !cfg.allowDml ==>
              conn.executed == old(conn.executed) && conn.commits == old(conn.commits) && query.status == FAILED
    ensures conn.commits == old(conn.commits) +
              if Completed(script, query.selectAsCta, query.ctasMethod, cfg, env) && !env.commitFails &&
                 (query.selectAsCta || exists i :: 0 <= i < |script| && script[i].mutating) then 1 else 0
    ensures query.status == SUCCESS ==>
              var data := ResultRows(script, query.selectAsCta, old(query.limit), old(query.selectAsCtaUsed), cfg, env);
              && r == (if !returnResults then None
                       else Some(Payload(SUCCESS, data,
                                         if storeResults && cfg.hasBackend then Some(env.key) else None)))
              && query.limitingFactor == if NotLimitedRun(script, query.selectAsCta, old(query.limit),
                                                          old(query.selectAsCtaUsed), cfg, env) then NOT_LIMITED
                                         else old(query.limitingFactor)
    ensures old(query.resultsKey) == None && query.resultsKey.Some? ==>
              var data := ResultRows(script, query.selectAsCta, old(query.limit), old(query.selectAsCtaUsed), cfg, env);
              query.resultsKey.value in backend.store &&
              backend.store[query.resultsKey.value] == Payload(SUCCESS, data, query.resultsKey)
    ensures storeResults && cfg.hasBackend && !returnResults && query.status == SUCCESS ==> query.resultsKey.Some?
  {
    var result := ExecuteSqlStatements(query, conn, backend, script, cfg, env, returnResults, storeResults);
    if result.Err? {
      var payload := HandleQueryError(query);
      return Some(payload);
    }
    r := result.value;
  }
}
