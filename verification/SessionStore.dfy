/** The SQLite session store (engine/src/db/sqlite.rs, engine/src/db/migrations.rs) as a refinement of the
    in-memory one (engine/src/db/repositories.rs). Tables are maps from primary keys to rows. */
module SessionStore {
  import opened Basics
  import opened Json
  import opened JsonText

  // ---------------------------------------------------------------------------
  // Records
  // ---------------------------------------------------------------------------

  datatype ExecutionStatus = ExecCompleted | ExecFailed | ExecTimeout | ExecInterrupted

  datatype SessionStatus = Running | Completed | Failed | Timeout | Interrupted

  /** State, trace and transcript stand for their serialised forms. */
  datatype ExecutionResult = ExecutionResult(
    status: ExecutionStatus,
    state: Json,
    trace: Json,
    transcript: Json,
    error: Option<string>,
    interruptNode: Option<string>,
    interruptInfo: Option<Json>)

  datatype SessionRecord = SessionRecord(
    id: string,
    agentId: string,
    agentName: string,
    graphId: string,
    result: ExecutionResult,
    createdAt: real,
    finishedAt: Option<real>,
    durationMs: Option<real>,
    status: SessionStatus)

  function FromExecution(s: ExecutionStatus): SessionStatus {
    match s
    case ExecCompleted => Completed
    case ExecFailed => Failed
    case ExecTimeout => Timeout
    case ExecInterrupted => Interrupted
  }

  function ToExecution(s: SessionStatus): ExecutionStatus {
    match s
    case Completed => ExecCompleted
    case Failed => ExecFailed
    case Timeout => ExecTimeout
    case Interrupted => ExecInterrupted
    case Running => ExecInterrupted
  }

  /** `Display`, the text stored in the status column. */
  function Show(s: SessionStatus): string {
    match s
    case Running => "running"
    case Completed => "completed"
    case Failed => "failed"
    case Timeout => "timeout"
    case Interrupted => "interrupted"
  }

  function ParseStatus(text: string): SessionStatus {
    if text == "completed" then Completed
    else if text == "failed" then Failed
    else if text == "timeout" then Timeout
    else if text == "interrupted" then Interrupted
    else Running
  }

  /** A status survives the text column; it survives becoming an execution status exactly if it is not `Running`. */
  lemma StatusRoundTrips(s: SessionStatus, e: ExecutionStatus)
    ensures ParseStatus(Show(s)) == s
    ensures ToExecution(FromExecution(e)) == e
    ensures FromExecution(ToExecution(s)) == s <==> s != Running
    ensures ToExecution(Running) == ExecInterrupted
  {
    assert |Show(Running)| == 7 && |Show(Completed)| == 9 && |Show(Failed)| == 6 && |Show(Interrupted)| == 11;
    assert Show(Running)[0] == 'r' && Show(Timeout)[0] == 't';
  }

  /** The names in the status column; any other text is read as running. */
  lemma StatusNames(text: string)
    ensures Show(Running) == "running" && Show(Completed) == "completed" && Show(Failed) == "failed"
    ensures Show(Timeout) == "timeout" && Show(Interrupted) == "interrupted"
    ensures text !in {"completed", "failed", "timeout", "interrupted"} ==> ParseStatus(text) == Running
  {}

  // ---------------------------------------------------------------------------
  // Tables and statements
  // ---------------------------------------------------------------------------

  datatype DbError = ForeignKeyViolation | SerializationError

  datatype GraphRow = GraphRow(name: string, createdAt: real, updatedAt: real)

  datatype AgentRow = AgentRow(name: string, graphId: string, createdAt: real, updatedAt: real)

  datatype SessionRow = SessionRow(
    agentId: string,
    agentName: string,
    graphId: string,
    status: string,
    trace: string,
    transcript: string,
    state: string,
    error: Option<string>,
    startedAt: real,
    finishedAt: Option<real>,
    durationMs: Option<real>)

  datatype Tables = Tables(graphs: map<string, GraphRow>, agents: map<string, AgentRow>, sessions: map<string, SessionRow>)

  /** INSERT OR IGNORE INTO graphs. */
  function InsertGraph(t: Tables, id: string, row: GraphRow): Tables {
    if id in t.graphs then t else t.(graphs := t.graphs[id := row])
  }

  /** INSERT OR IGNORE INTO agents: an existing key is passed over, a missing graph is still an error. */
  function InsertAgent(t: Tables, id: string, row: AgentRow): Result<Tables, DbError> {
    if id in t.agents then Ok(t)
    else if row.graphId !in t.graphs then Err(ForeignKeyViolation)
    else Ok(t.(agents := t.agents[id := row]))
  }

  /** INSERT OR REPLACE INTO sessions. */
  function ReplaceSession(t: Tables, id: string, row: SessionRow): Result<Tables, DbError> {
    if row.agentId !in t.agents then Err(ForeignKeyViolation) else Ok(t.(sessions := t.sessions[id := row]))
  }

  /** Every reference in the tables points to a row, and sessions name graphs that exist. */
  ghost predicate Referential(t: Tables) {
    && (forall id :: id in t.agents ==> t.agents[id].graphId in t.graphs)
    && (forall id :: id in t.sessions ==> t.sessions[id].agentId in t.agents && t.sessions[id].graphId in t.graphs)
  }

  // ---------------------------------------------------------------------------
  // Saving, reading and deleting
  // ---------------------------------------------------------------------------

  /** The graph a record is stored under. */
  function StoredGraphId(rec: SessionRecord): string {
    if rec.graphId == "" then "graph-" + rec.agentId else rec.graphId
  }

  function ToRow(codec: Codec, rec: SessionRecord): SessionRow {
    SessionRow(rec.agentId, rec.agentName, StoredGraphId(rec), Show(rec.status), codec.render(rec.result.trace),
               codec.render(rec.result.transcript), codec.render(rec.result.state), rec.result.error,
               rec.createdAt, rec.finishedAt, rec.durationMs)
  }

  /** `row_to_record`. */
  function FromRow(codec: Codec, id: string, row: SessionRow): Result<SessionRecord, DbError> {
    var status := ParseStatus(row.status);
    var state, trace, transcript := codec.parse(row.state), codec.parse(row.trace), codec.parse(row.transcript);
    if state == None || trace == None || transcript == None then Err(SerializationError)
    else
      Ok(SessionRecord(id, row.agentId, row.agentName, row.graphId,
                       ExecutionResult(ToExecution(status), state.value, trace.value, transcript.value, row.error, None, None),
                       row.startedAt, row.finishedAt, row.durationMs, status))
  }

  /** The three statements of `save`, stopping at the first error. */
  function SaveIn(codec: Codec, t: Tables, rec: SessionRecord, now: real): Result<Tables, DbError> {
    var graphId := StoredGraphId(rec);
    match InsertAgent(InsertGraph(t, graphId, GraphRow(graphId, now, now)), rec.agentId, AgentRow(rec.agentName, graphId, now, now))
    case Err(e) => Err(e)
    case Ok(t') => ReplaceSession(t', rec.id, ToRow(codec, rec))
  }

  function GetIn(codec: Codec, t: Tables, id: string): Result<Option<SessionRecord>, DbError> {
    if id !in t.sessions then Ok(None)
    else Found(FromRow(codec, id, t.sessions[id]))
  }

  function Found(r: Result<SessionRecord, DbError>): Result<Option<SessionRecord>, DbError> {
    match r
    case Err(e) => Err(e)
    case Ok(rec) => Ok(Some(rec))
  }

  /** What a stored record is read back as: its graph id filled in, its result's status rebuilt from its own, and
      the interrupt fields, which have no column, gone. */
  function Normalised(rec: SessionRecord): SessionRecord {
    rec.(graphId := StoredGraphId(rec),
         result := rec.result.(status := ToExecution(rec.status), interruptNode := None, interruptInfo := None))
  }

  /** Reading is exact for precisely these records. */
  lemma NormalisedIsExactIff(rec: SessionRecord)
    ensures Normalised(rec) == rec
       <==> rec.graphId != "" && rec.result.status == ToExecution(rec.status)
            && rec.result.interruptNode == None && rec.result.interruptInfo == None
    ensures Normalised(Normalised(rec)) == Normalised(rec)
    ensures rec.status == FromExecution(rec.result.status) ==> Normalised(rec).result.status == rec.result.status
  {
    assert |"graph-" + rec.agentId| >= 6;
    StatusRoundTrips(rec.status, rec.result.status);
  }

  /** What becomes of a record that is saved and read, for any codec. */
  function Reread(codec: Codec, rec: SessionRecord): Result<SessionRecord, DbError> {
    var r := rec.result;
    match (codec.parse(codec.render(r.state)), codec.parse(codec.render(r.trace)), codec.parse(codec.render(r.transcript)))
    case (Some(state), Some(trace), Some(transcript)) =>
      Ok(Normalised(rec.(result := r.(state := state, trace := trace, transcript := transcript))))
    case _ => Err(SerializationError)
  }

  /** The serialised parts of the record survive the codec. */
  predicate Kept(codec: Codec, rec: SessionRecord) {
    Survives(codec, rec.result.state) && Survives(codec, rec.result.trace) && Survives(codec, rec.result.transcript)
  }

  /** A row reads back as the normalised record exactly if the record's serialised parts survive the codec. */
  lemma RowRoundTrip(codec: Codec, rec: SessionRecord)
    ensures FromRow(codec, rec.id, ToRow(codec, rec)) == Reread(codec, rec)
    ensures FromRow(codec, rec.id, ToRow(codec, rec)) == Ok(Normalised(rec)) <==> Kept(codec, rec)
  {
    StatusRoundTrips(rec.status, ExecCompleted);
  }

  // ---------------------------------------------------------------------------
  // Refinement over whole histories
  // ---------------------------------------------------------------------------

  datatype Op = Save(rec: SessionRecord, now: real) | Delete(id: string)

  type Store = map<string, SessionRecord>

  function DoInMemory(m: Store, op: Op): Store {
    match op
    case Save(rec, _) => m[rec.id := rec]
    case Delete(id) => m - {id}
  }

  function DoInTables(codec: Codec, t: Tables, op: Op): Result<Tables, DbError> {
    match op
    case Save(rec, now) => SaveIn(codec, t, rec, now)
    case Delete(id) => Ok(t.(sessions := t.sessions - {id}))
  }

  function InMemory(ops: seq<Op>): Store {
    if ops == [] then map[] else DoInMemory(InMemory(ops[..|ops| - 1]), ops[|ops| - 1])
  }

  function InTables(codec: Codec, ops: seq<Op>): Result<Tables, DbError> {
    if ops == [] then Ok(Tables(map[], map[], map[]))
    else
      match InTables(codec, ops[..|ops| - 1])
      case Err(e) => Err(e)
      case Ok(t) => DoInTables(codec, t, ops[|ops| - 1])
  }

  /** The tables hold what the map holds, as it reads back. */
  ghost predicate Represents(codec: Codec, t: Tables, m: Store) {
    Referential(t) && RowsMatch(codec, t.sessions, m)
  }

  ghost predicate RowsMatch(codec: Codec, sessions: map<string, SessionRow>, m: Store) {
    && (forall id :: id in sessions <==> id in m)
    && forall id :: id in m ==> m[id].id == id && FromRow(codec, id, sessions[id]) == Reread(codec, m[id])
  }

  lemma RowsMatchAfterSave(codec: Codec, sessions: map<string, SessionRow>, m: Store, rec: SessionRecord)
    requires RowsMatch(codec, sessions, m)
    ensures RowsMatch(codec, sessions[rec.id := ToRow(codec, rec)], m[rec.id := rec])
  {
    var row := ToRow(codec, rec);
    assert FromRow(codec, rec.id, row) == Reread(codec, rec) by { RowRoundTrip(codec, rec); }
  }

  /** A save puts the parent rows in place before the row that needs them. */
  lemma SaveKeepsReferences(codec: Codec, t: Tables, rec: SessionRecord, now: real)
    requires Referential(t)
    ensures SaveIn(codec, t, rec, now).Ok?
    ensures Referential(SaveIn(codec, t, rec, now).value)
    ensures SaveIn(codec, t, rec, now).value.sessions == t.sessions[rec.id := ToRow(codec, rec)]
  {}

  /** What a save leaves in the tables: a row for the session, column by column, and rows for its graph and its agent if
      there were none; every other row is as it was. */
  ghost predicate SavedRows(codec: Codec, rec: SessionRecord, now: real, t: Tables, t': Tables) {
    var graphId := if rec.graphId == "" then "graph-" + rec.agentId else rec.graphId;
    && rec.id in t'.sessions && t'.sessions - {rec.id} == t.sessions - {rec.id}
    && HoldsRecord(codec, rec, graphId, t'.sessions[rec.id])
    && t'.graphs == (if graphId in t.graphs then t.graphs else t.graphs[graphId := GraphRow(graphId, now, now)])
    && t'.agents == (if rec.agentId in t.agents then t.agents
                     else t.agents[rec.agentId := AgentRow(rec.agentName, graphId, now, now)])
  }

  ghost predicate HoldsRecord(codec: Codec, rec: SessionRecord, graphId: string, row: SessionRow) {
    && row.agentId == rec.agentId && row.agentName == rec.agentName && row.graphId == graphId
    && ParseStatus(row.status) == rec.status
    && row.trace == codec.render(rec.result.trace)
    && row.transcript == codec.render(rec.result.transcript)
    && row.state == codec.render(rec.result.state)
    && row.error == rec.result.error
    && row.startedAt == rec.createdAt && row.finishedAt == rec.finishedAt && row.durationMs == rec.durationMs
  }

  lemma SaveSavesRows(codec: Codec, t: Tables, rec: SessionRecord, now: real)
    requires Referential(t)
    ensures SaveIn(codec, t, rec, now).Ok? && SavedRows(codec, rec, now, t, SaveIn(codec, t, rec, now).value)
  {
    SaveKeepsReferences(codec, t, rec, now);
    StatusRoundTrips(rec.status, ExecCompleted);
  }

  /** No statement of a save can violate a foreign key, and the tables keep representing the map. */
  lemma SaveRefines(codec: Codec, t: Tables, m: Store, rec: SessionRecord, now: real)
    requires Represents(codec, t, m)
    ensures SaveIn(codec, t, rec, now).Ok?
    ensures Represents(codec, SaveIn(codec, t, rec, now).value, m[rec.id := rec])
  {
    SaveKeepsReferences(codec, t, rec, now);
    RowsMatchAfterSave(codec, t.sessions, m, rec);
  }

  /** After any history of saves and deletes both stores hold the same sessions, every row reads as the last record
      saved does, and every reference in the tables is satisfied. */
  lemma {:induction false} TablesRefineMap(codec: Codec, ops: seq<Op>)
    ensures InTables(codec, ops).Ok? && Represents(codec, InTables(codec, ops).value, InMemory(ops))
  {
    if ops != [] {
      var init, last := ops[..|ops| - 1], ops[|ops| - 1];
      TablesRefineMap(codec, init);
      if last.Save? {
        SaveRefines(codec, InTables(codec, init).value, InMemory(init), last.rec, last.now);
      }
    }
  }

  /** A read gives the last live record saved, as it reads back; that is the normalised record exactly if its
      serialised parts survive the codec. */
  lemma ReadsAgree(codec: Codec, ops: seq<Op>, id: string)
    ensures InTables(codec, ops).Ok?
    ensures id !in InMemory(ops) ==> GetIn(codec, InTables(codec, ops).value, id) == Ok(None)
    ensures id in InMemory(ops) ==>
      var rec := InMemory(ops)[id];
      && GetIn(codec, InTables(codec, ops).value, id) == Found(Reread(codec, rec))
      && (GetIn(codec, InTables(codec, ops).value, id) == Ok(Some(Normalised(rec))) <==> Kept(codec, rec))
  {
    TablesRefineMap(codec, ops);
    if id in InMemory(ops) {
      RowRoundTrip(codec, InMemory(ops)[id]);
    }
  }

  /** With a faithful codec, of which there are some, every read gives the normalised record. */
  lemma ReadsCanBeExact() returns (codec: Codec)
    ensures forall ops: seq<Op>, id: string :: id in InMemory(ops) ==>
      InTables(codec, ops).Ok? && GetIn(codec, InTables(codec, ops).value, id) == Ok(Some(Normalised(InMemory(ops)[id])))
  {
    FaithfulCodecExists();
    codec :| Faithful(codec);
    forall ops: seq<Op>, id: string | id in InMemory(ops)
      ensures InTables(codec, ops).Ok?
      ensures GetIn(codec, InTables(codec, ops).value, id) == Ok(Some(Normalised(InMemory(ops)[id])))
    {
      ReadsAgree(codec, ops, id);
      assert Survives(codec, InMemory(ops)[id].result.state) && Survives(codec, InMemory(ops)[id].result.trace)
          && Survives(codec, InMemory(ops)[id].result.transcript);
    }
  }

  // ---------------------------------------------------------------------------
  // The repositories
  // ---------------------------------------------------------------------------

  class InMemorySessionRepo {
    var store: Store

    constructor ()
      ensures store == map[]
    {
      store := map[];
    }

    method Save(item: SessionRecord)
      modifies this
      ensures store == old(store)[item.id := item]
    {
      store := store[item.id := item];
    }

    method Get(id: string) returns (r: Option<SessionRecord>)
      ensures r == if id in store then Some(store[id]) else None
    {
      r := if id in store then Some(store[id]) else None;
    }

    method Delete(id: string) returns (found: bool)
      modifies this
      ensures store == old(store) - {id}
      ensures found <==> id in old(store)
    {
      found := id in store;
      store := store - {id};
    }
  }

  class SqliteSessionRepo {
    const codec: Codec
    var graphs: map<string, GraphRow>
    var agents: map<string, AgentRow>
    var sessions: map<string, SessionRow>
    /** The operations performed so far. */
    ghost var history: seq<Op>

    function Contents(): Tables
      reads this
    {
      Tables(graphs, agents, sessions)
    }

    ghost predicate Valid()
      reads this
    {
      InTables(codec, history) == Ok(Contents())
    }

    /** `init`: the schema with empty tables. */
    constructor (codec: Codec)
      ensures Valid() && this.codec == codec && history == []
    {
      this.codec := codec;
      graphs, agents, sessions, history := map[], map[], map[], [];
    }

    /** `save`. */
    method Save(rec: SessionRecord, now: real) returns (r: Result<(), DbError>)
      requires Valid()
      modifies this
      ensures Valid() && r == Ok(()) && history == old(history) + [Op.Save(rec, now)]
      ensures SaveIn(codec, old(Contents()), rec, now) == Ok(Contents())
      ensures SavedRows(codec, rec, now, old(Contents()), Contents())
    {
      TablesRefineMap(codec, history);
      SaveSavesRows(codec, Contents(), rec, now);
      ghost var after := SaveIn(codec, Contents(), rec, now).value;
      ghost var before := Contents();
      var graphId := if rec.graphId == "" then "graph-" + rec.agentId else rec.graphId;
      if graphId !in graphs {
        graphs := graphs[graphId := GraphRow(graphId, now, now)];
      }
      if rec.agentId !in agents {
        if graphId !in graphs {
          return Err(ForeignKeyViolation);
        }
        agents := agents[rec.agentId := AgentRow(rec.agentName, graphId, now, now)];
      }
      if rec.agentId !in agents {
        return Err(ForeignKeyViolation);
      }
      sessions := sessions[rec.id := ToRow(codec, rec)];
      assert Contents() == after;
      history := history + [Op.Save(rec, now)];
      assert history[..|history| - 1] == old(history);
      return Ok(());
    }

    /** `get`. */
    method Get(id: string) returns (r: Result<Option<SessionRecord>, DbError>)
      requires Valid()
      ensures r == if id in InMemory(history) then Found(Reread(codec, InMemory(history)[id])) else Ok(None)
      ensures id in InMemory(history) && Kept(codec, InMemory(history)[id]) ==> r == Ok(Some(Normalised(InMemory(history)[id])))
    {
      ReadsAgree(codec, history, id);
      if id !in sessions {
        return Ok(None);
      }
      var row := FromRow(codec, id, sessions[id]);
      match row
      case Err(e) => return Err(e);
      case Ok(rec) => return Ok(Some(rec));
    }

    /** `delete`. */
    method Delete(id: string) returns (found: bool)
      requires Valid()
      modifies this
      ensures Valid() && history == old(history) + [Op.Delete(id)]
      ensures graphs == old(graphs) && agents == old(agents) && sessions == old(sessions) - {id}
      ensures found <==> id in InMemory(old(history))
    {
      TablesRefineMap(codec, history);
      found := id in sessions;
      sessions := sessions - {id};
      history := history + [Op.Delete(id)];
      assert history[..|history| - 1] == old(history);
    }
  }
}
