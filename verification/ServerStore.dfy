/**
 The server's metric tables. A batch is one transaction of plain INSERTs under
 UNIQUE(agent_id, task_name, period_start, period_end): it commits as a whole or not at all.
 */
module ServerStore {
  import opened Wrappers
  import opened AgentTables

  datatype ServerRow = ServerRow(agent: string, metric: Aggregate)

  datatype ServerTables = ServerTables(rows: map<nat, ServerRow>, lastId: nat)

  predicate HasKey(s: ServerTables, agent: string, key: Key) {
    exists i :: i in s.rows && s.rows[i].agent == agent && s.rows[i].metric.key == key
  }

  function Insert(s: ServerTables, row: ServerRow): ServerTables {
    ServerTables(s.rows[s.lastId + 1 := row], s.lastId + 1)
  }

  /** The tables after the transaction, or None when one INSERT hits the UNIQUE key. Unknown types are skipped. */
  function InsertAll(s: ServerTables, agent: string, metrics: seq<Aggregate>): Option<ServerTables>
    decreases |metrics|
  {
    if metrics == [] then Some(s)
    else if metrics[0].key.kind == Unknown then InsertAll(s, agent, metrics[1..])
    else if HasKey(s, agent, metrics[0].key) then None
    else InsertAll(Insert(s, ServerRow(agent, metrics[0])), agent, metrics[1..])
  }

  function CleanServer(s: ServerTables, cutoff: int): ServerTables {
    s.(rows := map i | i in s.rows && s.rows[i].metric.key.end >= cutoff :: s.rows[i])
  }

  ghost predicate ServerOk(s: ServerTables) {
    && (forall i | i in s.rows :: i <= s.lastId)
    && (forall i, j | i in s.rows && j in s.rows ::
          s.rows[i].agent == s.rows[j].agent && s.rows[i].metric.key == s.rows[j].metric.key ==> i == j)
  }

  /** The metrics of a batch that a transaction tries to insert. */
  predicate Known(metrics: seq<Aggregate>, k: nat) {
    k < |metrics| && metrics[k].key.kind != Unknown
  }

  ghost predicate NoClash(s: ServerTables, agent: string, metrics: seq<Aggregate>) {
    && (forall k | 0 <= k < |metrics| :: Known(metrics, k) ==> !HasKey(s, agent, metrics[k].key))
    && (forall j, k | 0 <= j < k < |metrics| ::
          Known(metrics, j) && Known(metrics, k) ==> metrics[j].key != metrics[k].key)
  }

  /** A transaction keeps the tables' invariant, keeps every row, and adds exactly the batch. */
  lemma {:induction false} CommittedBatch(s: ServerTables, agent: string, metrics: seq<Aggregate>)
    requires ServerOk(s) && InsertAll(s, agent, metrics).Some?
    decreases |metrics|
    ensures var s' := InsertAll(s, agent, metrics).value;
      && ServerOk(s') && s.lastId <= s'.lastId
      && (forall i | i in s.rows :: i in s'.rows && s'.rows[i] == s.rows[i])
      && (forall i | i in s'.rows && i !in s.rows ::
            s.lastId < i && s'.rows[i].agent == agent && s'.rows[i].metric in metrics && s'.rows[i].metric.key.kind != Unknown)
      && (forall k | 0 <= k < |metrics| :: Known(metrics, k) ==>
            exists i :: i in s'.rows && s'.rows[i] == ServerRow(agent, metrics[k]))
  {
    if metrics != [] {
      var rest := metrics[1..];
      var mid := if metrics[0].key.kind == Unknown then s else Insert(s, ServerRow(agent, metrics[0]));
      assert InsertAll(s, agent, metrics) == InsertAll(mid, agent, rest);
      CommittedBatch(mid, agent, rest);
      var s' := InsertAll(mid, agent, rest).value;
      forall k | 0 <= k < |metrics| && Known(metrics, k)
        ensures exists i :: i in s'.rows && s'.rows[i] == ServerRow(agent, metrics[k])
      {
        if k == 0 {
          assert s.lastId + 1 in mid.rows;
        } else {
          assert metrics[k] == rest[k - 1] && Known(rest, k - 1);
        }
      }
    }
  }

  lemma KeysAfterInsert(s: ServerTables, row: ServerRow)
    requires ServerOk(s)
    ensures forall agent, key ::
      HasKey(Insert(s, row), agent, key) <==> HasKey(s, agent, key) || (row.agent == agent && row.metric.key == key)
  {
    var s' := Insert(s, row);
    forall agent, key
      ensures HasKey(s', agent, key) <==> HasKey(s, agent, key) || (row.agent == agent && row.metric.key == key)
    {
      assert s'.rows[s.lastId + 1] == row;
      assert forall i | i in s.rows :: i in s'.rows && s'.rows[i] == s.rows[i];
    }
  }

  /**
   A batch commits exactly when none of its keys is on the server and no two of its metrics
   share a key: one clash rolls back the whole batch.
   */
  lemma {:induction false} CommitsIffNoClash(s: ServerTables, agent: string, metrics: seq<Aggregate>)
    requires ServerOk(s)
    ensures InsertAll(s, agent, metrics).Some? <==> NoClash(s, agent, metrics)
    decreases |metrics|
  {
    if metrics != [] {
      var rest := metrics[1..];
      assert forall k | 0 <= k < |rest| :: Known(rest, k) == Known(metrics, k + 1) && rest[k] == metrics[k + 1];
      if metrics[0].key.kind == Unknown {
        CommitsIffNoClash(s, agent, rest);
        assert !Known(metrics, 0);
        NoClashShift(s, s, agent, metrics);
      } else if HasKey(s, agent, metrics[0].key) {
        assert Known(metrics, 0);
      } else {
        var mid := Insert(s, ServerRow(agent, metrics[0]));
        KeysAfterInsert(s, ServerRow(agent, metrics[0]));
        CommitsIffNoClash(mid, agent, rest);
        NoClashShift(s, mid, agent, metrics);
      }
    }
  }

  lemma NoClashShift(s: ServerTables, mid: ServerTables, agent: string, metrics: seq<Aggregate>)
    requires ServerOk(s) && metrics != []
    requires if Known(metrics, 0) then mid == Insert(s, ServerRow(agent, metrics[0])) && !HasKey(s, agent, metrics[0].key)
             else mid == s
    ensures NoClash(s, agent, metrics) <==> NoClash(mid, agent, metrics[1..])
  {
    var rest := metrics[1..];
    KeysAfterInsert(s, ServerRow(agent, metrics[0]));
    if NoClash(s, agent, metrics) {
      forall k | 0 <= k < |rest| && Known(rest, k)
        ensures !HasKey(mid, agent, rest[k].key)
      {
        assert Known(metrics, k + 1) && metrics[k + 1] == rest[k];
      }
      forall j, k | 0 <= j < k < |rest| && Known(rest, j) && Known(rest, k)
        ensures rest[j].key != rest[k].key
      {
        assert Known(metrics, j + 1) && Known(metrics, k + 1);
      }
    }
    if NoClash(mid, agent, rest) {
      forall k | 0 <= k < |metrics| && Known(metrics, k)
        ensures !HasKey(s, agent, metrics[k].key)
      {
        if k > 0 { assert Known(rest, k - 1) && rest[k - 1] == metrics[k]; }
      }
      forall j, k | 0 <= j < k < |metrics| && Known(metrics, j) && Known(metrics, k)
        ensures metrics[j].key != metrics[k].key
      {
        assert Known(rest, k - 1) && rest[k - 1] == metrics[k];
        if j > 0 { assert Known(rest, j - 1) && rest[j - 1] == metrics[j]; }
      }
    }
  }

  datatype AgentInfo = AgentInfo(firstSeen: int, lastSeen: int, checksum: string, version: Option<string>, received: nat)

  datatype Reply = Success | DatabaseError

  class Database {
    var rows: map<nat, ServerRow>
    var lastId: nat
    var agents: map<string, AgentInfo>

    function Contents(): ServerTables
      reads this`rows, this`lastId
    {
      ServerTables(rows, lastId)
    }

    constructor ()
      ensures Contents() == ServerTables(map[], 0) && agents == map[]
    {
      rows, lastId, agents := map[], 0, map[];
    }

    /** Updates the agent's record, or registers it with a count of one. */
    method UpsertAgent(agent: string, checksum: string, version: Option<string>, now: int)
      modifies this`agents
      ensures agents.Keys == old(agents).Keys + {agent}
      ensures forall a | a in old(agents) && a != agent :: agents[a] == old(agents)[a]
      ensures agents[agent].lastSeen == now && agents[agent].checksum == checksum && agents[agent].version == version
      ensures agents[agent].firstSeen == if agent in old(agents) then old(agents)[agent].firstSeen else now
      ensures agents[agent].received == if agent in old(agents) then old(agents)[agent].received + 1 else 1
    {
      if agent in agents {
        agents := agents[agent := agents[agent].(lastSeen := now, checksum := checksum, version := version,
                                                 received := agents[agent].received + 1)];
      } else {
        agents := agents[agent := AgentInfo(now, now, checksum, version, 1)];
      }
    }

    /** One transaction; a failing INSERT drops it and leaves the tables as they were. */
    method StoreMetrics(agent: string, metrics: seq<Aggregate>) returns (ok: bool)
      requires ServerOk(Contents())
      modifies this`rows, this`lastId
      ensures ServerOk(Contents())
      ensures ok <==> NoClash(old(Contents()), agent, metrics)
      ensures match InsertAll(old(Contents()), agent, metrics)
        case Some(committed) => ok && Contents() == committed
        case None => !ok && Contents() == old(Contents())
    {
      var tx := Contents();
      CommitsIffNoClash(tx, agent, metrics);
      var i := 0;
      while i < |metrics|
        invariant 0 <= i <= |metrics|
        invariant Contents() == old(Contents())
        invariant InsertAll(Contents(), agent, metrics) == InsertAll(tx, agent, metrics[i..])
      {
        assert metrics[i..][1..] == metrics[i + 1..];
        if metrics[i].key.kind != Unknown {
          if HasKey(tx, agent, metrics[i].key) {
            return false;
          }
          tx := Insert(tx, ServerRow(agent, metrics[i]));
        }
        i := i + 1;
      }
      if NoClash(Contents(), agent, metrics) {
        CommittedBatch(Contents(), agent, metrics);
      }
      rows, lastId := tx.rows, tx.lastId;
      ok := true;
    }

    /** The reply says success only after the batch was committed; the agent record is updated either way. */
    method HandleMetrics(agent: string, checksum: string, version: Option<string>, metrics: seq<Aggregate>, now: int)
      returns (reply: Reply)
      requires ServerOk(Contents())
      modifies this
      ensures ServerOk(Contents())
      ensures agents.Keys == old(agents).Keys + {agent}
      ensures forall a | a in old(agents) && a != agent :: agents[a] == old(agents)[a]
      ensures agents[agent].lastSeen == now && agents[agent].checksum == checksum && agents[agent].version == version
      ensures agents[agent].firstSeen == if agent in old(agents) then old(agents)[agent].firstSeen else now
      ensures agents[agent].received == if agent in old(agents) then old(agents)[agent].received + 1 else 1
      ensures reply == Success <==> NoClash(old(Contents()), agent, metrics)
      ensures reply == Success ==> forall k | 0 <= k < |metrics| ::
        metrics[k].key.kind != Unknown ==> ServerRow(agent, metrics[k]) in rows.Values
      ensures reply == DatabaseError ==> Contents() == old(Contents())
      ensures forall i | i in old(rows) :: i in rows && rows[i] == old(rows)[i]
      ensures forall i | i in rows && i !in old(rows) ::
        old(lastId) < i && rows[i].agent == agent && rows[i].metric in metrics && rows[i].metric.key.kind != Unknown
    {
      UpsertAgent(agent, checksum, version, now);
      if metrics != [] {
        CommitsIffNoClash(Contents(), agent, metrics);
        if InsertAll(Contents(), agent, metrics).Some? {
          CommittedBatch(Contents(), agent, metrics);
        }
        var ok := StoreMetrics(agent, metrics);
        if !ok {
          return DatabaseError;
        }
        forall k | 0 <= k < |metrics| && metrics[k].key.kind != Unknown
          ensures ServerRow(agent, metrics[k]) in rows.Values
        {
          assert Known(metrics, k);
        }
      }
      reply := Success;
    }

    /** Retention: rows whose period ended before the cutoff and agents not seen since; the cutoff saturates at the epoch. */
    method CleanupOldData(now: nat, days: nat)
      requires ServerOk(Contents())
      modifies this`rows, this`agents
      ensures ServerOk(Contents())
      ensures Contents() == CleanServer(old(Contents()), if now < days * 86400 then 0 else now - days * 86400)
      ensures forall i | i in old(rows) :: i !in rows <==>
        old(rows)[i].metric.key.end < (if now < days * 86400 then 0 else now - days * 86400)
      ensures forall i | i in rows :: i in old(rows) && rows[i] == old(rows)[i]
      ensures forall a | a in old(agents) :: a !in agents <==>
        old(agents)[a].lastSeen < (if now < days * 86400 then 0 else now - days * 86400)
      ensures forall a | a in agents :: a in old(agents) && agents[a] == old(agents)[a]
    {
      var retention := days * 24 * 60 * 60;
      var cutoff := if now < retention then 0 else now - retention;
      rows := map i | i in rows && rows[i].metric.key.end >= cutoff :: rows[i];
      agents := map a | a in agents && agents[a].lastSeen >= cutoff :: agents[a];
    }
  }
}
