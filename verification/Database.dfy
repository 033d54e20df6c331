/** The orchestrator's database: one connection that all loops share. */
module Database {
  import opened ActionTable
  import opened FastLoopMath

  /** A tenant and a workload, the primary key of policies, SLOs, observations and intents. */
  type Name = (string, string)

  datatype Intent = Intent(
    tenant: string,
    workload: string,
    targetConcurrency: u32,
    burstCpuCap: real,
    burstMemMb: u32,
    burstTtlSeconds: u32,
    poolMinReady: u32,
    poolTargetReady: u32,
    poolMaxReady: u32,
    preferredNodeGroup: string,
    antiAffinity: bool,
    reasonCode: string,
    effectiveAt: nat,
    ttlSeconds: u32,
    updatedAt: nat)

  class OrchestratorDb {
    var policies: map<Name, Policy>
    var slos: map<Name, Slo>
    var observations: seq<Observation>
    var groups: seq<GroupObservation>
    var intents: map<Name, Intent>
    var rows: Table

    method EnqueueAction(id: string, a: NewAction, now: nat) returns (ok: bool)
      modifies `rows
      ensures rows == Enqueue(old(rows), id, a, now)
      ensures ok == EnqueueSucceeds(old(rows), id, a)
    {
      hide KeyOf, FreshRow;
      var row := FreshRow(a, now);
      assert row.key == KeyOf(a) by { FreshRowKey(a, now); }
      if exists i :: i in rows && rows[i].key == row.key {
        return true;
      }
      if id in rows {
        return false;
      }
      rows := rows[id := row];
      return true;
    }
  }

  lemma FreshRowKey(a: NewAction, now: nat)
    ensures FreshRow(a, now).key == KeyOf(a)
  {
  }
}
