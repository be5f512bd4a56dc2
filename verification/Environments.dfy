/** Execution environments as far as approvals touch them. */
module Environments {
  import opened Prelude
  import opened Uuids

  datatype EnvStatus = PendingApproval | Active | Degraded | Disabled

  datatype Env = Env(status: EnvStatus, version: int, configVersion: int)

  type Envs = map<Uuid, Env>

  /** The environment table after the compare-and-set from PENDING_APPROVAL to ACTIVE, or its error. */
  function Activate(envs: Envs, id: Uuid): Result<Envs> {
    if id !in envs then Err(NotFound)
    else if envs[id].status != PendingApproval then Err(StateConsumed)
    else
      var v := envs[id].version + 1;
      Ok(envs[id := Env(Active, v, v)])
  }

  class EnvironmentRegistry {
    var envs: Envs

    constructor ()
      ensures envs == map[]
    {
      envs := map[];
    }

    /** Registration creates the row that waits for approval. */
    method Create(id: Uuid)
      requires id !in envs
      modifies this
      ensures envs == old(envs)[id := Env(PendingApproval, 1, 1)]
    {
      envs := envs[id := Env(PendingApproval, 1, 1)];
    }

    /** activate_after_env_register. */
    method ActivateAfterEnvRegister(id: Uuid) returns (r: Result<()>)
      modifies this
      ensures var next := Activate(old(envs), id);
              envs == (if next.Ok? then next.value else old(envs)) &&
              r == (if next.Ok? then Ok(()) else Err(next.error))
    {
      if id !in envs {
        return Err(NotFound);
      }
      var env := envs[id];
      if env.status != PendingApproval {
        return Err(StateConsumed);
      }
      env := env.(status := Active);
      env := env.(version := env.version + 1);
      env := env.(configVersion := env.version);
      envs := envs[id := env];
      return Ok(());
    }
  }

  /**
    * An environment is activated exactly when it waits for approval: it becomes active, with the next version as
    * that of its configuration too, and no other environment changes.
    */
  lemma {:induction false} ActivatesExactlyWhen(envs: Envs, id: Uuid)
    ensures var r := Activate(envs, id);
            && (r.Ok? <==> id in envs && envs[id].status == PendingApproval)
            && (r.Err? ==> r.error == if id in envs then StateConsumed else NotFound)
            && (r.Ok? ==> IsActivated(envs, id, r.value))
  {
  }

  predicate IsActivated(envs: Envs, id: Uuid, next: Envs) {
    && id in envs && id in next && next == envs[id := next[id]]
    && next[id].status == Active && next[id].version == next[id].configVersion == envs[id].version + 1
  }

  /** Of two activations of one environment the second fails and changes nothing. */
  lemma {:induction false} ActivatesOnce(envs: Envs, id: Uuid)
    ensures var first := Activate(envs, id);
            first.Ok? ==> Activate(first.value, id) == Err(StateConsumed)
  {
  }
}
