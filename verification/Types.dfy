/** Vocabulary shared by the models of the manager. */
module Types {

  datatype Option<+T> = None | Some(value: T)

  type ModelId = string

  /** Lifecycle states, of instances and of the manager itself. */
  datatype State = Ready | Loading | Error | Draining

  /** How a call of the manager returns. */
  datatype Outcome = Succeeded | NotFound | OverBudget | TooBusy | Canceled

  /** `budgetMB`, `marginMB`, `maxQueueDepth`, the ids in `registry`, and `defaultModel`. */
  datatype Config = Config(budget: int, margin: int, depth: nat, registry: set<ModelId>, fallback: ModelId)
}
