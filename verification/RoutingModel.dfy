/** Data types shared by the whole model: options, tiers, tasks and the per-tier cost model. */
module Options {
  datatype Option<+T> = None | Some(value: T)

  datatype Result<+T, +E> = Ok(value: T) | Err(error: E)
}

module RoutingModel {
  import opened Options

  datatype Tier = Standard | Advanced | Frontier

  /** A task as the classifier sees it: `prompt` and `taskType` are already lower-cased,
      and a missing task type is the empty string. */
  datatype Task = Task(prompt: string, taskType: string, escalate: bool, failureContext: Option<string>)

  datatype CostModel = CostModel(standard: real, advanced: real, frontier: real) {
    function CostFor(tier: Tier): real {
      match tier
      case Standard => standard
      case Advanced => advanced
      case Frontier => frontier
    }
  }

  const DEFAULT_COST_MODEL := CostModel(0.0001, 0.001, 0.01)

  datatype Decision = Decision(tier: Tier, pointer: string, degraded: bool, cost: real)
}
