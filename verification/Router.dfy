/** The routing decision and the cost projected for it before routing. */
module Router {
  import opened Options
  import opened RoutingModel
  import Classifier

  /** Model pointers configured in the environment; a tier without one cannot be routed. */
  type Pointers = map<Tier, string>

  datatype TierConfigError = MissingPointer(tier: Tier)

  function TierFor(task: Task, degraded: bool): (tier: Tier)
    ensures degraded ==> tier != Frontier
    ensures tier == Frontier <==> task.escalate && !degraded
    ensures task.escalate && degraded ==> tier == Advanced
    ensures !task.escalate ==> tier == Classifier.TierOf(task)
  {
    var tier := if task.escalate then Frontier else Classifier.TierOf(task);
    if degraded && tier == Frontier then Advanced else tier
  }

  function Route(task: Task, degraded: bool, pointers: Pointers, costs: CostModel := DEFAULT_COST_MODEL)
    : (r: Result<Decision, TierConfigError>)
    ensures r.Err? <==> TierFor(task, degraded) !in pointers
    ensures r.Err? ==> r.error == MissingPointer(TierFor(task, degraded))
    ensures r.Ok? ==> && r.value.tier == TierFor(task, degraded) && r.value.degraded == degraded
                      && r.value.tier in pointers && r.value.pointer == pointers[r.value.tier]
                      && r.value.cost == costs.CostFor(r.value.tier) && (degraded ==> r.value.tier != Frontier)
    ensures r.Ok? ==>
              && (r.value.tier == Standard ==> r.value.cost == costs.standard)
              && (r.value.tier == Advanced ==> r.value.cost == costs.advanced)
              && (r.value.tier == Frontier ==> r.value.cost == costs.frontier)
    ensures r.Ok? && costs == DEFAULT_COST_MODEL ==>
              && (r.value.cost == 0.0001 <==> r.value.tier == Standard)
              && (r.value.cost == 0.001 <==> r.value.tier == Advanced)
              && (r.value.cost == 0.01 <==> r.value.tier == Frontier)
  {
    var tier := TierFor(task, degraded);
    if tier in pointers then Ok(Decision(tier, pointers[tier], degraded, costs.CostFor(tier)))
    else Err(MissingPointer(tier))
  }

  /** Cost of the tier the task would get with no degradation. */
  function ProjectCost(task: Task): (cost: real)
    ensures 0.0 < cost <= DEFAULT_COST_MODEL.frontier
    ensures cost == 0.01 <==> task.escalate
    ensures cost == 0.001 <==> !task.escalate && Classifier.TierOf(task) == Advanced
    ensures cost == 0.0001 <==> !task.escalate && Classifier.TierOf(task) == Standard
  {
    if task.escalate then DEFAULT_COST_MODEL.frontier
    else DEFAULT_COST_MODEL.CostFor(Classifier.TierOf(task))
  }

  /** The projection bounds the routed cost, and is exact unless an escalated task is capped. */
  lemma ProjectionBounds(task: Task, degraded: bool, pointers: Pointers)
    requires Route(task, degraded, pointers).Ok?
    ensures var cost := Route(task, degraded, pointers).value.cost;
            && 0.0 < cost <= ProjectCost(task)
            && (cost == ProjectCost(task) <==> !(task.escalate && degraded))
  {
  }

  /** Adding text to a prompt never lowers its tier or the cost projected for it, and raises the
      projection exactly when it changes the tier of a task that is not escalated. */
  lemma ProjectionMonotone(task: Task, more: string)
    requires Classifier.Contains(more, task.prompt)
    ensures ProjectCost(task) <= ProjectCost(task.(prompt := more))
    ensures Classifier.TierOf(task) == Advanced ==> Classifier.TierOf(task.(prompt := more)) == Advanced
    ensures ProjectCost(task) < ProjectCost(task.(prompt := more))
      <==> !task.escalate && Classifier.TierOf(task) != Classifier.TierOf(task.(prompt := more))
  {
    Classifier.ScoreMonotone(task.prompt, more, task.taskType);
  }
}
