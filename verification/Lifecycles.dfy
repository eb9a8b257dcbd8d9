/** The lifecycles of projects, tasks and executions, and which moves their state machines allow. */
module Lifecycles {

  datatype ProjectLifecycle =
    | Created | Clarifying | GoalLocked | Planning | AwaitingApproval | Active
    | Integrating | Verifying | Delivering | Done | Cancelled | Failed

  datatype TaskLifecycle =
    | Pending | Ready | Dispatched | Running | AwaitingInput | RetryPending
    | Submitted | Verified | Done | Cancelled | Superseded | Failed

  datatype ExecutionLifecycle = Created | Running | Completed | Failed | Lost | Cancelled

  datatype Kind = Project | Task | Execution

  /** The text of a lifecycle column, by what it decodes to; `Unknown` is text no variant serialises to. */
  datatype Lifecycle =
    | OfProject(project: ProjectLifecycle)
    | OfTask(task: TaskLifecycle)
    | OfExecution(execution: ExecutionLifecycle)
    | Unknown(text: string)

  predicate ProjectMove(from: ProjectLifecycle, to: ProjectLifecycle) {
    match (from, to)
    case (Created, Clarifying) => true
    case (Clarifying, GoalLocked) => true
    case (GoalLocked, Planning) => true
    case (Planning, AwaitingApproval) => true
    case (AwaitingApproval, Active) => true
    case (AwaitingApproval, Planning) => true
    case (AwaitingApproval, Cancelled) => true
    case (Active, Integrating) => true
    case (Active, Failed) => true
    case (Active, Cancelled) => true
    case (Integrating, Verifying) => true
    case (Integrating, Active) => true
    case (Integrating, Cancelled) => true
    case (Verifying, Delivering) => true
    case (Verifying, Active) => true
    case (Verifying, Cancelled) => true
    case (Delivering, Done) => true
    case _ => false
  }

  predicate TaskMove(from: TaskLifecycle, to: TaskLifecycle) {
    match (from, to)
    case (Pending, Ready) => true
    case (Pending, Superseded) => true
    case (Pending, Cancelled) => true
    case (Ready, Dispatched) => true
    case (Ready, Cancelled) => true
    case (Dispatched, Running) => true
    case (Dispatched, RetryPending) => true
    case (Dispatched, Failed) => true
    case (Running, AwaitingInput) => true
    case (Running, Submitted) => true
    case (Running, RetryPending) => true
    case (Running, Failed) => true
    case (AwaitingInput, Running) => true
    case (AwaitingInput, RetryPending) => true
    case (AwaitingInput, Failed) => true
    case (RetryPending, Dispatched) => true
    case (RetryPending, Failed) => true
    case (RetryPending, Cancelled) => true
    case (Submitted, Verified) => true
    case (Submitted, RetryPending) => true
    case (Submitted, Failed) => true
    case (Verified, Done) => true
    case _ => false
  }

  predicate ExecutionMove(from: ExecutionLifecycle, to: ExecutionLifecycle) {
    match (from, to)
    case (Created, Running) => true
    case (Created, Failed) => true
    case (Created, Cancelled) => true
    case (Running, Completed) => true
    case (Running, Failed) => true
    case (Running, Lost) => true
    case (Running, Cancelled) => true
    case _ => false
  }

  /** `parse_exec_lc`: text that is not a lifecycle reads as `Created`. */
  function ParseExecution(l: Lifecycle): ExecutionLifecycle {
    if l.OfExecution? then l.execution else ExecutionLifecycle.Created
  }

  predicate Legal(kind: Kind, from: Lifecycle, to: Lifecycle) {
    match kind
    case Project => from.OfProject? && to.OfProject? && ProjectMove(from.project, to.project)
    case Task => from.OfTask? && to.OfTask? && TaskMove(from.task, to.task)
    case Execution => to.OfExecution? && ExecutionMove(ParseExecution(from), to.execution)
  }

  predicate IsTerminal(kind: Kind, l: Lifecycle) {
    match kind
    case Project => l.OfProject? && (l.project.Done? || l.project.Cancelled? || l.project.Failed?)
    case Task => l.OfTask? && (l.task.Done? || l.task.Cancelled? || l.task.Superseded? || l.task.Failed?)
    case Execution =>
      var e := ParseExecution(l);
      e.Completed? || e.Failed? || e.Lost? || e.Cancelled?
  }

  // ----- which moves there are, by where they lead -----

  /** An execution starts once, ends once, and can complete or get lost only after it has started. */
  lemma {:induction false} ExecutionMoves(from: ExecutionLifecycle, to: ExecutionLifecycle)
    ensures Legal(Execution, OfExecution(from), OfExecution(to)) <==>
      && from in {ExecutionLifecycle.Created, ExecutionLifecycle.Running} && to != ExecutionLifecycle.Created && to != from
      && (to in {ExecutionLifecycle.Completed, ExecutionLifecycle.Lost} ==> from == ExecutionLifecycle.Running)
    ensures forall text :: Legal(Execution, Lifecycle.Unknown(text), OfExecution(to)) <==>
      Legal(Execution, OfExecution(ExecutionLifecycle.Created), OfExecution(to))
  {
  }

  /** How far a task has got; an attempt that is to be retried is as far as one that is ready. */
  function TaskStage(l: TaskLifecycle): nat {
    match l
    case Ready => 1
    case RetryPending => 1
    case Dispatched => 2
    case Running => 3
    case AwaitingInput => 3
    case Submitted => 4
    case Verified => 5
    case Done => 6
    case _ => 0
  }

  /** A task goes forward one stage at a time; an attempt can be retried or fail, and only what is not under way can be cancelled. */
  lemma {:induction false} TaskMoves(from: TaskLifecycle, to: TaskLifecycle)
    ensures Legal(Task, OfTask(from), OfTask(to)) <==>
      var underWay := from in {TaskLifecycle.Dispatched, TaskLifecycle.Running, TaskLifecycle.AwaitingInput, TaskLifecycle.Submitted};
      match to
      case RetryPending => underWay
      case Failed => underWay || from.RetryPending?
      case Cancelled => from in {TaskLifecycle.Pending, TaskLifecycle.Ready, TaskLifecycle.RetryPending}
      case Superseded => from.Pending?
      case AwaitingInput => from.Running?
      case Running => from in {TaskLifecycle.Dispatched, TaskLifecycle.AwaitingInput}
      case _ => TaskStage(to) == TaskStage(from) + 1 && (from.Pending? || TaskStage(from) > 0) && !from.AwaitingInput?
  {
  }

  function ProjectStage(l: ProjectLifecycle): nat {
    match l
    case Clarifying => 1
    case GoalLocked => 2
    case Planning => 3
    case AwaitingApproval => 4
    case Active => 5
    case Integrating => 6
    case Verifying => 7
    case Delivering => 8
    case Done => 9
    case _ => 0
  }

  /** A project goes forward one stage at a time; approval can send it back to planning, integration and verification back to work. */
  lemma {:induction false} ProjectMoves(from: ProjectLifecycle, to: ProjectLifecycle)
    ensures Legal(Project, OfProject(from), OfProject(to)) <==>
      match to
      case Cancelled => 4 <= ProjectStage(from) <= 7
      case Failed => from.Active?
      case Planning => from in {ProjectLifecycle.GoalLocked, ProjectLifecycle.AwaitingApproval}
      case Active =>
        from in {ProjectLifecycle.AwaitingApproval, ProjectLifecycle.Integrating, ProjectLifecycle.Verifying}
      case _ => ProjectStage(to) == ProjectStage(from) + 1 && (from.Created? || ProjectStage(from) > 0)
  {
  }

  /** No kind reads another kind's lifecycles, except that executions take any text for a new one. */
  lemma {:induction false} KindsAreApart(kind: Kind, from: Lifecycle, to: Lifecycle)
    requires Legal(kind, from, to)
    ensures (kind.Project? <==> to.OfProject?) && (kind.Task? <==> to.OfTask?) && (kind.Execution? <==> to.OfExecution?)
    ensures (kind.Project? ==> from.OfProject?) && (kind.Task? ==> from.OfTask?)
  {
  }

  predicate IsOf(kind: Kind, l: Lifecycle) {
    match kind
    case Project => l.OfProject?
    case Task => l.OfTask?
    case Execution => true
  }

  /** A move out of a lifecycle that is not terminal. */
  function SomeMove(kind: Kind, from: Lifecycle): Lifecycle {
    match from
    case OfProject(p) =>
      OfProject(match p
                case Created => ProjectLifecycle.Clarifying
                case Clarifying => GoalLocked
                case GoalLocked => Planning
                case Planning => AwaitingApproval
                case Delivering => ProjectLifecycle.Done
                case _ => ProjectLifecycle.Cancelled)
    case OfTask(t) =>
      OfTask(match t
             case Verified => TaskLifecycle.Done
             case Pending => Ready
             case Ready => Dispatched
             case _ => TaskLifecycle.Failed)
    case _ => OfExecution(ExecutionLifecycle.Cancelled)
  }

  /** A lifecycle is terminal exactly if it has no successor. */
  lemma {:induction false} TerminalIffNoMove(kind: Kind, from: Lifecycle)
    requires IsOf(kind, from)
    ensures IsTerminal(kind, from) <==> forall to :: !Legal(kind, from, to)
  {
    if !IsTerminal(kind, from) {
      var to := if kind.Execution? then OfExecution(ExecutionLifecycle.Cancelled) else SomeMove(kind, from);
      assert Legal(kind, from, to);
    }
  }

  /** A terminal lifecycle has no successor. */
  lemma TerminalHasNoMove(kind: Kind, from: Lifecycle, to: Lifecycle)
    requires IsTerminal(kind, from)
    ensures !Legal(kind, from, to)
  {
  }
}
