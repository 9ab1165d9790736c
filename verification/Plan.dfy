/** The records of a business work-order plan. */
module Plan {
  datatype ContentRef = ContentRef(id: string, hash: string)

  datatype Role = Work | Integration
  datatype Permission = ReadOnly | WorkspaceWrite
  datatype Isolation = IsolatedReadOnly | Worktree | Sandbox | Remote

  datatype Branch = Branch(
    ref: string,
    taskIntent: ContentRef,
    executionPlan: ContentRef,
    contextPack: ContentRef,
    dependencies: seq<string>,
    role: Role,
    parallelizable: bool,
    isolation: Isolation,
    assignee: string,
    provider: string,
    permission: Permission)

  datatype Kind = Deterministic | Human
  datatype Requirement = Requirement(kind: Kind, ref: ContentRef)
  datatype Mode = DeterministicOnly | HumanOnly | Mixed
  datatype Criterion = Criterion(id: string, description: string, mode: Mode, requirements: seq<Requirement>)
  datatype ReviewMinimum = Light | Normal | Strict
  datatype AcceptancePolicy = AcceptancePolicy(criteria: seq<Criterion>, reviewMinimum: ReviewMinimum)

  datatype Selection = Fixed | FallbackAllowed
  datatype ProviderPolicy = ProviderPolicy(allowed: seq<string>, selection: Selection)
}
