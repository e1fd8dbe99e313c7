/** Records of the agent status protocol. Identifiers are numbers; only their equality matters. */
module AgentModel {
  import opened Prelude

  type RunId = nat
  type HostId = nat
  type WorkspaceId = nat
  type PaneId = nat

  datatype Provider = Codex | Claude | OpenCode

  datatype AgentState = Unknown | Working | NeedsInput | Done | Ready | Exited

  datatype BaseState = Unknown | Working | NeedsInput | Idle | Exited

  datatype Capability = Unavailable | BlockerOverlay | ProviderEvents | ProviderEventsWithOverlay {
    predicate AcceptsProviderEvents() {
      ProviderEvents? || ProviderEventsWithOverlay?
    }
  }

  datatype Issue =
    | ConfigurationConflict
    | InvalidPayload
    | MissingEnvironment
    | TransportUnavailable
    | UnsupportedVersion

  datatype Health = Unknown | NotInstalled | Starting | Healthy(version: Option<nat>) | Degraded(issue: Issue) | Stale

  datatype Source = ProviderIntegration | IntegrationSupervisor | ProcessSupervisor

  datatype Authority = None | ProviderIntegration | IntegrationSupervisor | ProcessSupervisor

  datatype Kind =
    | Ready
    | Working
    | NeedsInput
    | TurnCompleted
    | StateUnknown
    | Exited(code: Option<int>)
    | HealthChanged(health: Health)

  datatype Draft = Draft(host: HostId, workspace: WorkspaceId, run: RunId, pane: Option<PaneId>,
                         provider: Provider, observedAt: u64, source: Source, kind: Kind)

  datatype Event = Event(host: HostId, workspace: WorkspaceId, run: RunId, pane: Option<PaneId>,
                         provider: Provider, sequence: u64, observedAt: u64, source: Source, kind: Kind)

  datatype Snapshot = Snapshot(run: RunId, provider: Provider, state: AgentState, revision: u64,
                               completion: u64, seen: u64, lastSequence: Option<u64>, lastAt: Option<u64>,
                               health: Health, capability: Capability, suppressed: bool)

  /** A screen blocker found for one provider; its rule name is opaque here. */
  datatype Blocker = Blocker(provider: Provider, rule: string)

  datatype Ignored = StaleRun | ProviderMismatch | StaleSequence | CapabilityMismatch | InvalidSource

  datatype Disposition = Applied(snapshot: Snapshot) | Rejected(reason: Ignored)

  /** One run row's update: the event and the snapshot committed with it. */
  datatype Update = Update(event: Event, snapshot: Snapshot)
}
