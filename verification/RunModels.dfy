/** The controller's stages and failure codes, with the text that is stored for a stage. */
module RunModels {
  import opened Results

  datatype RunStage =
    | Scheduled | BudgetCheck | Discovering | Scoring | Selected | Preflight | SandboxReady
    | Planning | Implementing | Verifying | Reviewing | Approved | AwaitingApproval | Publishing
    | PrOpen | Cleaning | Complete | Deferred | Skipped | Failed | Aborted | CleanupPending

  datatype FailureCode =
    | BudgetExhausted | PolicyDenied | NoCandidate | NoReproduction | TestFailed | ReviewRejected
    | UpstreamMoved | RateLimited | AuthFailed | PublishPartial | CleanupFailed
    | RuntimeUnavailable | AgentFailed | InvalidOutput

  function StageValue(stage: RunStage): string {
    match stage
    case Scheduled => "scheduled"
    case BudgetCheck => "budget_check"
    case Discovering => "discovering"
    case Scoring => "scoring"
    case Selected => "selected"
    case Preflight => "preflight"
    case SandboxReady => "sandbox_ready"
    case Planning => "planning"
    case Implementing => "implementing"
    case Verifying => "verifying"
    case Reviewing => "reviewing"
    case Approved => "approved"
    case AwaitingApproval => "awaiting_approval"
    case Publishing => "publishing"
    case PrOpen => "pr_open"
    case Cleaning => "cleaning"
    case Complete => "complete"
    case Deferred => "deferred"
    case Skipped => "skipped"
    case Failed => "failed"
    case Aborted => "aborted"
    case CleanupPending => "cleanup_pending"
  }

  /** The stage that a stored text names, if it names one. */
  function StageOf(text: string): Option<RunStage> {
    if text == "complete" then Some(Complete)
    else if text == "deferred" then Some(Deferred)
    else if text == "skipped" then Some(Skipped)
    else if text == "failed" then Some(RunStage.Failed)
    else if text == "aborted" then Some(Aborted)
    else if text == "cleanup_pending" then Some(CleanupPending)
    else if text == "scheduled" then Some(Scheduled)
    else if text == "budget_check" then Some(BudgetCheck)
    else if text == "discovering" then Some(Discovering)
    else if text == "scoring" then Some(Scoring)
    else if text == "selected" then Some(Selected)
    else if text == "preflight" then Some(Preflight)
    else if text == "sandbox_ready" then Some(SandboxReady)
    else if text == "planning" then Some(Planning)
    else if text == "implementing" then Some(Implementing)
    else if text == "verifying" then Some(Verifying)
    else if text == "reviewing" then Some(Reviewing)
    else if text == "approved" then Some(Approved)
    else if text == "awaiting_approval" then Some(AwaitingApproval)
    else if text == "publishing" then Some(Publishing)
    else if text == "pr_open" then Some(PrOpen)
    else if text == "cleaning" then Some(Cleaning)
    else None
  }

  /** A stored stage reads back as itself, so no two stages share a text. */
  lemma StageReads(stage: RunStage)
    ensures StageOf(StageValue(stage)) == Some(stage)
  {
    hide StageOf, StageValue;
    if Early(stage) {
      EarlyStageReads(stage);
    } else if TerminalStage(stage) {
      LastStageReads(stage);
    } else if stage.Reviewing? || stage.Approved? || stage.AwaitingApproval? {
      ReviewStageReads(stage);
    } else {
      PublicationStageReads(stage);
    }
  }

  /** The stages up to the verification. */
  predicate Early(stage: RunStage) {
    || stage.Scheduled? || stage.BudgetCheck? || stage.Discovering? || stage.Scoring? || stage.Selected?
    || stage.Preflight? || stage.SandboxReady? || stage.Planning? || stage.Implementing? || stage.Verifying?
  }

  lemma EarlyStageReads(stage: RunStage)
    requires Early(stage)
    ensures StageOf(StageValue(stage)) == Some(stage)
  {
  }

  lemma ReviewStageReads(stage: RunStage)
    requires stage.Reviewing? || stage.Approved? || stage.AwaitingApproval?
    ensures StageOf(StageValue(stage)) == Some(stage)
  {
  }

  lemma PublicationStageReads(stage: RunStage)
    requires stage.Publishing? || stage.PrOpen? || stage.Cleaning?
    ensures StageOf(StageValue(stage)) == Some(stage)
  {
  }

  lemma LastStageReads(stage: RunStage)
    requires TerminalStage(stage)
    ensures StageOf(StageValue(stage)) == Some(stage)
  {
  }

  predicate TerminalStage(stage: RunStage) {
    stage in {Complete, Deferred, Skipped, Failed, Aborted, CleanupPending}
  }
}
