/**
 The leased part of one controller cycle: plan, implement, verify, review, approve, publish, clean up.
 Between any two observations the agent, the tests and anyone else may rewrite the workspace, and
 every call may raise.  Each observation is appended to a ghost log, which the theorems are about.
 */
module ControllerRun {
  import opened Results
  import opened RunModels
  import Containers

  type Diff = string  // everything that `inspect_diff` reports, the patch included

  datatype AgentStage = PlanAgent | ImplementAgent | ReviewAgent

  /** The parts of an agent's payload that the controller acts on. */
  datatype Reply = Reply(status: string, supported: bool, missing: nat, findings: nat, estimate: Option<int>)

  predicate Approving(r: Reply) {
    r.status == "approve" && r.supported && r.missing == 0 && r.findings == 0
  }

  /** What the controller saw and did, in order; `HeadUnreadable` stands for unsafe or failing Git. */
  datatype Event =
    | BaseRead(head: string)
    | DiffRead(diff: Diff)
    | GatePassed(diff: Diff)
    | GateRefused(diff: Diff)
    | HeadRead(head: string)
    | HeadUnreadable
    | SetupRun(results: seq<bool>)
    | TestsRun(results: seq<bool>)
    | AgentRun(stage: AgentStage, attempt: nat, shown: Option<Diff>, reply: Option<Reply>)
    | Bundle(head: string, diff: Diff)
    | IssueUnchanged
    | IssueMoved
    | FreshGatePassed
    | FreshGateFailed
    | UpstreamHead(head: string)
    | SlotGranted
    | SlotDenied
    | PublishCalled(head: string, diff: Diff)

  datatype Settings = Settings(
    maxRepairCycles: nat, testCommands: nat, setupCommands: nat, reservedTokens: nat,
    publish: bool, draftPrMode: bool, humanApproval: bool, gitHubSource: bool)

  // ---- exceptions ----

  datatype Kind =
    | RunnerFailure(notInstalled: bool) | AgentOutput | WorkspaceFailure | PublicationFailure
    | GitHubFailure(retryable: bool) | OsFailure | SqliteFailure | SubprocessFailure
    | Unlisted  // anything that no handler names

  datatype Fault = Abort(code: FailureCode, stage: RunStage) | Raised(kind: Kind)

  /** A fault of the work before publication: no publisher exception, and an abort stays an abort. */
  predicate PlainFault(f: Fault) {
    match f
    case Abort(code, stage) => stage in {Aborted, Deferred} && code != PublishPartial
    case Raised(kind) => !kind.PublicationFailure?
  }

  datatype Try<+T> = Done(value: T) | Thrown(fault: Fault) {
    predicate IsFailure() { Thrown? }
    function PropagateFailure<U>(): Try<U>
      requires Thrown?
    {
      Thrown(fault)
    }
    function Extract(): T
      requires Done?
    {
      value
    }
  }

  // ---- the environment ----

  /** How many invocations of each stage, and how many verification rounds, a log holds. */
  datatype Tally = Tally(plans: nat, implementations: nat, reviews: nat, rounds: nat) {
    function Of(stage: AgentStage): nat {
      match stage
      case PlanAgent => plans
      case ImplementAgent => implementations
      case ReviewAgent => reviews
    }

    function With(e: Event): Tally {
      match e
      case TestsRun(_) => this.(rounds := rounds + 1)
      case AgentRun(PlanAgent, _, _, _) => this.(plans := plans + 1)
      case AgentRun(ImplementAgent, _, _, _) => this.(implementations := implementations + 1)
      case AgentRun(ReviewAgent, _, _, _) => this.(reviews := reviews + 1)
      case _ => this
    }
  }

  function TallyOf(log: seq<Event>): Tally {
    if log == [] then Tally(0, 0, 0, 0) else TallyOf(log[..|log| - 1]).With(log[|log| - 1])
  }

  /** Every invocation is numbered within its stage, from 1. */
  predicate Numbered(log: seq<Event>) {
    forall k :: 0 <= k < |log| && log[k].AgentRun? ==> log[k].attempt == 1 + TallyOf(log[..k]).Of(log[k].stage)
  }

  lemma AppendNumbered(log: seq<Event>, e: Event)
    requires Numbered(log) && (e.AgentRun? ==> e.attempt == 1 + TallyOf(log).Of(e.stage))
    ensures Numbered(log + [e])
  {
    forall k | 0 <= k <= |log| && (log + [e])[k].AgentRun?
      ensures (log + [e])[k].attempt == 1 + TallyOf((log + [e])[..k]).Of((log + [e])[k].stage)
    {
      assert (log + [e])[..k] == log[..k];
      assert log[..|log|] == log;
    }
  }

  lemma {:induction false} TalliesAscend(log: seq<Event>, i: nat, j: nat, stage: AgentStage)
    requires i <= j <= |log|
    ensures TallyOf(log[..i]).Of(stage) <= TallyOf(log[..j]).Of(stage)
  {
    if i < j {
      TalliesAscend(log, i, j - 1, stage);
      assert log[..j][..j - 1] == log[..j - 1];
    }
  }

  lemma TallyStep(log: seq<Event>, i: nat)
    requires i < |log|
    ensures TallyOf(log[..i + 1]) == TallyOf(log[..i]).With(log[i])
  {
    assert log[..i + 1][..i] == log[..i];
  }

  /** No two invocations of a run share a (stage, attempt) key, so the store's unique key is never hit. */
  lemma InvocationKeysDistinct(log: seq<Event>, i: nat, j: nat)
    requires Numbered(log) && i < j < |log| && log[i].AgentRun? && log[j].AgentRun?
    ensures (log[i].stage, log[i].attempt) != (log[j].stage, log[j].attempt)
    ensures 1 <= log[j].attempt <= TallyOf(log).Of(log[j].stage)
  {
    assert log[i].attempt == 1 + TallyOf(log[..i]).Of(log[i].stage);
    assert log[j].attempt == 1 + TallyOf(log[..j]).Of(log[j].stage);
    assert log[..|log|] == log;
    hide TallyOf, Numbered, Orderly;
    TallyStep(log, i);
    TallyStep(log, j);
    TalliesAscend(log, i + 1, j, log[i].stage);
    TalliesAscend(log, j + 1, |log|, log[j].stage);
  }

  // ---- the order of a run ----

  predicate AllPassed(results: seq<bool>) {
    forall b :: b in results ==> b
  }

  predicate RepliedBy(e: Event, stage: AgentStage) {
    e.AgentRun? && e.stage == stage && e.reply.Some?
  }

  /** The plan is accepted: it is one, and its estimate, if it has one, fits the reservation. */
  predicate Planned(e: Event, s: Settings) {
    && RepliedBy(e, PlanAgent) && e.reply.value.status == "planned"
    && (e.reply.value.estimate.Some? ==> e.reply.value.estimate.value <= s.reservedTokens)
  }

  predicate PlanTooLarge(e: Event, s: Settings) {
    RepliedBy(e, PlanAgent) && e.reply.value.status == "planned" && !Planned(e, s)
  }

  predicate Implemented(e: Event) {
    RepliedBy(e, ImplementAgent) && e.reply.value.status == "implemented"
  }

  predicate ApprovedBy(e: Event) {
    && RepliedBy(e, ReviewAgent) && e.reply.value.status == "approve" && e.reply.value.supported
    && e.reply.value.missing == 0 && e.reply.value.findings == 0
  }

  /** A round of tests has ended on the base commit, with the diff as it was before. */
  predicate RoundEnded(log: seq<Event>) {
    var n := |log|;
    && n >= 6 && log[n - 1].HeadRead? && log[0] == BaseRead(log[n - 1].head)
    && log[n - 3].DiffRead? && log[n - 2] == GatePassed(log[n - 3].diff) && log[n - 4].TestsRun?
    && (log[n - 5] == GatePassed(log[n - 3].diff)
        || (log[n - 5].SetupRun? && log[n - 6] == GatePassed(log[n - 3].diff)))
  }

  /** The diff that was gated before the tests, with the setup in between or without. */
  predicate GatedBefore(log: seq<Event>, d: Diff) {
    var n := |log|;
    n >= 2 && (log[n - 1] == GatePassed(d) || (log[n - 1].SetupRun? && log[n - 2] == GatePassed(d)))
  }

  /** A gated diff, with all of the setup passed if there was any. */
  predicate ReadyToTest(log: seq<Event>, d: Diff, gate: Diff -> bool) {
    var n := |log|;
    && n >= 4 && gate(d)
    && if log[n - 1].SetupRun? then AllPassed(log[n - 1].results) && log[n - 2] == GatePassed(d)
        && log[n - 3] == DiffRead(d)
       else log[n - 1] == GatePassed(d) && log[n - 2] == DiffRead(d)
  }

  lemma ReadyIsGated(log: seq<Event>, d: Diff, gate: Diff -> bool)
    requires ReadyToTest(log, d, gate)
    ensures GatedBefore(log, d) && |log| > 1
  {
  }

  lemma TestedIsRound(log: seq<Event>, tests: seq<bool>, d: Diff, base: string, gate: Diff -> bool, s: Settings)
    requires ReadyToTest(log, d, gate) && log[0] == BaseRead(base) && (AllPassed(tests) ==> |tests| == s.testCommands)
    ensures var more := log + [TestsRun(tests), DiffRead(d), GatePassed(d), HeadRead(base)];
            && (AllPassed(tests) ==> VerifiedAt(more, |more|, base, d, gate, s.testCommands))
            && (if AllPassed(tests) then RoundPassed(more, s) else RoundFailed(more))
  {
    var (n, more) := (|log|, log + [TestsRun(tests), DiffRead(d), GatePassed(d), HeadRead(base)]);
    assert more[n] == TestsRun(tests) && more[n + 1] == DiffRead(d) && more[n + 2] == GatePassed(d)
        && more[n + 3] == HeadRead(base);
    assert more[n - 1] == log[n - 1] && more[n - 2] == log[n - 2] && more[n - 3] == log[n - 3] && more[0] == log[0];
  }

  predicate RoundFailed(log: seq<Event>) {
    RoundEnded(log) && !AllPassed(log[|log| - 4].results)
  }

  /** All configured commands passed. */
  predicate RoundPassed(log: seq<Event>, s: Settings) {
    RoundEnded(log) && AllPassed(log[|log| - 4].results) && |log[|log| - 4].results| == s.testCommands
  }

  /** The first gate of a repair cycle has just passed. */
  predicate CycleGated(log: seq<Event>) {
    |log| >= 3 && log[|log| - 1].GatePassed? && Implemented(log[|log| - 3])
  }

  /** Publication is asked for and possible. */
  predicate MayPublish(s: Settings) {
    s.publish && s.draftPrMode && !s.humanApproval && s.gitHubSource
  }

  /** The protocol: what may come next after a log. */
  predicate MayFollow(s: Settings, gate: Diff -> bool, log: seq<Event>, e: Event) {
    var n := |log|;
    var rounds := TallyOf(log).rounds;
    match e
    case BaseRead(_) => n == 0
    case DiffRead(_) => n > 0 && (Implemented(log[n - 1]) || log[n - 1].TestsRun? || ApprovedBy(log[n - 1]))
    case GatePassed(d) => n > 0 && log[n - 1] == DiffRead(d) && gate(d)
    case GateRefused(d) => n > 0 && log[n - 1] == DiffRead(d) && !gate(d)
    case HeadRead(_) => LookedAgain(log)
    case HeadUnreadable => n == 0 || LookedAgain(log)
    case SetupRun(_) => s.setupCommands > 0 && rounds == 0 && CycleGated(log)
    case TestsRun(_) =>
      if s.setupCommands > 0 && rounds == 0 then n > 0 && log[n - 1].SetupRun? && AllPassed(log[n - 1].results)
      else CycleGated(log)
    case AgentRun(PlanAgent, _, _, _) => n == 1 && log[0].BaseRead?
    case AgentRun(ImplementAgent, _, _, _) =>
      n > 0 && (Planned(log[n - 1], s) || (rounds <= s.maxRepairCycles && (RoundFailed(log) || SentBack(log[n - 1]))))
    case AgentRun(ReviewAgent, _, shown, _) => RoundPassed(log, s) && shown == Some(log[n - 3].diff)
    case Bundle(h, d) =>
      && n >= 3 && log[0] == BaseRead(h) && log[n - 1] == HeadRead(h) && log[n - 2] == DiffRead(d)
      && ApprovedBy(log[n - 3]) && log[n - 3].shown == Some(d)
    case IssueUnchanged => MayPublish(s) && n > 0 && log[n - 1].Bundle?
    case IssueMoved => MayPublish(s) && n > 0 && log[n - 1].Bundle?
    case FreshGatePassed => n > 0 && log[n - 1].IssueUnchanged?
    case FreshGateFailed => n > 0 && log[n - 1].IssueUnchanged?
    case UpstreamHead(_) => n > 0 && log[n - 1].FreshGatePassed?
    case SlotGranted => n > 0 && log[n - 1].UpstreamHead? && log[0] == BaseRead(log[n - 1].head)
    case SlotDenied => n > 0 && log[n - 1].UpstreamHead? && log[0] == BaseRead(log[n - 1].head)
    case PublishCalled(h, d) => n >= 5 && log[n - 1].SlotGranted? && log[n - 5] == Bundle(h, d)
  }

  /** After the tests of a round, or after an approving review, the diff was read again. */
  predicate LookedAgain(log: seq<Event>) {
    var n := |log|;
    || (n >= 3 && log[n - 1].GatePassed? && log[n - 2] == DiffRead(log[n - 1].diff) && log[n - 3].TestsRun?)
    || (n >= 2 && log[n - 1].DiffRead? && ApprovedBy(log[n - 2]) && log[n - 2].shown == Some(log[n - 1].diff))
  }

  /** A review that neither approves nor abandons. */
  predicate SentBack(e: Event) {
    RepliedBy(e, ReviewAgent) && !ApprovedBy(e) && e.reply.value.status != "abandon"
  }

  predicate Orderly(s: Settings, gate: Diff -> bool, log: seq<Event>) {
    forall k :: 0 <= k < |log| ==> MayFollow(s, gate, log[..k], log[k])
  }

  lemma AppendOrderly(s: Settings, gate: Diff -> bool, log: seq<Event>, e: Event)
    requires Orderly(s, gate, log) && MayFollow(s, gate, log, e)
    ensures Orderly(s, gate, log + [e])
  {
    hide MayFollow;
    var more := log + [e];
    forall k | 0 <= k < |more|
      ensures MayFollow(s, gate, more[..k], more[k])
    {
      assert more[..k] == log[..k];
      assert log[..|log|] == log;
    }
  }

  /**
   When the controller may give up, and with which code: the end of the log is the reason.  A failed
   round or a rejected patch ends the run only when the repair budget is used up.
   */
  predicate Justified(s: Settings, log: seq<Event>, code: FailureCode, stage: RunStage) {
    var n := |log|;
    && n > 0 && (stage == if code.BudgetExhausted? then Deferred else Aborted)
    && match code
       case NoReproduction => RepliedBy(log[n - 1], PlanAgent) && log[n - 1].reply.value.status != "planned"
       case BudgetExhausted =>
         && RepliedBy(log[n - 1], PlanAgent) && log[n - 1].reply.value.status == "planned"
         && log[n - 1].reply.value.estimate.Some? && log[n - 1].reply.value.estimate.value > s.reservedTokens
       case AgentFailed =>
         log[n - 1].HeadUnreadable? ||
         (RepliedBy(log[n - 1], ImplementAgent) && log[n - 1].reply.value.status != "implemented")
       case TestFailed =>
         (log[n - 1].SetupRun? && !AllPassed(log[n - 1].results)) ||
         (RoundFailed(log) && TallyOf(log).rounds == s.maxRepairCycles + 1)
       case ReviewRejected =>
         && RepliedBy(log[n - 1], ReviewAgent) && !ApprovedBy(log[n - 1])
         && (log[n - 1].reply.value.status == "abandon" || TallyOf(log).rounds == s.maxRepairCycles + 1)
       case UpstreamMoved =>
         log[n - 1].IssueMoved? || log[n - 1].FreshGateFailed? ||
         (log[n - 1].UpstreamHead? && log[0] != BaseRead(log[n - 1].head))
       case PolicyDenied =>
         || log[n - 1].GateRefused? || log[n - 1].HeadUnreadable? || log[n - 1].SlotDenied?
         || (log[n - 1].HeadRead? && log[0] != BaseRead(log[n - 1].head))
         || (log[n - 1].Bundle? && (s.humanApproval || !s.gitHubSource))
         || DiffChanged(log)
       case _ => false
  }

  /** The diff that was just read is not the one that was gated before the tests, or shown to the review. */
  predicate DiffChanged(log: seq<Event>) {
    var n := |log|;
    || (n >= 4 && log[n - 1].GatePassed? && log[n - 3].TestsRun?
        && ((log[n - 4].GatePassed? && log[n - 4].diff != log[n - 1].diff)
            || (n >= 5 && log[n - 4].SetupRun? && log[n - 5].GatePassed? && log[n - 5].diff != log[n - 1].diff)))
    || (n >= 2 && log[n - 1].DiffRead? && ApprovedBy(log[n - 2]) && log[n - 2].shown != Some(log[n - 1].diff))
  }

  // What the protocol allows next, and the reasons for giving up, by the end of the log.

  predicate Publication(e: Event) {
    e.PublishCalled? || e.SlotGranted? || e.SlotDenied? || e.UpstreamHead? || e.FreshGatePassed? || e.IssueUnchanged?
  }

  /** What the last event before one of publication must be. */
  predicate Leads(s: Settings, log: seq<Event>, e: Event) {
    var n := |log|;
    && (e.PublishCalled? ==> n > 0 && log[n - 1].SlotGranted?)
    && (e.SlotGranted? || e.SlotDenied? ==> n > 0 && log[n - 1].UpstreamHead?)
    && (e.UpstreamHead? ==> n > 0 && log[n - 1].FreshGatePassed?)
    && (e.FreshGatePassed? ==> n > 0 && log[n - 1].IssueUnchanged?)
    && (e.IssueUnchanged? ==> s.publish && s.draftPrMode && !s.humanApproval && s.gitHubSource)
  }

  lemma PublicationLeads(s: Settings, gate: Diff -> bool, log: seq<Event>, e: Event)
    requires MayFollow(s, gate, log, e) && Publication(e)
    ensures Leads(s, log, e)
  {
    hide TallyOf;
    match e {
      case PublishCalled(_, _) =>
      case SlotGranted =>
      case SlotDenied =>
      case UpstreamHead(_) =>
      case FreshGatePassed =>
      case IssueUnchanged =>
    }
  }

  lemma Predecessor(s: Settings, gate: Diff -> bool, log: seq<Event>, k: nat)
    requires Orderly(s, gate, log) && k < |log| && Publication(log[k])
    ensures Leads(s, log[..k], log[k])
  {
    hide MayFollow, Leads;
    PublicationLeads(s, gate, log[..k], log[k]);
  }

  /** A slot is taken, and the publisher called, only when publication is asked for and possible. */
  lemma PublishingIsAskedFor(s: Settings, gate: Diff -> bool, log: seq<Event>, k: nat)
    requires Orderly(s, gate, log) && k < |log|
    requires log[k].SlotGranted? || log[k].SlotDenied? || log[k].PublishCalled?
    ensures s.publish && s.draftPrMode && !s.humanApproval && s.gitHubSource
  {
    hide Orderly;
    Predecessor(s, gate, log, k);
    assert log[..k][k - 1] == log[k - 1];
    var slot := if log[k].PublishCalled? then k - 1 else k;
    Predecessor(s, gate, log, slot);
    Predecessor(s, gate, log, slot - 1);
    Predecessor(s, gate, log, slot - 2);
    Predecessor(s, gate, log, slot - 3);
  }

  lemma MayInspect(s: Settings, gate: Diff -> bool, log: seq<Event>)
    requires |log| > 0 && (Implemented(log[|log| - 1]) || log[|log| - 1].TestsRun? || ApprovedBy(log[|log| - 1]))
    ensures MayFollow(s, gate, log, DiffRead(""))
  {
  }

  lemma MayReadHead(s: Settings, gate: Diff -> bool, log: seq<Event>)
    requires LookedAgain(log)
    ensures MayFollow(s, gate, log, HeadRead("")) && MayFollow(s, gate, log, HeadUnreadable)
  {
  }

  lemma MayImplement(s: Settings, gate: Diff -> bool, log: seq<Event>)
    requires |log| > 0
    requires Planned(log[|log| - 1], s) ||
             (TallyOf(log).rounds <= s.maxRepairCycles && (RoundFailed(log) || SentBack(log[|log| - 1])))
    ensures MayFollow(s, gate, log, AgentRun(ImplementAgent, 1, None, None))
  {
  }

  lemma MayTest(s: Settings, gate: Diff -> bool, log: seq<Event>)
    requires if s.setupCommands > 0 && TallyOf(log).rounds == 0
             then |log| > 0 && log[|log| - 1].SetupRun? && AllPassed(log[|log| - 1].results) else CycleGated(log)
    ensures MayFollow(s, gate, log, TestsRun([]))
  {
  }

  lemma MayAskIssue(s: Settings, gate: Diff -> bool, log: seq<Event>)
    requires |log| > 0 && MayPublish(s) && log[|log| - 1].Bundle?
    ensures MayFollow(s, gate, log, IssueUnchanged) && MayFollow(s, gate, log, IssueMoved)
  {
  }

  lemma MayAskGate(s: Settings, gate: Diff -> bool, log: seq<Event>)
    requires |log| > 0 && log[|log| - 1].IssueUnchanged?
    ensures MayFollow(s, gate, log, FreshGatePassed) && MayFollow(s, gate, log, FreshGateFailed)
  {
  }

  lemma MayAskHead(s: Settings, gate: Diff -> bool, log: seq<Event>, head: string)
    requires |log| > 0 && log[|log| - 1].FreshGatePassed?
    ensures MayFollow(s, gate, log, UpstreamHead(head))
  {
  }

  lemma MayAskSlot(s: Settings, gate: Diff -> bool, log: seq<Event>)
    requires |log| > 0 && log[|log| - 1].UpstreamHead? && log[0] == BaseRead(log[|log| - 1].head)
    ensures MayFollow(s, gate, log, SlotGranted) && MayFollow(s, gate, log, SlotDenied)
  {
  }

  lemma MayCallPublisher(s: Settings, gate: Diff -> bool, log: seq<Event>, base: string, d: Diff)
    requires |log| >= 5 && log[|log| - 1].SlotGranted? && log[|log| - 5] == Bundle(base, d)
    ensures MayFollow(s, gate, log, PublishCalled(base, d))
  {
  }

  lemma UpstreamRefused(s: Settings, log: seq<Event>)
    requires |log| > 0
    ensures log[|log| - 1].IssueMoved? || log[|log| - 1].FreshGateFailed? ==> Justified(s, log, UpstreamMoved, Aborted)
    ensures log[|log| - 1].UpstreamHead? && log[0] != BaseRead(log[|log| - 1].head) ==>
      Justified(s, log, UpstreamMoved, Aborted)
    ensures log[|log| - 1].SlotDenied? || (log[|log| - 1].Bundle? && (s.humanApproval || !s.gitHubSource)) ==>
      Justified(s, log, PolicyDenied, Aborted)
  {
  }

  lemma DiffRefused(s: Settings, log: seq<Event>)
    requires DiffChanged(log)
    ensures Justified(s, log, PolicyDenied, Aborted)
  {
  }

  lemma RoundRefused(s: Settings, log: seq<Event>)
    requires RoundFailed(log) && TallyOf(log).rounds == s.maxRepairCycles + 1
    ensures Justified(s, log, FailureCode.TestFailed, Aborted)
  {
  }

  lemma PatchRefused(s: Settings, log: seq<Event>)
    requires |log| > 0 && RepliedBy(log[|log| - 1], ReviewAgent) && !ApprovedBy(log[|log| - 1])
    requires log[|log| - 1].reply.value.status == "abandon" || TallyOf(log).rounds == s.maxRepairCycles + 1
    ensures Justified(s, log, ReviewRejected, Aborted)
  {
  }

  lemma PlanRefused(s: Settings, log: seq<Event>)
    requires |log| > 0 && RepliedBy(log[|log| - 1], PlanAgent)
    ensures log[|log| - 1].reply.value.status != "planned" ==> Justified(s, log, NoReproduction, Aborted)
    ensures PlanTooLarge(log[|log| - 1], s) ==> Justified(s, log, BudgetExhausted, Deferred)
  {
  }

  lemma WorkRefused(s: Settings, log: seq<Event>)
    requires |log| > 0 && RepliedBy(log[|log| - 1], ImplementAgent) && !Implemented(log[|log| - 1])
    ensures Justified(s, log, FailureCode.AgentFailed, Aborted)
  {
  }

  class World {
    ghost const settings: Settings
    ghost const gate: Diff -> bool
    var head: string
    var diff: Diff
    ghost var log: seq<Event>

    constructor (head: string, diff: Diff, ghost settings: Settings, ghost gate: Diff -> bool)
      ensures log == [] && this.settings == settings && this.gate == gate
    {
      this.head, this.diff, log := head, diff, [];
      this.settings, this.gate := settings, gate;
    }

    /** The log so far keeps the numbering and the order. */
    ghost predicate Kept()
      reads this
    {
      Numbered(log) && Orderly(settings, gate, log)
    }

    ghost predicate May(e: Event)
      reads this
    {
      MayFollow(settings, gate, log, e)
    }

    /** Anyone may change the workspace while the controller waits. */
    method Interfere()
      modifies this`head, this`diff
    {
      head := *;
      diff := *;
    }

    ghost method Note(e: Event)
      requires Kept() && May(e) && (e.AgentRun? ==> e.attempt == 1 + TallyOf(log).Of(e.stage))
      modifies this`log
      ensures log == old(log) + [e]
      ensures Kept() && TallyOf(log) == TallyOf(old(log)).With(e)
    {
      AppendNumbered(log, e);
      AppendOrderly(settings, gate, log, e);
      assert (log + [e])[..|log|] == log;
      log := log + [e];
    }

    /** A call that raises, with any exception but the publisher's own. */
    method Raise() returns (f: Fault)
      ensures f.Raised? && !f.kind.PublicationFailure?
    {
      var k: Kind := *;
      f := Raised(if k.PublicationFailure? then OsFailure else k);
    }

    /** `AuditJournal.append`, which raises an `OSError` when the record cannot be written. */
    method Append() returns (r: Try<()>)
      modifies this`head, this`diff
      ensures r.Thrown? ==> r.fault == Raised(OsFailure) || r.fault == Raised(Unlisted)
    {
      Interfere();
      var fails: bool := *;
      var interrupted: bool := *;
      r := if interrupted then Thrown(Raised(Unlisted)) else if fails then Thrown(Raised(OsFailure)) else Done(());
    }

    /** Any other call without a result. */
    method Call() returns (r: Try<()>)
      modifies this`head, this`diff
      ensures r.Thrown? ==> r.fault.Raised? && !r.fault.kind.PublicationFailure?
    {
      Interfere();
      var fails: bool := *;
      if fails {
        var f := Raise();
        return Thrown(f);
      }
      r := Done(());
    }

    method InspectDiff() returns (r: Try<Diff>)
      modifies this
      requires Kept() && May(DiffRead(""))
      ensures Kept() && TallyOf(log) == TallyOf(old(log))
      ensures r.Done? ==> r.value == diff && log == old(log) + [DiffRead(r.value)]
      ensures r.Thrown? ==> log == old(log) && r.fault.Raised? && !r.fault.kind.PublicationFailure?
    {
      var _ :- Call();
      Note(DiffRead(diff));
      r := Done(diff);
    }

    /** `git rev-parse HEAD`, which refuses an unsafe Git configuration and reports its own failure. */
    method RevParseHead(isBase: bool) returns (r: Try<string>)
      modifies this
      requires Kept() && May(if isBase then BaseRead("") else HeadRead("")) && May(HeadUnreadable)
      ensures Kept() && TallyOf(log) == TallyOf(old(log))
      ensures r.Done? ==>
        r.value == head && log == old(log) + [if isBase then BaseRead(r.value) else HeadRead(r.value)]
      ensures r.Thrown? && r.fault.Raised? ==> log == old(log) && !r.fault.kind.PublicationFailure?
      ensures r.Thrown? && r.fault.Abort? ==>
        log == old(log) + [HeadUnreadable] && r.fault.stage == Aborted && r.fault.code in {PolicyDenied, AgentFailed}
    {
      var _ :- Call();
      var unsafe: bool := *;
      if unsafe {
        Note(HeadUnreadable);
        return Thrown(Abort(PolicyDenied, Aborted));
      }
      var failed: bool := *;
      if failed {
        Note(HeadUnreadable);
        return Thrown(Abort(AgentFailed, Aborted));
      }
      Note(if isBase then BaseRead(head) else HeadRead(head));
      r := Done(head);
    }

    /** `run_commands`: stops at the first command that fails. */
    method RunCommands(commands: nat, setup: bool) returns (r: Try<seq<bool>>)
      modifies this
      requires Kept() && May(if setup then SetupRun([]) else TestsRun([]))
      ensures Kept()
      ensures TallyOf(log) == if r.Done? && !setup then TallyOf(old(log)).With(TestsRun(r.value)) else TallyOf(old(log))
      ensures r.Done? ==> log == old(log) + [if setup then SetupRun(r.value) else TestsRun(r.value)]
      ensures r.Done? ==> ((forall b :: b in r.value ==> b) ==> |r.value| == commands)
      ensures r.Thrown? ==> log == old(log) && r.fault.Raised? && !r.fault.kind.PublicationFailure?
    {
      var results: seq<bool> := [];
      var i := 0;
      while i < commands
        invariant 0 <= i <= commands && |results| == i && log == old(log)
      {
        var _ :- Call();
        var passed: bool := *;
        results := results + [passed];
        i := i + 1;
        if !passed {
          assert results[i - 1] in results;
          break;
        }
      }
      Note(if setup then SetupRun(results) else TestsRun(results));
      r := Done(results);
    }

    method RunAgent(stage: AgentStage, attempt: nat, shown: Option<Diff>) returns (r: Try<Reply>)
      requires Kept() && May(AgentRun(stage, attempt, shown, None)) && attempt == 1 + TallyOf(log).Of(stage)
      modifies this
      ensures log == old(log) + [AgentRun(stage, attempt, shown, if r.Done? then Some(r.value) else None)]
      ensures Kept() && TallyOf(log) == TallyOf(old(log)).With(log[|log| - 1])
      ensures r.Thrown? ==> r.fault.Raised? && !r.fault.kind.PublicationFailure?
    {
      var called := Call();
      if called.Thrown? {
        Note(AgentRun(stage, attempt, shown, None));
        return Thrown(called.fault);
      }
      var reply: Reply := *;
      Note(AgentRun(stage, attempt, shown, Some(reply)));
      r := Done(reply);
    }

    /** A yes-or-no question to GitHub or to the publication ledger. */
    method Ask() returns (r: Try<bool>)
      modifies this`head, this`diff
      ensures r.Thrown? ==> r.fault.Raised? && !r.fault.kind.PublicationFailure?
    {
      var _ :- Call();
      var answer: bool := *;
      r := Done(answer);
    }

    method BranchHead() returns (r: Try<string>)
      modifies this`head, this`diff
      ensures r.Thrown? ==> r.fault.Raised? && !r.fault.kind.PublicationFailure?
    {
      var _ :- Call();
      var upstream: string := *;
      r := Done(upstream);
    }

    /** The publisher may raise anything, having done anything. */
    method Publish(base: string, diff: Diff) returns (r: Try<string>)
      modifies this
      requires Kept() && May(PublishCalled(base, diff))
      ensures Kept() && TallyOf(log) == TallyOf(old(log))
      ensures log == old(log) + [PublishCalled(base, diff)]
      ensures r.Thrown? ==> r.fault.Raised?
    {
      Interfere();
      Note(PublishCalled(base, diff));
      var fails: bool := *;
      if fails {
        var k: Kind := *;
        return Thrown(Raised(k));
      }
      var url: string := *;
      r := Done(url);
    }
  }

  /** The workspace lease: whether it knows a path, and whether that directory still exists. */
  class Lease {
    var hasPath: bool
    var present: bool
    ghost var refused: bool  // a removal failed

    constructor ()
      ensures !hasPath && !present && !refused
    {
      hasPath, present, refused := false, false, false;
    }

    /** A failed entry leaves no path, unless its unmarked directory could not be removed. */
    method Enter() returns (r: Try<()>)
      modifies this`hasPath, this`present
      ensures r.Done? ==> hasPath && present
      ensures r.Thrown? ==> hasPath == present && r.fault.Raised? && !r.fault.kind.PublicationFailure?
    {
      var ok: bool := *;
      var stuck: bool := *;
      if ok {
        hasPath, present := true, true;
        return Done(());
      }
      hasPath, present := stuck, stuck;
      var other: bool := *;
      r := Thrown(Raised(if stuck then WorkspaceFailure else if other then Unlisted else OsFailure));
    }

    method Cleanup() returns (ok: bool)
      modifies this`present, this`refused
      ensures ok && hasPath ==> !present
      ensures !ok ==> present == old(present) && refused
    {
      var removed: bool := *;
      if !hasPath || removed {
        present := present && !hasPath;
        return true;
      }
      ok, refused := false, true;
    }
  }

  // ---- what the log must look like ----

  /** The events before position `n` end with `d` gated, verified by every command, and unchanged. */
  predicate VerifiedAt(log: seq<Event>, n: nat, base: string, d: Diff, gate: Diff -> bool, commands: nat)
    requires n <= |log|
  {
    && n >= 6 && gate(d)
    && log[n - 1] == HeadRead(base) && log[n - 2] == GatePassed(d) && log[n - 3] == DiffRead(d)
    && log[n - 4].TestsRun? && AllPassed(log[n - 4].results) && |log[n - 4].results| == commands
    && (if log[n - 5].SetupRun? then
          n >= 7 && AllPassed(log[n - 5].results) && log[n - 6] == GatePassed(d) && log[n - 7] == DiffRead(d)
        else log[n - 5] == GatePassed(d) && log[n - 6] == DiffRead(d))
  }

  /**
   The events before position `n` end one unbroken repair cycle on `d`: gated, verified by every
   configured command, unchanged on the base commit, and approved by the review that was given it.
   */
  predicate ReviewedAt(log: seq<Event>, n: nat, base: string, d: Diff, gate: Diff -> bool, commands: nat)
    requires n <= |log|
  {
    && n >= 1
    && log[n - 1].AgentRun? && log[n - 1].stage == ReviewAgent && log[n - 1].shown == Some(d)
    && log[n - 1].reply.Some? && Approving(log[n - 1].reply.value)
    && VerifiedAt(log, n - 1, base, d, gate, commands)
  }

  /** A reviewed log, after which diff and HEAD were read once more and were the same. */
  predicate ReadyToApprove(log: seq<Event>, base: string, d: Diff, gate: Diff -> bool, commands: nat) {
    && |log| >= 2 && log[0] == BaseRead(base)
    && log[|log| - 1] == HeadRead(base) && log[|log| - 2] == DiffRead(d)
    && ReviewedAt(log, |log| - 2, base, d, gate, commands)
  }

  lemma RereadIsReady(log: seq<Event>, base: string, d: Diff, gate: Diff -> bool, commands: nat)
    requires |log| > 0 && log[0] == BaseRead(base) && ReviewedAt(log, |log|, base, d, gate, commands)
    ensures ReadyToApprove(log + [DiffRead(d), HeadRead(base)], base, d, gate, commands)
  {
  }

  /** The bundle at `k` follows such a cycle directly, after both were read once more. */
  predicate EarnedBundle(log: seq<Event>, k: nat, gate: Diff -> bool, commands: nat)
    requires k < |log| && log[k].Bundle?
  {
    var (base, d) := (log[k].head, log[k].diff);
    && log[0] == BaseRead(base)
    && k >= 2 && log[k - 1] == HeadRead(base) && log[k - 2] == DiffRead(d)
    && ReviewedAt(log, k - 2, base, d, gate, commands)
  }

  /** The publisher is called at `k` only right after the bundle and the fresh upstream checks. */
  predicate EarnedPublish(log: seq<Event>, k: nat)
    requires k < |log| && log[k].PublishCalled?
  {
    && k >= 5 && log[k - 5] == Bundle(log[k].head, log[k].diff)
    && log[k - 4] == IssueUnchanged && log[k - 3] == FreshGatePassed
    && log[k - 2] == UpstreamHead(log[k].head) && log[k - 1] == SlotGranted
  }

  predicate HasBundle(log: seq<Event>) {
    exists k :: 0 <= k < |log| && log[k].Bundle?
  }

  predicate HasPublish(log: seq<Event>) {
    exists k :: 0 <= k < |log| && log[k].PublishCalled?
  }

  /** No approval and no publication from position `n` on. */
  predicate QuietFrom(log: seq<Event>, n: nat) {
    n <= |log| && forall k :: n <= k < |log| ==> !log[k].Bundle? && !log[k].PublishCalled?
  }

  /** Approval provenance for a whole run. */
  predicate Provenance(log: seq<Event>, gate: Diff -> bool, commands: nat) {
    && (forall k :: 0 <= k < |log| && log[k].Bundle? ==> EarnedBundle(log, k, gate, commands))
    && (forall k :: 0 <= k < |log| && log[k].PublishCalled? ==> EarnedPublish(log, k))
    && (forall i, j :: 0 <= i < j < |log| ==> !(log[i].Bundle? && log[j].Bundle?))
    && (forall i, j :: 0 <= i < j < |log| ==> !(log[i].PublishCalled? && log[j].PublishCalled?))
  }

  predicate OneCycle(log: seq<Event>, first: nat, k: nat, gate: Diff -> bool, commands: nat)
    requires first <= k < |log| && log[k].Bundle?
  {
    forall j :: first <= j < k ==>
      match log[j]
      case DiffRead(d) => d == log[k].diff
      case GatePassed(d) => d == log[k].diff && gate(d)
      case HeadRead(h) => h == log[k].head && log[0] == BaseRead(h)
      case SetupRun(results) => AllPassed(results)
      case TestsRun(results) => AllPassed(results) && |results| == commands
      case AgentRun(stage, _, shown, reply) =>
        stage == ReviewAgent && shown == Some(log[k].diff) && reply.Some? && Approving(reply.value)
      case _ => false
  }

  /** Where the steps of one repair cycle stand in the log. */
  datatype Cycle = Cycle(first: nat, gate: nat, tests: nat, regate: nat, review: nat, reread: nat)

  /** The steps that a bundle at `k` must have behind it, in order and all about its own diff and head. */
  predicate WholeCycle(log: seq<Event>, c: Cycle, k: nat, gate: Diff -> bool, commands: nat)
    requires k < |log| && log[k].Bundle?
  {
    var d := log[k].diff;
    && 0 < c.first < c.gate < c.tests < c.regate < c.review < c.reread < k
    && log[c.first] == DiffRead(d)
    && log[c.gate] == GatePassed(d) && gate(d)
    && log[c.tests].TestsRun? && |log[c.tests].results| == commands && AllPassed(log[c.tests].results)
    && log[c.regate] == GatePassed(d)
    && log[c.review].AgentRun? && log[c.review].stage == ReviewAgent && log[c.review].shown == Some(d)
    && log[c.review].reply.Some? && log[c.review].reply.value.status == "approve" && log[c.review].reply.value.supported
    && log[c.review].reply.value.missing == 0 && log[c.review].reply.value.findings == 0
    && log[c.reread] == DiffRead(d)
    && log[k - 1] == HeadRead(log[k].head) && log[0] == BaseRead(log[k].head)
  }

  /**
   What provenance means: behind every bundle stand, in this order, a reading of its diff, the gate
   on it, a round in which every configured test passed, the gate again, the approving review that
   was given it, and a last reading; and from the first of these on nothing else was read, gated or
   approved, no implementation agent ran, and HEAD was only ever read as the base.
   */
  lemma BundleComesFromOneCycle(log: seq<Event>, k: nat, gate: Diff -> bool, commands: nat) returns (c: Cycle)
    requires Provenance(log, gate, commands) && k < |log| && log[k].Bundle?
    ensures WholeCycle(log, c, k, gate, commands) && OneCycle(log, c.first, k, gate, commands)
  {
    assert EarnedBundle(log, k, gate, commands);
    var first := if log[k - 8].SetupRun? then k - 10 else k - 9;
    c := Cycle(first, first + 1, k - 7, k - 5, k - 3, k - 2);
  }

  lemma QuietKeepsProvenance(log: seq<Event>, more: seq<Event>, gate: Diff -> bool, commands: nat)
    requires Provenance(log, gate, commands) && log <= more && QuietFrom(more, |log|)
    ensures Provenance(more, gate, commands)
    ensures HasBundle(more) <==> HasBundle(log)
    ensures HasPublish(more) <==> HasPublish(log)
  {
    assert forall k :: 0 <= k < |log| ==> more[k] == log[k];
    assert more[..|log|] == log;
  }

  lemma QuietIsProvenance(log: seq<Event>, gate: Diff -> bool, commands: nat)
    requires QuietFrom(log, 0)
    ensures Provenance(log, gate, commands) && !HasPublish(log) && !HasBundle(log)
  {
  }

  lemma BundleKeepsProvenance(log: seq<Event>, base: string, d: Diff, gate: Diff -> bool, commands: nat)
    requires QuietFrom(log, 0) && ReadyToApprove(log, base, d, gate, commands)
    ensures Provenance(log + [Bundle(base, d)], gate, commands) && !HasPublish(log + [Bundle(base, d)])
    ensures HasBundle(log + [Bundle(base, d)])
  {
    var more := log + [Bundle(base, d)];
    assert forall k :: 0 <= k < |log| ==> more[k] == log[k];
    assert more[|log|] == Bundle(base, d);
    assert EarnedBundle(more, |log|, gate, commands);
  }

  lemma LastIsPublish(log: seq<Event>, e: Event)
    requires e.PublishCalled?
    ensures HasPublish(log + [e])
  {
    assert (log + [e])[|log|] == e;
  }

  lemma PublishKeepsProvenance(log: seq<Event>, e: Event, gate: Diff -> bool, commands: nat)
    requires Provenance(log, gate, commands) && !HasPublish(log) && e.PublishCalled?
    requires EarnedPublish(log + [e], |log|)
    ensures Provenance(log + [e], gate, commands)
    ensures HasBundle(log) ==> HasBundle(log + [e])
  {
    var more := log + [e];
    assert forall k :: 0 <= k < |log| ==> more[k] == log[k];
    forall k | 0 <= k < |more| && more[k].Bundle?
      ensures EarnedBundle(more, k, gate, commands)
    {
      assert EarnedBundle(log, k, gate, commands);
    }
  }

  // ---- what the handlers report ----

  /** Stages in which a publication may have happened. */
  predicate Publicizing(stage: RunStage) {
    stage in {Publishing, PrOpen}
  }

  /** The code that both handlers give to a listed exception. */
  function Classify(uncertain: bool, kind: Kind): FailureCode {
    if uncertain || kind.PublicationFailure? then PublishPartial
    else match kind
      case GitHubFailure(retryable) => if retryable then RateLimited else AuthFailed
      case AgentOutput => InvalidOutput
      case RunnerFailure(notInstalled) => if notInstalled then RuntimeUnavailable else FailureCode.AgentFailed
      case _ => FailureCode.AgentFailed
  }

  /** Which exceptions get which code. */
  lemma ClassifyExactly(uncertain: bool, kind: Kind)
    ensures var code := Classify(uncertain, kind);
            && (code.PublishPartial? <==> uncertain || kind.PublicationFailure?)
            && (code.RateLimited? <==> !uncertain && kind.GitHubFailure? && kind.retryable)
            && (code.AuthFailed? <==> !uncertain && kind.GitHubFailure? && !kind.retryable)
            && (code.InvalidOutput? <==> !uncertain && kind.AgentOutput?)
            && (code.RuntimeUnavailable? <==> !uncertain && kind.RunnerFailure? && kind.notInstalled)
            && (code.AgentFailed? <==>
                  !uncertain && (kind in {WorkspaceFailure, OsFailure, SqliteFailure, SubprocessFailure, Unlisted}
                                 || kind == RunnerFailure(false)))
  {
  }

  /** What a run has recorded about itself, and the exception that is on its way out. */
  datatype Recorded = Recorded(stage: RunStage, code: Option<FailureCode>, escaping: Option<Kind>)

  /** A fault, the stage that it struck in, and what the audit append of its handler raised, if anything. */
  datatype Strike = Strike(stage: RunStage, fault: Fault, append: Option<Kind>)

  /** The `except` clauses of the cycle.  An exception that none of them names passes through. */
  function InCycle(s: Strike): Recorded {
    match s.fault
    case Abort(code, abortStage) => Recorded(abortStage, Some(code), s.append)
    case Raised(kind) =>
      if kind.Unlisted? then Recorded(s.stage, None, Some(Unlisted))
      else Recorded(RunStage.Failed, Some(Classify(Publicizing(s.stage), kind)), s.append)
  }

  datatype Cleanup = NotNeeded | Proven | Unproven

  /** The `finally` block: the stage and code after the cleanup, which keeps the first code. */
  function Cleaned(r: Recorded, cleanup: Cleanup): Recorded {
    match cleanup
    case NotNeeded => r
    case Proven => if r.stage == PrOpen then r.(stage := Complete) else r
    case Unproven => r.(stage := CleanupPending, code := if r.code.Some? then r.code else Some(CleanupFailed))
  }

  /** The handler of `run`, whose own append may raise as well: then no outcome is returned. */
  function InRun(r: Recorded, append: Option<Kind>): Option<(RunStage, Option<FailureCode>)> {
    match r.escaping
    case None => Some((r.stage, r.code))
    case Some(kind) =>
      if kind.Unlisted? || append.Some? then None
      else Some((RunStage.Failed, Some(Classify(Publicizing(r.stage), kind))))
  }

  /** The outcome that a caller of `run` gets after a strike. */
  function Reported(s: Strike, cleanup: Cleanup, append: Option<Kind>): Option<(RunStage, Option<FailureCode>)> {
    InRun(Cleaned(InCycle(s), cleanup), append)
  }

  /** What the two raises can be: an audit append fails with an OSError, or with something unnamed. */
  predicate PossibleStrike(s: Strike) {
    && (s.fault.Abort? ==> PlainFault(s.fault))
    && s.append in {None, Some(OsFailure), Some(Unlisted)}
  }

  /** A listed exception that leaves it open whether something was published. */
  predicate Doubtful(s: Strike) {
    s.fault.Raised? && !s.fault.kind.Unlisted? && (Publicizing(s.stage) || s.fault.kind.PublicationFailure?)
  }

  /**
   A doubtful publication is reported as such if and only if the handler's own audit append
   succeeded; nothing else is ever reported so, however the cleanup ends.
   */
  lemma PartialIffAppended(s: Strike, cleanup: Cleanup, append: Option<Kind>)
    requires PossibleStrike(s)
    ensures var outcome := Reported(s, cleanup, append);
            outcome.Some? && outcome.value.1 == Some(PublishPartial) <==> Doubtful(s) && s.append.None?
  {
  }

  /**
   The outcome after a strike.  An unnamed exception leaves without one; an append that failed is all
   that is reported of the fault before it; otherwise the fault's own code is, with its stage unless
   the cleanup is unproven.
   */
  lemma ReportedExactly(s: Strike, cleanup: Cleanup, append: Option<Kind>)
    requires PossibleStrike(s)
    ensures var outcome := Reported(s, cleanup, append);
            var unnamed := s.fault == Raised(Unlisted) || s.append == Some(Unlisted);
            && (unnamed ==> outcome.None?)
            && (!unnamed && s.append == Some(OsFailure) ==>
                  outcome == if append.Some? then None else Some((RunStage.Failed, Some(FailureCode.AgentFailed))))
            && (!unnamed && s.append.None? ==>
                  && outcome.Some?
                  && outcome.value.0 == (if cleanup.Unproven? then CleanupPending
                                         else if s.fault.Abort? then s.fault.stage else RunStage.Failed)
                  && outcome.value.1
                      == Some(if s.fault.Abort? then s.fault.code else Classify(Publicizing(s.stage), s.fault.kind)))
  {
  }

  /** The failing case: the publisher raises, the append meets a full disk, and the run reports an agent failure. */
  lemma PartialCanBeLost(cleanup: Cleanup) returns (s: Strike)
    ensures PossibleStrike(s) && Doubtful(s) && s.stage == Publishing
    ensures Reported(s, cleanup, None) == Some((RunStage.Failed, Some(FailureCode.AgentFailed)))
  {
    s := Strike(Publishing, Raised(PublicationFailure), Some(OsFailure));
  }

  // ---- the controller ----

  class Controller {
    const settings: Settings
    const gate: Diff -> bool
    const world: World
    const lease: Lease
    const runner: Containers.AgentRunner
    var stage: RunStage
    var failureCode: Option<FailureCode>
    var attempts: map<AgentStage, nat>
    ghost var struck: Option<Strike>  // the fault that ended the work, if one did

    constructor (settings: Settings, gate: Diff -> bool, world: World, lease: Lease, runner: Containers.AgentRunner)
      requires world.settings == settings && world.gate == gate
      ensures this.settings == settings && this.gate == gate && this.world == world && this.lease == lease
      ensures this.runner == runner && stage == Selected && failureCode == None && attempts == map[] && struck.None?
    {
      this.settings, this.gate, this.world, this.lease, this.runner := settings, gate, world, lease, runner;
      stage, failureCode, attempts, struck := Selected, None, map[], None;
    }

    /** The telemetry counters agree with the invocations that took place. */
    ghost predicate Counted()
      reads this, world
    {
      && world.settings == settings && world.gate == gate && world.Kept()
      && forall s :: TallyOf(world.log).Of(s) == if s in attempts then attempts[s] else 0
    }

    ghost predicate May(e: Event)
      reads world
    {
      MayFollow(settings, gate, world.log, e)
    }

    /** A fault that the work before publication may end with; an abort has its reason at the end of the log. */
    ghost predicate Reasoned(f: Fault)
      reads world
    {
      PlainFault(f) && (f.Abort? ==> Justified(settings, world.log, f.code, f.stage))
    }

    ghost predicate Bounded()
      reads world
    {
      var (t, rounds) := (TallyOf(world.log), settings.maxRepairCycles + 1);
      t.plans <= 1 && t.implementations <= rounds && t.reviews <= rounds && t.rounds <= rounds
    }

    /** `_run_agent` with `_RunTelemetry.start_invocation`. */
    method Invoke(agent: AgentStage, shown: Option<Diff>) returns (r: Try<Reply>)
      requires Counted() && May(AgentRun(agent, 1, shown, None))
      modifies this`attempts, world
      ensures Counted()
      ensures world.log == old(world.log) + [AgentRun(agent, 1 + TallyOf(old(world.log)).Of(agent), shown,
                                                      if r.Done? then Some(r.value) else None)]
      ensures TallyOf(world.log) == TallyOf(old(world.log)).With(world.log[|world.log| - 1])
      ensures r.Thrown? ==> r.fault.Raised? && !r.fault.kind.PublicationFailure?
    {
      hide TallyOf, Numbered, Orderly;
      var attempt := (if agent in attempts then attempts[agent] else 0) + 1;
      attempts := attempts[agent := attempt];
      r := world.RunAgent(agent, attempt, shown);
    }

    /** The clone, and the base commit that it is at. */
    method Clone() returns (r: Try<string>)
      requires Counted() && world.log == []
      modifies this`stage, world
      ensures Counted() && TallyOf(world.log) == TallyOf(old(world.log)) && QuietFrom(world.log, 0)
      ensures r.Done? ==> world.log == [BaseRead(r.value)]
      ensures stage in {Preflight, SandboxReady}
      ensures r.Thrown? ==> Reasoned(r.fault)
    {
      hide TallyOf, Numbered, Orderly;
      stage := Preflight;
      var _ :- world.Append();
      var _ :- world.Call();
      var base :- world.RevParseHead(true);
      stage := SandboxReady;
      var _ :- world.Append();
      r := Done(base);
    }

    /** The planning call, whose plan must be one and fit the reservation. */
    method Plan() returns (r: Try<()>)
      requires Counted() && |world.log| == 1 && world.log[0].BaseRead? && TallyOf(world.log) == Tally(0, 0, 0, 0)
      modifies this`attempts, world
      ensures Counted() && QuietFrom(world.log, 0) && old(world.log) <= world.log && |world.log| > 1
      ensures TallyOf(world.log) == Tally(1, 0, 0, 0)
      ensures r.Done? ==> Planned(world.log[|world.log| - 1], settings)
      ensures r.Thrown? ==> Reasoned(r.fault)
    {
      hide TallyOf, Numbered, Orderly, Justified;
      assert May(AgentRun(PlanAgent, 1, None, None));
      hide MayFollow;
      var plan :- Invoke(PlanAgent, None);
      var _ :- world.Append();
      PlanRefused(settings, world.log);
      if plan.status != "planned" {
        return Thrown(Abort(NoReproduction, Aborted));
      }
      if plan.estimate.Some? && plan.estimate.value > settings.reservedTokens {
        return Thrown(Abort(BudgetExhausted, Deferred));
      }
      r := Done(());
    }

    /** Planning and the first implementation, on a fresh clone. */
    method PlanAndImplement() returns (r: Try<string>)
      requires Counted() && world.log == [] && TallyOf(world.log) == Tally(0, 0, 0, 0)
      modifies this`attempts, this`stage, world
      ensures Counted() && Bounded() && QuietFrom(world.log, 0)
      ensures r.Done? ==>
          TallyOf(world.log) == Tally(1, 1, 0, 0) && |world.log| > 0 && world.log[0] == BaseRead(r.value)
      ensures r.Done? ==> Implemented(world.log[|world.log| - 1])
      ensures stage !in {Publishing, PrOpen} && (r.Done? ==> stage == Implementing)
      ensures r.Thrown? ==> Reasoned(r.fault)
    {
      hide TallyOf, Numbered, Orderly;
      var base :- Clone();
      stage := Planning;
      var _ :- world.Append();
      hide MayFollow, Justified, Planned;
      var _ :- Plan();
      stage := Implementing;
      MayImplement(settings, gate, world.log);
      var _ :- Implement();
      r := Done(base);
    }

    /** One implementation or repair call. */
    method Implement() returns (r: Try<()>)
      requires Counted() && QuietFrom(world.log, 0) && |world.log| > 0 && May(AgentRun(ImplementAgent, 1, None, None))
      modifies this`attempts, world
      ensures Counted() && QuietFrom(world.log, 0) && old(world.log) <= world.log
      ensures r.Done? ==> Implemented(world.log[|world.log| - 1])
      ensures TallyOf(world.log) == TallyOf(old(world.log)) ||
              TallyOf(world.log)
                  == TallyOf(old(world.log)).(implementations := TallyOf(old(world.log)).implementations + 1)
      ensures r.Done? ==> TallyOf(world.log).implementations == TallyOf(old(world.log)).implementations + 1
      ensures r.Thrown? ==> Reasoned(r.fault)
    {
      hide TallyOf, Numbered, Orderly, MayFollow, Justified;
      var _ :- world.Append();
      var implementation :- Invoke(ImplementAgent, None);
      var _ :- world.Append();
      if implementation.status != "implemented" {
        WorkRefused(settings, world.log);
        return Thrown(Abort(FailureCode.AgentFailed, Aborted));
      }
      r := Done(());
    }

    /** Inspect the workspace, and go on only if the diff gate passes. */
    method InspectAndGate() returns (r: Try<Diff>)
      requires Counted() && May(DiffRead(""))
      modifies world
      ensures Counted() && TallyOf(world.log) == TallyOf(old(world.log))
      ensures r.Done? ==> gate(r.value) && world.log == old(world.log) + [DiffRead(r.value), GatePassed(r.value)]
      ensures old(world.log) <= world.log && QuietFrom(world.log, |old(world.log)|)
      ensures r.Thrown? ==> Reasoned(r.fault)
    {
      hide TallyOf, Numbered, Orderly;
      var diff :- world.InspectDiff();
      var _ :- world.Append();
      if !gate(diff) {
        world.Note(GateRefused(diff));
        return Thrown(Abort(PolicyDenied, Aborted));
      }
      world.Note(GatePassed(diff));
      r := Done(diff);
    }

    /** Read HEAD once more: it must still be the base commit. */
    method HeadMustBe(base: string) returns (r: Try<()>)
      requires Counted() && May(HeadRead("")) && |world.log| > 0 && world.log[0] == BaseRead(base)
      modifies world
      ensures Counted() && TallyOf(world.log) == TallyOf(old(world.log))
      ensures r.Done? ==> world.log == old(world.log) + [HeadRead(base)]
      ensures old(world.log) <= world.log && QuietFrom(world.log, |old(world.log)|)
      ensures r.Thrown? ==> Reasoned(r.fault)
    {
      hide TallyOf, Numbered, Orderly;
      var head :- world.RevParseHead(false);
      if head != base {
        return Thrown(Abort(PolicyDenied, Aborted));
      }
      r := Done(());
    }

    /** The setup commands, before the first verification only. */
    method SetUp(cycle: nat) returns (r: Try<()>)
      requires Counted() && CycleGated(world.log) && TallyOf(world.log).rounds == cycle
      modifies world
      ensures Counted() && TallyOf(world.log) == TallyOf(old(world.log))
      ensures r.Done? && (settings.setupCommands == 0 || cycle > 0) ==> world.log == old(world.log)
      ensures r.Done? && settings.setupCommands > 0 && cycle == 0 ==>
        && |world.log| == |old(world.log)| + 1 && old(world.log) <= world.log
        && world.log[|world.log| - 1].SetupRun? && AllPassed(world.log[|world.log| - 1].results)
      ensures old(world.log) <= world.log && QuietFrom(world.log, |old(world.log)|)
      ensures r.Thrown? ==> Reasoned(r.fault)
    {
      hide TallyOf, Numbered, Orderly;
      if settings.setupCommands > 0 && cycle == 0 {
        var setup :- world.RunCommands(settings.setupCommands, true);
        var _ :- world.Append();
        if !AllPassed(setup) {
          return Thrown(Abort(FailureCode.TestFailed, Aborted));
        }
      }
      r := Done(());
    }

    /** The configured tests, which must leave the diff and HEAD as they were, pass or fail. */
    method RunTests(diff: Diff, base: string) returns (r: Try<seq<bool>>)
      requires Counted() && May(TestsRun([])) && |world.log| > 1 && world.log[0] == BaseRead(base)
      requires GatedBefore(world.log, diff)
      modifies world
      ensures Counted() && old(world.log) <= world.log && QuietFrom(world.log, |old(world.log)|)
      ensures TallyOf(world.log) == TallyOf(old(world.log)) ||
              TallyOf(world.log) == TallyOf(old(world.log)).(rounds := TallyOf(old(world.log)).rounds + 1)
      ensures r.Done? ==> TallyOf(world.log).rounds == TallyOf(old(world.log)).rounds + 1
      ensures r.Done? ==>
          world.log == old(world.log) + [TestsRun(r.value), DiffRead(diff), GatePassed(diff), HeadRead(base)]
      ensures r.Done? && AllPassed(r.value) ==> |r.value| == settings.testCommands
      ensures r.Thrown? ==> Reasoned(r.fault)
    {
      hide TallyOf, Numbered, Orderly, MayFollow, Justified;
      var tests :- world.RunCommands(settings.testCommands, false);
      var _ :- world.Append();
      MayInspect(settings, gate, world.log);
      var after :- InspectAndGate();
      if after != diff {
        DiffRefused(settings, world.log);
        return Thrown(Abort(PolicyDenied, Aborted));
      }
      MayReadHead(settings, gate, world.log);
      var _ :- HeadMustBe(base);
      r := Done(tests);
    }

    /** Inspect, gate and set up: the diff that the tests are to run on. */
    method Prepare(cycle: nat, base: string) returns (r: Try<Diff>)
      requires Counted() && |world.log| > 1 && world.log[0] == BaseRead(base) && TallyOf(world.log).rounds == cycle
      requires Implemented(world.log[|world.log| - 1])
      modifies this`stage, world
      ensures Counted() && old(world.log) <= world.log && QuietFrom(world.log, |old(world.log)|)
      ensures TallyOf(world.log) == TallyOf(old(world.log))
      ensures stage in {old(stage), Verifying}
      ensures r.Done? ==> ReadyToTest(world.log, r.value, gate) && May(TestsRun([]))
      ensures r.Thrown? ==> Reasoned(r.fault)
    {
      hide TallyOf, Numbered, Orderly, MayFollow, Justified;
      MayInspect(settings, gate, world.log);
      var diff :- InspectAndGate();
      stage := Verifying;
      var _ :- SetUp(cycle);
      MayTest(settings, gate, world.log);
      r := Done(diff);
    }

    /** Inspect, gate, verify, inspect again: the diff that survived, and whether the tests passed. */
    method Verify(cycle: nat, base: string) returns (r: Try<(Diff, bool)>)
      requires Counted() && |world.log| > 1 && world.log[0] == BaseRead(base) && TallyOf(world.log).rounds == cycle
      requires Implemented(world.log[|world.log| - 1])
      modifies this`stage, world
      ensures Counted() && old(world.log) <= world.log && QuietFrom(world.log, |old(world.log)|)
      ensures TallyOf(world.log) == TallyOf(old(world.log)) ||
              TallyOf(world.log) == TallyOf(old(world.log)).(rounds := TallyOf(old(world.log)).rounds + 1)
      ensures r.Done? ==> TallyOf(world.log).rounds == TallyOf(old(world.log)).rounds + 1
      ensures stage in {old(stage), Verifying}
      ensures r.Done? && r.value.1 ==> VerifiedAt(world.log, |world.log|, base, r.value.0, gate, settings.testCommands)
      ensures r.Done? ==> if r.value.1 then RoundPassed(world.log, settings) else RoundFailed(world.log)
      ensures r.Thrown? ==> Reasoned(r.fault)
    {
      hide TallyOf, Numbered, Orderly, MayFollow, Justified, VerifiedAt, RoundPassed, RoundFailed;
      var diff :- Prepare(cycle, base);
      ghost var before := world.log;
      ReadyIsGated(before, diff, gate);
      var tests :- RunTests(diff, base);
      TestedIsRound(before, tests, diff, base, gate, settings);
      r := Done((diff, AllPassed(tests)));
    }

    /** The review of the verified diff. */
    method ReviewPatch(base: string, diff: Diff) returns (r: Try<Reply>)
      requires Counted() && VerifiedAt(world.log, |world.log|, base, diff, gate, settings.testCommands)
      requires RoundPassed(world.log, settings)
      modifies this`attempts, world
      ensures Counted() && old(world.log) <= world.log && QuietFrom(world.log, |old(world.log)|)
      ensures TallyOf(world.log) == TallyOf(old(world.log)) ||
              TallyOf(world.log) == TallyOf(old(world.log)).(reviews := TallyOf(old(world.log)).reviews + 1)
      ensures r.Done? ==> RepliedBy(world.log[|world.log| - 1], ReviewAgent)
      ensures r.Done? ==>
        world.log[|world.log| - 1].reply == Some(r.value) && world.log[|world.log| - 1].shown == Some(diff)
      ensures r.Done? ==> |world.log| > |old(world.log)|
      ensures r.Done? && Approving(r.value) ==>
          ReviewedAt(world.log, |world.log|, base, diff, gate, settings.testCommands)
      ensures r.Thrown? ==> Reasoned(r.fault)
    {
      hide TallyOf, Numbered, Orderly;
      var _ :- world.Append();
      var review :- Invoke(ReviewAgent, Some(diff));
      var _ :- world.Append();
      r := Done(review);
    }

    /** The repair loop: it ends normally only through an approving review. */
    method RepairLoop(base: string) returns (r: Try<Diff>)
      requires Counted() && QuietFrom(world.log, 0) && stage == Implementing
      requires TallyOf(world.log) == Tally(1, 1, 0, 0) && |world.log| > 1 && world.log[0] == BaseRead(base)
      requires Implemented(world.log[|world.log| - 1])
      modifies this`attempts, this`stage, world
      ensures Counted() && Bounded() && QuietFrom(world.log, 0) && old(world.log) <= world.log
      ensures r.Done? ==> ReviewedAt(world.log, |world.log|, base, r.value, gate, settings.testCommands)
      ensures r.Done? ==> ApprovedBy(world.log[|world.log| - 1]) && world.log[|world.log| - 1].shown == Some(r.value)
      ensures stage !in {Publishing, PrOpen} && (r.Done? ==> stage == Reviewing)
      ensures r.Thrown? ==> Reasoned(r.fault)
    {
      hide TallyOf, Numbered, Orderly, VerifiedAt, ReviewedAt, MayFollow, Justified, Implemented, ApprovedBy;
      for cycle := 0 to settings.maxRepairCycles + 1
        invariant cycle <= settings.maxRepairCycles
        invariant Counted() && QuietFrom(world.log, 0) && old(world.log) <= world.log && stage == Implementing
        invariant |world.log| > 1 && Implemented(world.log[|world.log| - 1])
        invariant TallyOf(world.log).plans == 1 && TallyOf(world.log).rounds == cycle
        invariant TallyOf(world.log).implementations == cycle + 1 && TallyOf(world.log).reviews <= cycle
      {
        var approved :- RepairCycle(cycle, base);
        if approved.Some? {
          return Done(approved.value);
        }
      }
      assert false;
    }

    /** One turn of the loop: the approved diff, or one more implementation, if the budget has one left. */
    method RepairCycle(cycle: nat, base: string) returns (r: Try<Option<Diff>>)
      requires Counted() && QuietFrom(world.log, 0) && stage == Implementing && cycle <= settings.maxRepairCycles
      requires |world.log| > 1 && world.log[0] == BaseRead(base) && Implemented(world.log[|world.log| - 1])
      requires TallyOf(world.log).plans == 1 && TallyOf(world.log).rounds == cycle
      requires TallyOf(world.log).implementations == cycle + 1 && TallyOf(world.log).reviews <= cycle
      modifies this`attempts, this`stage, world
      ensures Counted() && Bounded() && QuietFrom(world.log, 0) && old(world.log) <= world.log
      ensures r.Done? && r.value.Some? ==>
        && ReviewedAt(world.log, |world.log|, base, r.value.value, gate, settings.testCommands) && stage == Reviewing
        && ApprovedBy(world.log[|world.log| - 1]) && world.log[|world.log| - 1].shown == Some(r.value.value)
      ensures r.Done? && r.value.None? ==>
        && cycle < settings.maxRepairCycles && stage == Implementing && Implemented(world.log[|world.log| - 1])
        && TallyOf(world.log).plans == 1 && TallyOf(world.log).rounds == cycle + 1
        && TallyOf(world.log).implementations == cycle + 2 && TallyOf(world.log).reviews <= cycle + 1
      ensures stage !in {Publishing, PrOpen}
      ensures r.Thrown? ==> Reasoned(r.fault)
    {
      hide TallyOf, Numbered, Orderly, VerifiedAt, ReviewedAt, MayFollow, Justified, RoundPassed, RoundFailed;
      var verified :- Verify(cycle, base);
      var (diff, passed) := verified;
      if !passed {
        if cycle >= settings.maxRepairCycles {
          RoundRefused(settings, world.log);
          return Thrown(Abort(FailureCode.TestFailed, Aborted));
        }
        stage := Implementing;
        MayImplement(settings, gate, world.log);
        var _ :- Implement();
        return Done(None);
      }
      stage := Reviewing;
      var review :- ReviewPatch(base, diff);
      if Approving(review) {
        return Done(Some(diff));
      }
      if review.status == "abandon" || cycle >= settings.maxRepairCycles {
        PatchRefused(settings, world.log);
        return Thrown(Abort(ReviewRejected, Aborted));
      }
      stage := Implementing;
      MayImplement(settings, gate, world.log);
      var _ :- Implement();
      r := Done(None);
    }

    ghost predicate Fresh()
      reads this, world, lease
    {
      world.log == [] && !lease.hasPath && !lease.present && attempts == map[] && failureCode.None? && struck.None?
      && stage == Selected && world.settings == settings && world.gate == gate
    }

    /** The last look at the workspace before the approval. */
    method Reread(base: string, diff: Diff) returns (r: Try<()>)
      requires Counted() && |world.log| > 1 && world.log[0] == BaseRead(base)
      requires ApprovedBy(world.log[|world.log| - 1]) && world.log[|world.log| - 1].shown == Some(diff)
      modifies world
      ensures Counted() && TallyOf(world.log) == TallyOf(old(world.log))
      ensures r.Done? ==> world.log == old(world.log) + [DiffRead(diff), HeadRead(base)]
      ensures old(world.log) <= world.log && QuietFrom(world.log, |old(world.log)|)
      ensures r.Thrown? ==> Reasoned(r.fault)
    {
      hide TallyOf, Numbered, Orderly, MayFollow, Justified;
      var _ :- world.Append();
      MayInspect(settings, gate, world.log);
      var finalDiff :- world.InspectDiff();
      if finalDiff != diff {
        DiffRefused(settings, world.log);
        return Thrown(Abort(PolicyDenied, Aborted));
      }
      MayReadHead(settings, gate, world.log);
      var _ :- HeadMustBe(base);
      r := Done(());
    }

    /** From the empty directory to a reviewed diff, re-read just before the approval. */
    method ReachApproval() returns (r: Try<(string, Diff)>)
      requires Fresh()
      modifies this`attempts, this`stage, world, lease
      ensures Counted() && Bounded() && QuietFrom(world.log, 0)
      ensures lease.present <==> lease.hasPath
      ensures r.Done? ==> lease.hasPath && stage == Reviewing
      ensures r.Done? ==> ReadyToApprove(world.log, r.value.0, r.value.1, gate, settings.testCommands)
      ensures stage !in {Publishing, PrOpen}
      ensures r.Thrown? ==> Reasoned(r.fault)
    {
      assert TallyOf(world.log) == Tally(0, 0, 0, 0) && Orderly(settings, gate, world.log);
      hide TallyOf, Numbered, Orderly, ReadyToApprove, ReviewedAt;
      var _ :- lease.Enter();
      r := ReviewedThenReread();
    }

    /** The whole way from the clone to the last look. */
    method ReviewedThenReread() returns (r: Try<(string, Diff)>)
      requires Counted() && world.log == [] && TallyOf(world.log) == Tally(0, 0, 0, 0)
      modifies this`attempts, this`stage, world
      ensures Counted() && Bounded() && QuietFrom(world.log, 0)
      ensures r.Done? ==>
          stage == Reviewing && ReadyToApprove(world.log, r.value.0, r.value.1, gate, settings.testCommands)
      ensures stage !in {Publishing, PrOpen}
      ensures r.Thrown? ==> Reasoned(r.fault)
    {
      hide TallyOf, Numbered, Orderly, ReadyToApprove, ReviewedAt;
      var base :- PlanAndImplement();
      var diff :- RepairLoop(base);
      RereadIsReady(world.log, base, diff, gate, settings.testCommands);
      var _ :- Reread(base, diff);
      r := Done((base, diff));
    }

    /** The body of the `try`: an exception ends it wherever it is thrown. */
    method Attempt() returns (r: Try<()>)
      requires Fresh()
      modifies this`attempts, this`stage, world, lease
      ensures Provenance(world.log, gate, settings.testCommands)
      ensures Counted() && Bounded()
      ensures lease.present <==> lease.hasPath
      ensures r.Done? ==> stage in {PrOpen, Complete} && lease.hasPath && HasBundle(world.log)
      ensures HasPublish(world.log) ==> stage in {Publishing, PrOpen}
      ensures r.Thrown? && r.fault.Raised? && r.fault.kind.PublicationFailure? ==> stage == Publishing
      ensures r.Thrown? && r.fault.Abort? ==> Reasoned(r.fault) && stage !in {Publishing, PrOpen}
      ensures r.Done? ==> (HasPublish(world.log) <==> settings.publish && settings.draftPrMode)
    {
      hide TallyOf, Numbered, Orderly, Provenance, HasPublish, HasBundle;
      var reached := ReachApproval();
      QuietIsProvenance(world.log, gate, settings.testCommands);
      if reached.Thrown? {
        return Thrown(reached.fault);
      }
      var (base, diff) := reached.value;
      BundleKeepsProvenance(world.log, base, diff, gate, settings.testCommands);
      world.Note(Bundle(base, diff));
      var appended := world.Append();
      if appended.Thrown? {
        return Thrown(appended.fault);
      }
      r := PublishOrComplete(base, diff);
    }

    /** The fresh upstream checks and the publication slot. */
    method UpstreamChecks(base: string) returns (r: Try<()>)
      requires Counted() && settings.publish && settings.draftPrMode
      requires |world.log| > 1 && world.log[0] == BaseRead(base) && world.log[|world.log| - 1].Bundle?
      modifies world
      ensures Counted() && TallyOf(world.log) == TallyOf(old(world.log))
      ensures r.Done? ==>
          world.log == old(world.log) + [IssueUnchanged, FreshGatePassed, UpstreamHead(base), SlotGranted]
      ensures old(world.log) <= world.log && QuietFrom(world.log, |old(world.log)|)
      ensures r.Thrown? ==> Reasoned(r.fault)
    {
      hide TallyOf, Numbered, Orderly, MayFollow, Justified;
      UpstreamRefused(settings, world.log);
      if settings.humanApproval || !settings.gitHubSource {
        return Thrown(Abort(PolicyDenied, Aborted));
      }
      var same :- world.Ask();
      MayAskIssue(settings, gate, world.log);
      if !same {
        world.Note(IssueMoved);
        UpstreamRefused(settings, world.log);
        return Thrown(Abort(UpstreamMoved, Aborted));
      }
      world.Note(IssueUnchanged);
      r := FreshGateAndUpstream(base);
    }

    /** The issue passes the candidate gate once more. */
    method FreshGateAndUpstream(base: string) returns (r: Try<()>)
      requires Counted() && |world.log| > 1 && world.log[0] == BaseRead(base)
      requires world.log[|world.log| - 1].IssueUnchanged?
      modifies world
      ensures Counted() && TallyOf(world.log) == TallyOf(old(world.log))
      ensures r.Done? ==> world.log == old(world.log) + [FreshGatePassed, UpstreamHead(base), SlotGranted]
      ensures old(world.log) <= world.log && QuietFrom(world.log, |old(world.log)|)
      ensures r.Thrown? ==> Reasoned(r.fault)
    {
      hide TallyOf, Numbered, Orderly, MayFollow, Justified;
      MayAskGate(settings, gate, world.log);
      var eligible: bool := *;
      if !eligible {
        world.Note(FreshGateFailed);
        UpstreamRefused(settings, world.log);
        return Thrown(Abort(UpstreamMoved, Aborted));
      }
      world.Note(FreshGatePassed);
      r := UpstreamHeadAndSlot(base);
    }

    /** The upstream branch is still at the base, and the publication ledger grants a slot. */
    method UpstreamHeadAndSlot(base: string) returns (r: Try<()>)
      requires Counted() && |world.log| > 1 && world.log[0] == BaseRead(base)
      requires world.log[|world.log| - 1].FreshGatePassed?
      modifies world
      ensures Counted() && TallyOf(world.log) == TallyOf(old(world.log))
      ensures r.Done? ==> world.log == old(world.log) + [UpstreamHead(base), SlotGranted]
      ensures old(world.log) <= world.log && QuietFrom(world.log, |old(world.log)|)
      ensures r.Thrown? ==> Reasoned(r.fault)
    {
      hide TallyOf, Numbered, Orderly, MayFollow, Justified;
      var upstream :- world.BranchHead();
      MayAskHead(settings, gate, world.log, upstream);
      world.Note(UpstreamHead(upstream));
      if upstream != base {
        UpstreamRefused(settings, world.log);
        return Thrown(Abort(UpstreamMoved, Aborted));
      }
      MayAskSlot(settings, gate, world.log);
      var granted :- world.Ask();
      if !granted {
        world.Note(SlotDenied);
        UpstreamRefused(settings, world.log);
        return Thrown(Abort(PolicyDenied, Aborted));
      }
      world.Note(SlotGranted);
      r := Done(());
    }

    /** From the approval to the draft PR, or to the end of a dry run. */
    method PublishOrComplete(base: string, diff: Diff) returns (r: Try<()>)
      requires Provenance(world.log, gate, settings.testCommands) && HasBundle(world.log) && !HasPublish(world.log)
      requires Counted() && Bounded()
      requires |world.log| > 1 && world.log[0] == BaseRead(base) && world.log[|world.log| - 1] == Bundle(base, diff)
      requires stage == Reviewing
      modifies this`stage, world
      ensures Provenance(world.log, gate, settings.testCommands) && Counted() && Bounded()
      ensures HasBundle(world.log)
      ensures r.Done? ==> stage in {PrOpen, Complete}
      ensures HasPublish(world.log) ==> stage in {Publishing, PrOpen}
      ensures r.Thrown? && r.fault.Raised? && r.fault.kind.PublicationFailure? ==> stage == Publishing
      ensures r.Thrown? && r.fault.Abort? ==> Reasoned(r.fault) && stage == Reviewing
      ensures r.Done? ==> (HasPublish(world.log) <==> settings.publish && settings.draftPrMode)
    {
      hide TallyOf, Numbered, Orderly, Provenance, HasBundle, HasPublish, Reasoned;
      if settings.publish && settings.draftPrMode {
        r := PublishApproved(base, diff);
      } else {
        stage := Complete;
        r := world.Append();
      }
    }

    /** The checks and the call of a run that publishes. */
    method PublishApproved(base: string, diff: Diff) returns (r: Try<()>)
      requires Provenance(world.log, gate, settings.testCommands) && HasBundle(world.log) && !HasPublish(world.log)
      requires Counted() && Bounded() && settings.publish && settings.draftPrMode
      requires |world.log| > 1 && world.log[0] == BaseRead(base) && world.log[|world.log| - 1] == Bundle(base, diff)
      requires stage == Reviewing
      modifies this`stage, world
      ensures Provenance(world.log, gate, settings.testCommands) && Counted() && Bounded()
      ensures HasBundle(world.log)
      ensures r.Done? ==> stage == PrOpen && HasPublish(world.log)
      ensures HasPublish(world.log) ==> stage in {Publishing, PrOpen}
      ensures r.Thrown? && r.fault.Raised? && r.fault.kind.PublicationFailure? ==> stage == Publishing
      ensures r.Thrown? && r.fault.Abort? ==> Reasoned(r.fault) && stage == Reviewing
    {
      hide TallyOf, Numbered, Orderly, Provenance, HasBundle, HasPublish, MayFollow, Justified;
      ghost var approved := world.log;
      var checked := UpstreamChecks(base);
      QuietKeepsProvenance(approved, world.log, gate, settings.testCommands);
      if checked.Thrown? {
        return Thrown(checked.fault);
      }
      MayCallPublisher(settings, gate, world.log, base, diff);
      LastIsPublish(world.log, PublishCalled(base, diff));
      PublishKeepsProvenance(world.log, PublishCalled(base, diff), gate, settings.testCommands);
      r := CallPublisher(base, diff);
    }

    /** The call to the publisher and the bookkeeping after it. */
    method CallPublisher(base: string, diff: Diff) returns (r: Try<()>)
      requires Counted() && EarnedPublish(world.log + [PublishCalled(base, diff)], |world.log|) && stage == Reviewing
      requires May(PublishCalled(base, diff))
      modifies this`stage, world
      ensures Counted() && TallyOf(world.log) == TallyOf(old(world.log))
      ensures world.log == old(world.log) || world.log == old(world.log) + [PublishCalled(base, diff)]
      ensures r.Done? ==> stage == PrOpen && world.log != old(world.log)
      ensures world.log != old(world.log) ==> stage in {Publishing, PrOpen}
      ensures r.Thrown? ==> r.fault.Raised? && (r.fault.kind.PublicationFailure? ==> stage == Publishing)
    {
      hide TallyOf, Numbered, Orderly, MayFollow, Justified;
      var _ :- world.Append();
      stage := Publishing;
      var _ :- world.Append();
      var url :- world.Publish(base, diff);
      stage := PrOpen;
      var _ :- world.Call();  // the publication ledger's finish
      r := world.Append();
    }

    ghost predicate NoContainers(run: string)
      reads runner.runtime
    {
      forall id :: id in runner.runtime.live ==> !Containers.OwnedBy(runner.runtime.labels(id), run)
    }

    /** The stage and code now, with the exception on its way out. */
    function Record(escaping: Option<Kind>): Recorded
      reads this
    {
      Recorded(stage, failureCode, escaping)
    }

    /** The `finally` block: containers first, then the workspace, then the budget row's stage. */
    method Finalize(run: string, ghost escaping: Option<Kind>) returns (budgetStatus: string, ghost cleanup: Cleanup)
      requires lease.present <==> lease.hasPath
      modifies this`stage, this`failureCode, lease, runner.runtime
      ensures lease.hasPath == old(lease.hasPath)
      ensures Record(escaping) == Cleaned(old(Record(escaping)), cleanup)
      ensures cleanup.NotNeeded? <==> !lease.hasPath
      ensures cleanup.Unproven? <==> lease.present
      ensures cleanup.Proven? ==> NoContainers(run)
      ensures cleanup.Unproven? ==>
        || runner.runtime.troubles > old(runner.runtime.troubles) || lease.refused
        || exists id :: id in old(runner.runtime.live) && runner.Unstaged(id, run)
      ensures budgetStatus == StageValue(stage)
    {
      cleanup := NotNeeded;
      if lease.hasPath {
        var before := stage;
        var containersProven := runner.TryCleanupJob(run);
        var workspaceProven := false;
        if containersProven {
          workspaceProven := lease.Cleanup();
        }
        if containersProven && workspaceProven {
          cleanup := Proven;
          if before == PrOpen {
            stage := Complete;
          }
        } else {
          cleanup := Unproven;
          stage := CleanupPending;
          if failureCode.None? {
            failureCode := Some(CleanupFailed);
          }
        }
      }
      budgetStatus := StageValue(stage);
    }

    /** The `except` clauses: what they record, and the exception that leaves them, if any. */
    method Handle(fault: Fault) returns (escaping: Option<Kind>)
      requires (fault.Abort? ==> PlainFault(fault)) && failureCode.None?
      modifies this`stage, this`failureCode, this`struck, world`head, world`diff
      ensures struck.Some? && struck.value.stage == old(stage) && struck.value.fault == fault
      ensures PossibleStrike(struck.value) && Record(escaping) == InCycle(struck.value)
    {
      ghost var before := stage;
      match fault {
        case Abort(code, abortStage) =>
          stage, failureCode := abortStage, Some(code);
        case Raised(kind) =>
          if kind.Unlisted? {
            struck := Some(Strike(before, fault, None));
            return Some(Unlisted);
          }
          var publicationUncertain := stage in {Publishing, PrOpen};
          stage, failureCode := RunStage.Failed, Some(Classify(publicationUncertain, kind));
      }
      var appended := world.Append();
      escaping := if appended.Thrown? then Some(appended.fault.kind) else None;
      struck := Some(Strike(before, fault, escaping));
    }

    /** `_run_cycle` from the lease on: the exception that leaves it is returned. */
    method RunCycle(run: string) returns (escaping: Option<Kind>, ghost cleanup: Cleanup)
      requires Fresh()
      modifies this, world, lease, runner.runtime
      ensures Provenance(world.log, gate, settings.testCommands) && Counted() && Bounded()
      ensures (cleanup.NotNeeded? <==> !lease.hasPath) && (cleanup.Unproven? <==> lease.present)
      ensures cleanup.Proven? ==> NoContainers(run)
      ensures struck.None? ==> escaping.None? && lease.hasPath && HasBundle(world.log)
                               && Record(None) == Cleaned(Recorded(Complete, None, None), cleanup)
      ensures struck.Some? ==>
        PossibleStrike(struck.value) && Record(escaping) == Cleaned(InCycle(struck.value), cleanup)
      ensures HasPublish(world.log) && struck.Some? ==> Doubtful(struck.value) || struck.value.fault == Raised(Unlisted)
      ensures struck.None? ==> (HasPublish(world.log) <==> settings.publish && settings.draftPrMode)
      ensures struck.Some? && struck.value.fault.Abort? ==> Reasoned(struck.value.fault)
    {
      hide TallyOf, Numbered, Orderly, Provenance, HasPublish, HasBundle;
      var attempted := Attempt();
      escaping := None;
      if attempted.Thrown? {
        escaping := Handle(attempted.fault);
      }
      var _, proof := Finalize(run, escaping);
      cleanup := proof;
    }

    /**
     `run`: a listed exception that left the cycle is recorded once more.  None means that an
     exception which no handler names reached the caller instead of an outcome.
     */
    method Run(run: string)
      returns (outcome: Option<(RunStage, Option<FailureCode>)>, ghost cleanup: Cleanup, ghost append: Option<Kind>)
      requires Fresh()
      modifies this, world, lease, runner.runtime
      ensures Provenance(world.log, gate, settings.testCommands) && Counted() && Bounded()
      ensures (cleanup.NotNeeded? <==> !lease.hasPath) && (cleanup.Unproven? <==> lease.present)
      ensures cleanup.Proven? ==> NoContainers(run)
      ensures struck.None? ==>
        HasBundle(world.log)
        && outcome == if cleanup.Unproven? then Some((CleanupPending, Some(CleanupFailed))) else Some((Complete, None))
      ensures struck.Some? ==> PossibleStrike(struck.value) && outcome == Reported(struck.value, cleanup, append)
      ensures outcome.Some? && outcome.value.0 == Complete ==>
          outcome.value.1.None? && cleanup.Proven? && HasBundle(world.log)
      ensures outcome.Some? ==>
        (outcome.value.1 == Some(PublishPartial) <==>
           struck.Some? && Doubtful(struck.value) && struck.value.append.None?)
      ensures HasPublish(world.log) && outcome.Some? && struck.Some? ==> Doubtful(struck.value)
      ensures struck.None? ==> (HasPublish(world.log) <==> settings.publish && settings.draftPrMode)
      ensures struck.Some? && struck.value.fault.Abort? ==> Reasoned(struck.value.fault)
      ensures forall k :: 0 <= k < |world.log| && (world.log[k].SlotGranted? || world.log[k].PublishCalled?) ==>
        settings.publish && settings.draftPrMode && !settings.humanApproval && settings.gitHubSource
    {
      hide TallyOf, Numbered, Orderly, Provenance, HasPublish, HasBundle;
      var escaping, proof := RunCycle(run);
      forall k | 0 <= k < |world.log| && (world.log[k].SlotGranted? || world.log[k].PublishCalled?)
        ensures settings.publish && settings.draftPrMode && !settings.humanApproval && settings.gitHubSource
      {
        PublishingIsAskedFor(settings, gate, world.log, k);
      }
      hide Justified;
      cleanup, append := proof, None;
      if struck.Some? {
        PartialIffAppended(struck.value, cleanup, append);
      }
      if escaping.Some? {
        if escaping.value.Unlisted? {
          return None, cleanup, append;
        }
        var uncertain := stage in {Publishing, PrOpen};
        stage, failureCode := RunStage.Failed, Some(Classify(uncertain, escaping.value));
        var appended := world.Append();
        if appended.Thrown? {
          append := Some(appended.fault.kind);
          return None, cleanup, append;
        }
      }
      outcome := Some((stage, failureCode));
    }
  }
}
