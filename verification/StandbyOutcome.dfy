/**
 What the answers of the world make of a standby
 (oracle/controllers/instancecontroller/instance_controller_standby.go): each stage goes on when its own
 answer is good and falls back when it is bad, so no stored version claims more than was seen.
 */
module StandbyOutcome {
  import opened Common
  import opened Standby

  /** Data Guard can be set up from the specification. */
  predicate SetsUp(inst: Inst, a: Answers)
  {
    inst.settings.Some? && a.hostKnown && inst.settings.value.hasSecret && a.dataGuard == CallOk
  }

  /** The standby is promoted, or there is nothing to promote. */
  predicate Promotes(inst: Inst, a: Answers)
  {
    inst.current.None? || (a.hostKnown && inst.current.value.hasSecret && a.promote == CallOk)
  }

  predicate Verifies(inst: Inst, a: Answers)
  {
    inst.settings.Some? && inst.settings.value.hasSecret && a.verified
  }

  predicate Creates(inst: Inst, a: Answers, what: CreateCall)
  {
    inst.settings.Some? && inst.settings.value.hasSecret && a.create == what
  }

  /** The stage was seen to succeed. */
  predicate Succeeds(inst: Inst, a: Answers)
  {
    match StateOf(inst)
    case VerifyFailed => Verifies(inst, a)
    case VerifyCompleted => true
    case CreateInProgress => Creates(inst, a, CreateDone)
    case CreateCompleted => SetsUp(inst, a)
    case SetUpDataGuardFailed => SetsUp(inst, a)
    case SetUpDataGuardCompleted => true
    case DataGuardReplicationInProgress => inst.settings.None? && Promotes(inst, a)
    case PromoteFailed => Promotes(inst, a)
    case PromoteCompleted => a.bootstrap == CallOk
    case BootstrapFailed => a.bootstrap == CallOk
    case _ => false
  }

  /** The stage was seen to fail. */
  predicate Fails(inst: Inst, a: Answers)
  {
    match StateOf(inst)
    case CreateInProgress => Creates(inst, a, CreateError)
    case CreateCompleted => inst.settings.Some? && !SetsUp(inst, a)
    case DataGuardReplicationInProgress => inst.settings.None? && !Promotes(inst, a)
    case PromoteCompleted => a.bootstrap == CallError
    case _ => false
  }

  function Onward(s: State): State
  {
    match s
    case VerifyFailed => VerifyCompleted
    case VerifyCompleted => CreateInProgress
    case CreateInProgress => CreateCompleted
    case CreateCompleted => SetUpDataGuardCompleted
    case SetUpDataGuardFailed => SetUpDataGuardCompleted
    case SetUpDataGuardCompleted => DataGuardReplicationInProgress
    case DataGuardReplicationInProgress => PromoteCompleted
    case PromoteFailed => PromoteCompleted
    case _ => BootstrapCompleted
  }

  function Backward(s: State): State
  {
    match s
    case CreateInProgress => CreateFailed
    case CreateCompleted => SetUpDataGuardFailed
    case DataGuardReplicationInProgress => PromoteFailed
    case _ => BootstrapFailed
  }

  predicate Bootstraps(s: State)
  {
    s == PromoteCompleted || s == BootstrapFailed
  }

  /** The settings in force afterwards: those specified, from the verification until the withdrawal, and none once promoted. */
  function InForce(inst: Inst, a: Answers): Option<Settings>
  {
    var s := StateOf(inst);
    if s == VerifyCompleted then inst.settings
    else if (s == CreateInProgress || s == CreateCompleted || s == SetUpDataGuardFailed) && inst.settings.Some? then inst.settings
    else if s == DataGuardReplicationInProgress && SetsUp(inst, a) then inst.settings
    else if Bootstraps(s) then None
    else inst.current
  }

  /** One reconcile: a good answer leads on, a bad one back, and without either the state stays. */
  lemma StepByAnswer(inst: Inst, a: Answers)
    ensures StateOf(Step(inst, a).inst) ==
            if Succeeds(inst, a) then Onward(StateOf(inst)) else if Fails(inst, a) then Backward(StateOf(inst)) else StateOf(inst)
  {
  }

  /** What else it leaves behind: the settings in force, the output of Data Guard, and readiness only once bootstrapped. */
  lemma StatusByAnswer(inst: Inst, a: Answers)
    ensures var s, next := StateOf(inst), Step(inst, a).inst;
            && next.settings == inst.settings && next.current == InForce(inst, a)
            && next.output == (if Bootstraps(s) then false
                               else inst.output || (s == DataGuardReplicationInProgress && inst.settings.Some? && a.refresh))
            && next.ready == (if s == CreateFailed || s.OtherState? then inst.ready
                              else s == BootstrapCompleted || (Bootstraps(s) && a.bootstrap == CallOk))
  {
  }

  /** The calls it makes: a set-up that succeeds, and a promotion wherever there is something to promote. */
  lemma CallsByAnswer(inst: Inst, a: Answers)
    ensures var s := StateOf(inst);
            Step(inst, a).entries ==
            if (s == CreateCompleted || s == SetUpDataGuardFailed || s == DataGuardReplicationInProgress) && SetsUp(inst, a)
            then [DataGuardSetUp(inst.settings.value)]
            else if (s == PromoteFailed || (s == DataGuardReplicationInProgress && inst.settings.None?)) &&
                    inst.current.Some? && a.hostKnown && inst.current.value.hasSecret
            then [Promoted(inst.current.value, a.promote == CallOk)]
            else []
  {
  }

  /** Without settings the machine is asked only while a condition says that the standby is not ready. */
  lemma AskedMeans(inst: Inst)
    ensures inst.settings.Some? ==> IsStandby(inst)
    ensures inst.settings.None? && inst.condition.None? ==> !IsStandby(inst)
    ensures inst.settings.None? && inst.condition.Some? ==> (IsStandby(inst) <==> !inst.ready)
  {
  }

  // ---- Over whole runs ----

  ghost predicate SawVerified(log: seq<Entry>)
  {
    exists j :: 0 <= j < |log| && log[j].Observed? && StateOf(log[j].inst) == VerifyFailed && Verifies(log[j].inst, log[j].a)
  }

  ghost predicate SawCreated(log: seq<Entry>, what: CreateCall)
  {
    exists j :: 0 <= j < |log| && log[j].Observed? && StateOf(log[j].inst) == CreateInProgress && Creates(log[j].inst, log[j].a, what)
  }

  ghost predicate SawBootstrapped(log: seq<Entry>)
  {
    exists j :: 0 <= j < |log| && log[j].Observed? && Bootstraps(StateOf(log[j].inst)) && log[j].a.bootstrap == CallOk
  }

  /** A stored version claims no more than was seen. */
  ghost predicate Earned(log: seq<Entry>, inst: Inst)
  {
    var s := StateOf(inst);
    && (s == VerifyCompleted || s == CreateInProgress || s == CreateFailed || Created(s) || IsPromoted(s) ==> SawVerified(log))
    && (Created(s) || IsPromoted(s) ==> SawCreated(log, CreateDone))
    && (s == CreateFailed ==> SawCreated(log, CreateError))
    && (s == BootstrapCompleted ==> SawBootstrapped(log))
  }

  ghost predicate AllEarned(w: World)
  {
    w.history != [] && forall v :: 0 <= v < |w.history| ==> Earned(w.log, w.history[v])
  }

  lemma EarnedStays(log: seq<Entry>, more: seq<Entry>, inst: Inst)
    requires Earned(log, inst)
    ensures Earned(log + more, inst)
  {
    assert forall j :: 0 <= j < |log| ==> (log + more)[j] == log[j];
  }

  lemma AllEarnedStays(w: World, more: seq<Entry>)
    requires AllEarned(w)
    ensures AllEarned(World(w.history, w.log + more))
  {
    forall v | 0 <= v < |w.history|
      ensures Earned(w.log + more, w.history[v])
    {
      EarnedStays(w.log, more, w.history[v]);
    }
  }

  lemma PutKeepsEarned(w: World, inst: Inst)
    requires AllEarned(w) && Earned(w.log, inst)
    ensures AllEarned(Put(w, inst))
  {
    AllEarnedStays(w, [Commit(inst)]);
    EarnedStays(w.log, [Commit(inst)], inst);
  }

  lemma StepEarns(log: seq<Entry>, inst: Inst, a: Answers)
    requires Earned(log, inst)
    ensures Earned(log + [Observed(inst, a)], Step(inst, a).inst)
  {
    StepByAnswer(inst, a);
    EarnedStays(log, [Observed(inst, a)], inst);
    assert (log + [Observed(inst, a)])[|log|] == Observed(inst, a);
  }

  lemma NextKeepsEarned(w: World, e: Event)
    requires AllEarned(w)
    ensures AllEarned(Next(w, e))
  {
    match e
    case EditSpec(settings) => PutKeepsEarned(w, w.history[|w.history| - 1].(settings := settings));
    case Reconcile(v, a, arrives) =>
      if v < |w.history| && IsStandby(w.history[v]) {
        var inst := w.history[v];
        var effect, seen := Step(inst, a), [Observed(inst, a)];
        StepEarns(w.log, inst, a);
        EarnedStays(w.log + seen, effect.entries, effect.inst);
        AllEarnedStays(w, seen);
        AllEarnedStays(World(w.history, w.log + seen), effect.entries);
        if arrives && v == |w.history| - 1 {
          PutKeepsEarned(World(w.history, w.log + seen + effect.entries), effect.inst);
        }
      }
  }

  lemma {:induction false} RunKeepsEarned(w: World, events: seq<Event>)
    requires AllEarned(w)
    ensures AllEarned(Run(w, events))
    decreases events
  {
    if events != [] {
      NextKeepsEarned(w, events[0]);
      RunKeepsEarned(Next(w, events[0]), events[1..]);
    }
  }

  /**
   Over every run of a new standby, with stale reads, lost writes and edits: every version stored in a state from the
   verification on follows a verification that succeeded, every created or promoted one a creation seen done, every failed
   creation an error, and a bootstrapped one a bootstrap that succeeded.
   */
  lemma StatesAreEarned(inst: Inst, events: seq<Event>, v: nat)
    requires StateOf(inst) == VerifyFailed && v < |Run(World([inst], []), events).history|
    ensures var w := Run(World([inst], []), events); Earned(w.log, w.history[v])
  {
    RunKeepsEarned(World([inst], []), events);
  }
}
