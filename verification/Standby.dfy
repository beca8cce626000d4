/**
 The standby state machine of oracle/controllers/instancecontroller/instance_controller_standby.go.

 Promotion is silently skipped when CurrentReplicationSettings is nil. What is proved is that this
 never happens: over every run, a standby counts as promoted only after a promote call succeeded,
 and promote calls are only made once Data Guard was set up and the user withdrew the settings.
 */
module Standby {
  import opened Common

  datatype Settings = Settings(primary: string, hasSecret: bool)

  datatype State =
    | VerifyFailed
    | VerifyCompleted
    | CreateInProgress
    | CreateFailed
    | CreateCompleted
    | SetUpDataGuardFailed
    | SetUpDataGuardCompleted
    | DataGuardReplicationInProgress
    | PromoteFailed
    | PromoteCompleted
    | BootstrapFailed
    | BootstrapCompleted
    | OtherState(name: string)

  /** `condition` is the StandbyDRReady condition, `current` is CurrentReplicationSettings. */
  datatype Inst = Inst(
    settings: Option<Settings>, // spec
    condition: Option<State>,
    ready: bool, // status of the condition
    current: Option<Settings>,
    output: bool) // DataGuardOutput is set

  datatype Call = CallError | CallOk
  datatype CreateCall = CreateError | CreateRunning | CreateDone

  datatype Answers = Answers(
    verified: bool,
    create: CreateCall,
    hostKnown: bool,
    dataGuard: Call,
    promote: Call,
    refresh: bool, // the Data Guard output is due for an update
    bootstrap: Call)

  datatype Entry =
    | DataGuardSetUp(settings: Settings)
    | Promoted(settings: Settings, ok: bool)
    | Commit(inst: Inst)
    | Observed(inst: Inst, a: Answers) // what a reconcile read and was told

  datatype Effect = Effect(inst: Inst, entries: seq<Entry>)

  function StateOf(inst: Inst): State
  {
    if inst.condition.Some? then inst.condition.value else VerifyFailed
  }

  function Goto(inst: Inst, s: State): Inst
  {
    inst.(condition := Some(s), ready := false)
  }

  /** isStandbyDR: the machine is asked for a standby, and until it is bootstrapped. */
  predicate IsStandby(inst: Inst)
  {
    inst.settings.Some? || (inst.condition.Some? && !inst.ready)
  }

  // ---------------------------------------------------------------------------------------------
  // One step

  /** Set up Data Guard from the spec: the two outcomes, and the call if it succeeded. */
  function SetUp(inst: Inst, a: Answers, good: State, bad: State): Effect
    requires inst.settings.Some?
  {
    if a.hostKnown && inst.settings.value.hasSecret && a.dataGuard == CallOk then
      Effect(Goto(inst.(current := inst.settings), good), [DataGuardSetUp(inst.settings.value)])
    else
      Effect(Goto(inst, bad), [])
  }

  function Promote(inst: Inst, a: Answers): Effect
  {
    if inst.current.None? then Effect(Goto(inst, PromoteCompleted), [])
    else if !a.hostKnown || !inst.current.value.hasSecret then Effect(Goto(inst, PromoteFailed), [])
    else
      var ok := a.promote == CallOk;
      Effect(Goto(inst, if ok then PromoteCompleted else PromoteFailed), [Promoted(inst.current.value, ok)])
  }

  function Refresh(e: Effect, a: Answers): Effect
  {
    e.(inst := e.inst.(output := e.inst.output || a.refresh))
  }

  function Step(inst: Inst, a: Answers): Effect
  {
    match StateOf(inst)
    case VerifyFailed =>
      var ok := inst.settings.Some? && inst.settings.value.hasSecret && a.verified;
      Effect(Goto(inst, if ok then VerifyCompleted else VerifyFailed), [])
    case VerifyCompleted =>
      Effect(Goto(inst.(current := inst.settings), CreateInProgress), [])
    case CreateInProgress =>
      if inst.settings.None? then Effect(Goto(inst, CreateInProgress), [])
      else
        var inst' := inst.(current := inst.settings);
        if !inst.settings.value.hasSecret || a.create == CreateRunning then Effect(Goto(inst', CreateInProgress), [])
        else Effect(Goto(inst', if a.create == CreateDone then CreateCompleted else CreateFailed), [])
    case CreateCompleted =>
      if inst.settings.None? then Effect(Goto(inst, CreateCompleted), [])
      else SetUp(inst.(current := inst.settings), a, SetUpDataGuardCompleted, SetUpDataGuardFailed)
    case SetUpDataGuardFailed =>
      if inst.settings.None? then Effect(Goto(inst, SetUpDataGuardFailed), [])
      else SetUp(inst.(current := inst.settings), a, SetUpDataGuardCompleted, SetUpDataGuardFailed)
    case SetUpDataGuardCompleted =>
      Effect(Goto(inst, DataGuardReplicationInProgress), [])
    case DataGuardReplicationInProgress =>
      if inst.settings.None? then Promote(inst, a)
      else Refresh(SetUp(inst, a, DataGuardReplicationInProgress, DataGuardReplicationInProgress), a)
    case PromoteFailed => Promote(inst, a)
    case PromoteCompleted => Bootstrap(inst, a)
    case BootstrapFailed => Bootstrap(inst, a)
    case BootstrapCompleted => Effect(inst.(condition := Some(BootstrapCompleted), ready := true), [])
    case _ => Effect(inst, [])
  }

  function Bootstrap(inst: Inst, a: Answers): Effect
  {
    var ok := a.bootstrap == CallOk;
    Effect(inst.(current := None, output := false, ready := ok,
                 condition := Some(if ok then BootstrapCompleted else BootstrapFailed)), [])
  }

  // ---------------------------------------------------------------------------------------------
  // The machine as the source runs it

  class Instance {
    const settings: Option<Settings>
    var condition: Option<State>
    var ready: bool
    var current: Option<Settings>
    var output: bool
    var calls: seq<Entry>

    constructor (inst: Inst)
      ensures Value() == inst && calls == []
    {
      settings, condition, ready, current, output :=
        inst.settings, inst.condition, inst.ready, inst.current, inst.output;
      calls := [];
    }

    function Value(): Inst
      reads this
    {
      Inst(settings, condition, ready, current, output)
    }

    method Report(s: State)
      modifies this`condition, this`ready
      ensures Value() == Goto(old(Value()), s)
    {
      condition, ready := Some(s), false;
    }

    method ReconcileDataGuard(a: Answers) returns (ok: bool)
      requires settings.Some?
      modifies this`current, this`calls
      ensures ok == (a.hostKnown && settings.value.hasSecret && a.dataGuard == CallOk)
      ensures current == if ok then settings else old(current)
      ensures calls == old(calls) + if ok then [DataGuardSetUp(settings.value)] else []
    {
      if !a.hostKnown {
        return false;
      }
      if !settings.value.hasSecret {
        return false;
      }
      if a.dataGuard == CallError {
        return false;
      }
      calls := calls + [DataGuardSetUp(settings.value)];
      current := settings;
      ok := true;
    }

    method ReconcilePromoteStandby(a: Answers)
      modifies this`condition, this`ready, this`calls
      ensures Value() == Promote(old(Value()), a).inst
      ensures calls == old(calls) + Promote(old(Value()), a).entries
    {
      if current.None? {
        Report(PromoteCompleted);
        return;
      }
      if !a.hostKnown || !current.value.hasSecret {
        Report(PromoteFailed);
        return;
      }
      var ok := a.promote == CallOk;
      calls := calls + [Promoted(current.value, ok)];
      Report(if ok then PromoteCompleted else PromoteFailed);
    }

    method VerifyAndCreate(a: Answers)
      requires StateOf(Value()) in {VerifyFailed, VerifyCompleted, CreateInProgress}
      modifies this
      ensures Value() == Step(old(Value()), a).inst
      ensures calls == old(calls) + Step(old(Value()), a).entries
    {
      var state := if condition.Some? then condition.value else VerifyFailed;
      if state == VerifyFailed {
        var ok := settings.Some? && settings.value.hasSecret && a.verified;
        Report(if ok then VerifyCompleted else VerifyFailed);
      } else if state == VerifyCompleted {
        current := settings;
        Report(CreateInProgress);
      } else if settings.None? {
        Report(CreateInProgress);
      } else {
        current := settings;
        if !settings.value.hasSecret {
          Report(CreateInProgress);
        } else if a.create == CreateError {
          Report(CreateFailed);
        } else if a.create == CreateRunning {
          Report(CreateInProgress);
        } else {
          Report(CreateCompleted);
        }
      }
    }

    method SetUpDataGuard(a: Answers)
      requires StateOf(Value()) == CreateCompleted || StateOf(Value()) == SetUpDataGuardFailed
      modifies this
      ensures Value() == Step(old(Value()), a).inst
      ensures calls == old(calls) + Step(old(Value()), a).entries
    {
      if settings.None? {
        Report(condition.value);
        return;
      }
      current := settings;
      var ok := ReconcileDataGuard(a);
      Report(if ok then SetUpDataGuardCompleted else SetUpDataGuardFailed);
    }

    method Replicate(a: Answers)
      requires StateOf(Value()) == DataGuardReplicationInProgress
      modifies this
      ensures Value() == Step(old(Value()), a).inst
      ensures calls == old(calls) + Step(old(Value()), a).entries
    {
      if settings.None? {
        ReconcilePromoteStandby(a);
        return;
      }
      var _ := ReconcileDataGuard(a);
      Report(DataGuardReplicationInProgress);
      if a.refresh {
        output := true;
      }
    }

    method StandbyStateMachine(a: Answers)
      modifies this
      ensures Value() == Step(old(Value()), a).inst
      ensures calls == old(calls) + Step(old(Value()), a).entries
    {
      var state := if condition.Some? then condition.value else VerifyFailed;
      match state {
        case VerifyFailed | VerifyCompleted | CreateInProgress =>
          VerifyAndCreate(a);
        case CreateCompleted | SetUpDataGuardFailed =>
          SetUpDataGuard(a);
        case SetUpDataGuardCompleted =>
          Report(DataGuardReplicationInProgress);
        case DataGuardReplicationInProgress =>
          Replicate(a);
        case PromoteFailed =>
          ReconcilePromoteStandby(a);
        case PromoteCompleted | BootstrapFailed =>
          current := None;
          output := false;
          if a.bootstrap == CallError {
            Report(BootstrapFailed);
          } else {
            condition, ready := Some(BootstrapCompleted), true;
          }
        case BootstrapCompleted =>
          condition, ready := Some(BootstrapCompleted), true;
        case _ =>
      }
    }
  }

  // ---------------------------------------------------------------------------------------------
  // Whole runs

  datatype World = World(history: seq<Inst>, log: seq<Entry>)

  /** A reconcile on any version up to the newest, or a user editing the spec. */
  datatype Event = Reconcile(version: nat, a: Answers, arrives: bool) | EditSpec(settings: Option<Settings>)

  function Put(w: World, inst: Inst): World
    requires w.history != []
  {
    if inst == w.history[|w.history| - 1] then w else World(w.history + [inst], w.log + [Commit(inst)])
  }

  function Next(w: World, e: Event): (w': World)
    requires w.history != []
    ensures w'.history != []
  {
    match e
    case EditSpec(settings) => Put(w, w.history[|w.history| - 1].(settings := settings))
    case Reconcile(v, a, arrives) =>
      if v >= |w.history| || !IsStandby(w.history[v]) then w
      else
        var effect := Step(w.history[v], a);
        var w' := w.(log := w.log + [Observed(w.history[v], a)] + effect.entries);
        if arrives && v == |w.history| - 1 then Put(w', effect.inst) else w'
  }

  function Run(w: World, events: seq<Event>): (w': World)
    requires w.history != []
    ensures w'.history != []
    decreases events
  {
    if events == [] then w else Run(Next(w, events[0]), events[1..])
  }

  /** The states from a created standby up to its promotion. */
  predicate Created(s: State)
  {
    || s == CreateCompleted || s == SetUpDataGuardFailed || s == SetUpDataGuardCompleted
    || s == DataGuardReplicationInProgress || s == PromoteFailed
  }

  predicate Replicating(s: State)
  {
    s == SetUpDataGuardCompleted || s == DataGuardReplicationInProgress || s == PromoteFailed
  }

  predicate IsPromoted(s: State)
  {
    s == PromoteCompleted || s == BootstrapFailed || s == BootstrapCompleted
  }

  ghost predicate DataGuardDone(log: seq<Entry>)
  {
    exists j :: 0 <= j < |log| && log[j].DataGuardSetUp?
  }

  /** The settings were withdrawn while Data Guard was replicating. */
  ghost predicate Withdrawn(log: seq<Entry>)
  {
    exists j :: 0 <= j < |log| && log[j].Commit? && log[j].inst.settings.None? && StateOf(log[j].inst) == DataGuardReplicationInProgress
  }

  ghost predicate PromotionDone(log: seq<Entry>)
  {
    exists j :: 0 <= j < |log| && log[j].Promoted? && log[j].ok
  }

  ghost predicate Allowed(log: seq<Entry>, e: Entry)
  {
    match e
    case Promoted(_, _) => DataGuardDone(log) && Withdrawn(log)
    case Commit(inst) => IsPromoted(StateOf(inst)) ==> PromotionDone(log)
    case _ => true
  }

  ghost predicate Backed(log: seq<Entry>, inst: Inst)
  {
    var s := StateOf(inst);
    && (Created(s) ==> inst.current.Some?)
    && (Replicating(s) ==> DataGuardDone(log))
    && (s == DataGuardReplicationInProgress && inst.settings.None? ==> Withdrawn(log))
    && (s == PromoteFailed ==> Withdrawn(log))
    && (IsPromoted(s) ==> PromotionDone(log))
  }

  ghost predicate Inv(w: World)
  {
    && w.history != []
    && (forall v :: 0 <= v < |w.history| ==> Backed(w.log, w.history[v]))
    && (forall i :: 0 <= i < |w.log| ==> Allowed(w.log[..i], w.log[i]))
  }

  lemma FactsStay(log: seq<Entry>, more: seq<Entry>)
    ensures DataGuardDone(log) ==> DataGuardDone(log + more)
    ensures Withdrawn(log) ==> Withdrawn(log + more)
    ensures PromotionDone(log) ==> PromotionDone(log + more)
  {
    assert forall j :: 0 <= j < |log| ==> (log + more)[j] == log[j];
  }

  lemma AppendAllowed(log: seq<Entry>, e: Entry)
    requires forall i :: 0 <= i < |log| ==> Allowed(log[..i], log[i])
    requires Allowed(log, e)
    ensures forall i :: 0 <= i <= |log| ==> Allowed((log + [e])[..i], (log + [e])[i])
  {
    forall i | 0 <= i <= |log|
      ensures Allowed((log + [e])[..i], (log + [e])[i])
    {
      assert (log + [e])[..i] == log[..i];
      assert i == |log| ==> log[..i] == log;
    }
  }

  /** A step does at most one thing, and only what the version it started from allows. */
  lemma StepAllowed(log: seq<Entry>, inst: Inst, a: Answers)
    requires Backed(log, inst)
    ensures var entries := Step(inst, a).entries;
            |entries| <= 1 && forall i :: 0 <= i < |entries| ==> Allowed(log, entries[i])
  {
  }

  lemma StepBacked(log: seq<Entry>, inst: Inst, a: Answers)
    requires Backed(log, inst)
    ensures var effect := Step(inst, a);
            var log' := log + effect.entries;
            && Allowed(log', Commit(effect.inst))
            && Backed(log' + [Commit(effect.inst)], effect.inst)
  {
    var effect := Step(inst, a);
    var log' := log + effect.entries;
    FactsStay(log, effect.entries);
    FactsStay(log', [Commit(effect.inst)]);
    assert |effect.entries| == 1 ==> log'[|log|] == effect.entries[0];
    var last := log' + [Commit(effect.inst)];
    assert last[|log'|] == Commit(effect.inst);
  }

  lemma PutKeepsInv(w: World, inst: Inst)
    requires Inv(w) && Allowed(w.log, Commit(inst)) && Backed(w.log + [Commit(inst)], inst)
    ensures Inv(Put(w, inst))
  {
    FactsStay(w.log, [Commit(inst)]);
    AppendAllowed(w.log, Commit(inst));
  }

  lemma NextKeepsInv(w: World, e: Event)
    requires Inv(w)
    ensures Inv(Next(w, e))
  {
    var cur := w.history[|w.history| - 1];
    match e
    case EditSpec(settings) =>
      var inst := cur.(settings := settings);
      FactsStay(w.log, [Commit(inst)]);
      assert (w.log + [Commit(inst)])[|w.log|] == Commit(inst);
      PutKeepsInv(w, inst);
    case Reconcile(v, a, arrives) =>
      if v < |w.history| && IsStandby(w.history[v]) {
        var seen := Observed(w.history[v], a);
        FactsStay(w.log, [seen]);
        AppendAllowed(w.log, seen);
        ReconcileKeepsInv(World(w.history, w.log + [seen]), v, a, arrives);
      }
  }

  /** The rest of a reconcile, once it is noted what it read. */
  lemma ReconcileKeepsInv(w: World, v: nat, a: Answers, arrives: bool)
    requires Inv(w) && v < |w.history|
    ensures var effect := Step(w.history[v], a);
            var w1 := w.(log := w.log + effect.entries);
            Inv(w1) && (arrives && v == |w.history| - 1 ==> Inv(Put(w1, effect.inst)))
  {
    var effect := Step(w.history[v], a);
    StepAllowed(w.log, w.history[v], a);
    FactsStay(w.log, effect.entries);
    if effect.entries != [] {
      assert effect.entries == [effect.entries[0]];
      AppendAllowed(w.log, effect.entries[0]);
    } else {
      assert w.log + effect.entries == w.log;
    }
    StepBacked(w.log, w.history[v], a);
    var w1 := w.(log := w.log + effect.entries);
    assert Inv(w1);
    if arrives && v == |w.history| - 1 {
      PutKeepsInv(w1, effect.inst);
    }
  }

  lemma {:induction false} RunKeepsInv(w: World, events: seq<Event>)
    requires Inv(w)
    ensures Inv(Run(w, events))
    decreases events
  {
    if events != [] {
      NextKeepsInv(w, events[0]);
      RunKeepsInv(Next(w, events[0]), events[1..]);
    }
  }

  /**
   Over every run of a new standby: the settings are recorded in every state from creation to
   promotion; every promote call follows a Data Guard set-up and a stored version in which the
   settings were gone; and no version counts as promoted before a promote call succeeded.
   */
  lemma PromotionNeverSkipped(inst: Inst, events: seq<Event>)
    requires StateOf(inst) == VerifyFailed
    ensures var w := Run(World([inst], []), events);
            && (forall v :: 0 <= v < |w.history| && Created(StateOf(w.history[v])) ==> w.history[v].current.Some?)
            && (forall i :: 0 <= i < |w.log| && w.log[i].Promoted? ==> DataGuardDone(w.log[..i]) && Withdrawn(w.log[..i]))
            && (forall i :: 0 <= i < |w.log| && w.log[i].Commit? && IsPromoted(StateOf(w.log[i].inst)) ==> PromotionDone(w.log[..i]))
  {
    RunKeepsInv(World([inst], []), events);
    var w := Run(World([inst], []), events);
    forall i | 0 <= i < |w.log|
      ensures Allowed(w.log[..i], w.log[i])
    {
    }
  }

  /** One event, with the machine run on an object of its own. */
  method HandleEvent(w: World, e: Event) returns (w': World)
    requires w.history != []
    ensures w' == Next(w, e)
  {
    w' := w;
    var stored := w.history[|w.history| - 1];
    var changed := stored;
    match e {
      case EditSpec(settings) =>
        changed := stored.(settings := settings);
      case Reconcile(v, a, arrives) =>
        if v < |w.history| && IsStandby(w.history[v]) {
          var inst := new Instance(w.history[v]);
          inst.StandbyStateMachine(a);
          w' := w.(log := w.log + [Observed(w.history[v], a)] + inst.calls);
          if arrives && v == |w.history| - 1 {
            changed := inst.Value();
          }
        }
    }
    if changed != stored {
      w' := World(w'.history + [changed], w'.log + [Commit(changed)]);
    }
  }

  /** Any number of reconciles and edits: nothing counts as promoted before a promote call succeeded. */
  method Reconciles(inst: Inst, events: seq<Event>) returns (w: World)
    requires StateOf(inst) == VerifyFailed
    ensures w == Run(World([inst], []), events)
    ensures forall i :: 0 <= i < |w.log| ==> Allowed(w.log[..i], w.log[i])
    ensures forall v :: 0 <= v < |w.history| && Created(StateOf(w.history[v])) ==> w.history[v].current.Some?
  {
    w := World([inst], []);
    for k := 0 to |events|
      invariant w.history != []
      invariant Run(World([inst], []), events) == Run(w, events[k..])
    {
      assert events[k..][1..] == events[k + 1..];
      w := HandleEvent(w, events[k]);
    }
    RunKeepsInv(World([inst], []), events);
  }
}
