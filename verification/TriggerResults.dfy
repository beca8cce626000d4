/**
 What the trigger history of a CronAnything says (common/controllers/cronanything_controller.go): each result
 is recorded exactly under its cause, and nothing is said to have been created, or to have failed, that was
 not tried with that outcome.
 */
module TriggerResults {
  import opened Common
  import opened Schedules
  import opened Children
  import opened Cron

  /** A create of that tick failed before and is still pending. */
  predicate PendingFor(p: Option<Pending>, tick: int)
  {
    p.Some? && p.value.scheduleTime == tick
  }

  /** Each result has its own cause, and each cause its result. */
  ghost predicate ExactlyCaused(ticks: seq<int>, result: TriggerResult, c: Cause)
  {
    ticks != [] &&
    var t, i := ticks[|ticks| - 1], c.i;
    var alone, inTime := |ticks| == 1 && PendingFor(c.pending, t), InTime(i.spec, t, i.now);
    && (c.dropped || |ticks| == 1)
    && (result == Missed <==> c.dropped && !alone)
    && (result == CreateFailed <==> alone && (c.dropped || !inTime))
    && (result == DeadlineExceeded <==> !c.dropped && !inTime && !alone)
    && (result == ConcurrencyForbidden <==> !c.dropped && inTime && !Unhindered(i.spec, i.children))
    && (result == ResourceLimitReached <==> !c.dropped && inTime && Unhindered(i.spec, i.children) && !HasRoom(i.spec, i.children))
    && (result == CreateSucceeded <==> !c.dropped && inTime && Unhindered(i.spec, i.children) && HasRoom(i.spec, i.children))
    && (result == ConcurrencyForbidden ==> i.spec.policy == ForbidConcurrent)
    && (result == CreateSucceeded ==> i.created)
  }

  ghost predicate WasTried(log: seq<Entry>, tick: int, created: bool)
  {
    exists j :: 0 <= j < |log| && log[j] == Tried(tick, created)
  }

  /** What an entry says is true, given what came before. */
  ghost predicate Truthful(log: seq<Entry>, e: Entry)
  {
    e.Resolved? ==>
      && ExactlyCaused(e.ticks, e.result, e.cause)
      && (e.result == CreateSucceeded ==> WasTried(log, e.ticks[|e.ticks| - 1], true))
      && (e.result == CreateFailed ==> WasTried(log, e.ticks[|e.ticks| - 1], false))
  }

  ghost predicate AllTruthful(log: seq<Entry>)
  {
    forall i :: 0 <= i < |log| ==> Truthful(log[..i], log[i])
  }

  /** The record repeats an entry of the log. */
  ghost predicate Logged(log: seq<Entry>, r: Record)
  {
    exists j :: 0 <= j < |log| && log[j].Resolved? && log[j].ticks != [] &&
                r == Record(log[j].ticks[|log[j].ticks| - 1], log[j].cause.i.now, log[j].result)
  }

  /** Pending is a create that failed, and all records repeat the log. */
  ghost predicate Faithful(log: seq<Entry>, st: Status)
  {
    && (st.pending.Some? ==> st.pending.value.result == CreateFailed && WasTried(log, st.pending.value.scheduleTime, false))
    && forall k :: 0 <= k < |st.history| ==> Logged(log, st.history[k])
  }

  lemma FaithfulStays(log: seq<Entry>, more: seq<Entry>, st: Status)
    requires Faithful(log, st)
    ensures Faithful(log + more, st)
  {
    assert forall j :: 0 <= j < |log| ==> (log + more)[j] == log[j];
    if st.pending.Some? {
      var j :| 0 <= j < |log| && log[j] == Tried(st.pending.value.scheduleTime, false);
      assert (log + more)[j] == log[j];
    }
    forall k | 0 <= k < |st.history|
      ensures Logged(log + more, st.history[k])
    {
      assert Logged(log, st.history[k]);
      var j :| 0 <= j < |log| && log[j].Resolved? && log[j].ticks != [] &&
               st.history[k] == Record(log[j].ticks[|log[j].ticks| - 1], log[j].cause.i.now, log[j].result);
      assert (log + more)[j] == log[j];
    }
  }

  lemma AppendTruthful(log: seq<Entry>, e: Entry)
    requires AllTruthful(log) && Truthful(log, e)
    ensures AllTruthful(log + [e])
  {
    var all := log + [e];
    forall i | 0 <= i < |all|
      ensures Truthful(all[..i], all[i])
    {
      assert i < |log| ==> all[..i] == log[..i];
      assert i == |log| ==> all[..i] == log;
    }
  }

  /** What holds of a stored status and the log, before and after each write. */
  ghost predicate Told(log: seq<Entry>, st: Status)
  {
    AllTruthful(log) && Faithful(log, st)
  }

  ghost predicate AllFaithful(log: seq<Entry>, versions: seq<Status>)
  {
    forall v :: 0 <= v < |versions| ==> Faithful(log, versions[v])
  }

  lemma CloseTells(log: seq<Entry>, st: Status, ticks: seq<int>, c: Cause, result: TriggerResult, w: Write)
    requires Told(log, st) && ticks != []
    requires w != Lost ==> Truthful(log, Resolved(ticks, result, c))
    ensures var e := Close(st, ticks, c, result, w);
            AllTruthful(log + e.entries) && AllFaithful(log + e.entries, e.stored)
  {
    if w == Lost {
      assert log + [] == log;
    } else {
      var e := Resolved(ticks, result, c);
      AppendTruthful(log, e);
      FaithfulStays(log, [e], st);
      ResolveIsFaithful(log + [e], |log|, st, ticks, c, result);
    }
  }

  lemma ResolveIsFaithful(log: seq<Entry>, j: nat, st: Status, ticks: seq<int>, c: Cause, result: TriggerResult)
    requires j < |log| && log[j] == Resolved(ticks, result, c) && ticks != [] && Faithful(log, st)
    ensures Faithful(log, Resolve(st, ticks[|ticks| - 1], c.i.now, result))
  {
    var st' := Resolve(st, ticks[|ticks| - 1], c.i.now, result);
    assert Logged(log, Record(ticks[|ticks| - 1], c.i.now, result));
    forall k | 0 <= k < |st'.history|
      ensures Logged(log, st'.history[k])
    {
      assert k > 0 ==> st'.history[k] == st.history[k - 1];
    }
  }

  /** The last tick: what is recorded is what happened to it. */
  lemma ActTells(log: seq<Entry>, st: Status, tick: int, i: Input)
    requires Told(log, st)
    ensures var e := Act(st, tick, i);
            AllTruthful(log + e.entries) && AllFaithful(log + e.entries, e.stored)
  {
    var c := AtLast(st, i);
    match Decide(i.spec, tick, i.now, i.children)
    case PastDeadline =>
      CloseTells(log, st, [tick], c, if IsPending(st, tick) then st.pending.value.result else DeadlineExceeded, i.secondWrite);
    case Forbidden => CloseTells(log, st, [tick], c, ConcurrencyForbidden, i.secondWrite);
    case Replacing => assert log + [] == log;
    case LimitReached => CloseTells(log, st, [tick], c, ResourceLimitReached, i.secondWrite);
    case Creating => CreateTells(log, st, tick, i);
  }

  lemma CreateTells(log: seq<Entry>, st: Status, tick: int, i: Input)
    requires Told(log, st) && Decide(i.spec, tick, i.now, i.children) == Creating
    ensures var e := Act(st, tick, i);
            AllTruthful(log + e.entries) && AllFaithful(log + e.entries, e.stored)
  {
    var tried := log + [Tried(tick, i.created)];
    AppendTruthful(log, Tried(tick, i.created));
    FaithfulStays(log, [Tried(tick, i.created)], st);
    assert tried[|log|] == Tried(tick, i.created);
    if i.created {
      CloseTells(tried, st, [tick], AtLast(st, i), CreateSucceeded, i.secondWrite);
      var e := Close(st, [tick], AtLast(st, i), CreateSucceeded, i.secondWrite);
      assert tried + e.entries == log + ([Tried(tick, true)] + e.entries);
    }
  }

  lemma HandleTells(log: seq<Entry>, seen: Status, st: Status, dropped: seq<int>, tick: int, i: Input)
    requires Told(log, st) && Faithful(log, seen)
    ensures var e := Handle(seen, st, dropped, tick, i);
            AllTruthful(log + e.entries) && AllFaithful(log + e.entries, e.stored)
  {
    if dropped == [] {
      ActTells(log, st, tick, i);
    } else {
      var c, result := AtDrop(seen, i), DropResult(seen, dropped);
      CloseTells(log, st, dropped, c, result, i.firstWrite);
      var first := Close(st, dropped, c, result, i.firstWrite);
      if i.firstWrite == Confirmed {
        var st' := first.stored[0];
        var second := Act(st', tick, i);
        ActTells(log + first.entries, st', tick, i);
        assert log + first.entries + second.entries == log + (first.entries + second.entries);
        FaithfulStays(log + first.entries, second.entries, st');
      }
    }
  }

  lemma RespondTells(log: seq<Entry>, seen: Status, st: Status, times: seq<int>, i: Input)
    requires Told(log, st) && Faithful(log, seen)
    ensures Tells(log, Respond(seen, st, times, i))
  {
    if i.spec.suspended || times == [] {
      assert log + [] == log;
    } else {
      HandleTells(log, seen, st, times[..|times| - 1], times[|times| - 1], i);
    }
  }

  /** Both together, for what a reconcile leaves behind. */
  ghost predicate Tells(log: seq<Entry>, e: Effect)
  {
    AllTruthful(log + e.entries) && AllFaithful(log + e.entries, e.stored)
  }

  lemma ReconciledTells(creation: int, log: seq<Entry>, seen: Status, st: Status, i: Input)
    requires IsSchedule(i.next) && Told(log, st) && Faithful(log, seen)
    ensures Tells(log, Reconciled(creation, seen, st, i))
  {
    var times := Ticks(i.next, Base(creation, seen), i.now + SECOND);
    RespondTells(log, seen, st, times, i);
    assert Reconciled(creation, seen, st, i) == Respond(seen, st, times, i);
  }

  lemma NextTells(creation: int, w: World, i: Input)
    requires w.versions != [] && IsSchedule(i.next) && AllTruthful(w.log) && AllFaithful(w.log, w.versions)
    ensures var w' := Next(creation, w, i); AllTruthful(w'.log) && AllFaithful(w'.log, w'.versions)
  {
    if i.seen < |w.versions| {
      ReconciledTells(creation, w.log, w.versions[i.seen], Current(w), i);
      StoredTells(w, Reconciled(creation, w.versions[i.seen], Current(w), i));
    }
  }

  lemma StoredTells(w: World, e: Effect)
    requires AllFaithful(w.log, w.versions) && Tells(w.log, e)
    ensures AllTruthful(w.log + e.entries) && AllFaithful(w.log + e.entries, w.versions + e.stored)
  {
    OldStayFaithful(w.log, e.entries, w.versions, e.stored);
  }

  lemma OldStayFaithful(log: seq<Entry>, more: seq<Entry>, versions: seq<Status>, stored: seq<Status>)
    requires AllFaithful(log, versions) && AllFaithful(log + more, stored)
    ensures AllFaithful(log + more, versions + stored)
  {
    forall v | 0 <= v < |versions|
      ensures Faithful(log + more, versions[v])
    {
      FaithfulStays(log, more, versions[v]);
    }
  }

  lemma {:induction false} RunTells(creation: int, w: World, inputs: seq<Input>)
    requires w.versions != [] && Scheduled(inputs) && AllTruthful(w.log) && AllFaithful(w.log, w.versions)
    ensures var w' := Run(creation, w, inputs); AllTruthful(w'.log) && AllFaithful(w'.log, w'.versions)
    decreases inputs
  {
    if inputs != [] {
      NextTells(creation, w, inputs[0]);
      RunTells(creation, Next(creation, w, inputs[0]), inputs[1..]);
    }
  }

  /**
   Over every run of a new object, whatever is read, answered or lost: every result in the log was recorded exactly under its
   cause, a success after a create of its tick that succeeded, a failure after one that failed; and every record in
   every version of the history repeats an entry of the log.
   */
  lemma HistoryTellsTheTruth(creation: int, inputs: seq<Input>)
    requires Scheduled(inputs)
    ensures var w := Run(creation, NEW, inputs); AllTruthful(w.log) && AllFaithful(w.log, w.versions)
  {
    RunTells(creation, NEW, inputs);
  }

  /** A reconcile that has something to say about its last tick says it: one entry, unless its write is lost. */
  lemma LastTickIsRecorded(st: Status, tick: int, i: Input)
    ensures var said := InTime(i.spec, tick, i.now) && (if Unhindered(i.spec, i.children) then HasRoom(i.spec, i.children) ==> i.created
                                                        else i.spec.policy == ForbidConcurrent);
            var e := Act(st, tick, i);
            (exists j :: 0 <= j < |e.entries| && e.entries[j].Resolved?) <==>
            i.secondWrite != Lost && (said || !InTime(i.spec, tick, i.now))
    ensures var e := Act(st, tick, i);
            (exists j :: 0 <= j < |e.entries| && e.entries[j] == Tried(tick, i.created)) <==>
            InTime(i.spec, tick, i.now) && Unhindered(i.spec, i.children) && HasRoom(i.spec, i.children)
  {
    var e := Act(st, tick, i);
    match Decide(i.spec, tick, i.now, i.children)
    case Creating =>
      assert e.entries[0] == Tried(tick, i.created);
      assert i.created && i.secondWrite != Lost ==> e.entries[1].Resolved?;
    case Replacing =>
    case _ => assert i.secondWrite != Lost ==> e.entries[0].Resolved?;
  }
}
