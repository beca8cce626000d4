/**
 Child resources of a CronAnything, and what the controller decides from the list of them
 (common/controllers/cronanything_controller.go). The fields that the source reaches by jsonpath are
 given as what the lookup yields. Instants are nanoseconds.
 */
module Children {
  import opened Common

  datatype Field = FieldError | Field(value: string)

  datatype Stamp = StampError | StampMissing | Stamp(time: int)

  datatype Child = Child(
    name: string,
    uid: string,
    created: int,
    deleting: bool,
    phase: Field,
    finishedAt: Stamp,
    stampedAt: Stamp)

  datatype FinishableStrategy = Unfinishable | IncompleteStrategy | TimestampField | StringField(values: seq<string>)

  /** isFinished; a failing lookup counts as unfinished, and reports an error besides. */
  predicate IsFinished(s: FinishableStrategy, c: Child)
  {
    match s
    case TimestampField => c.finishedAt.Stamp?
    case StringField(values) => c.phase.Field? && c.phase.value in values
    case _ => false
  }

  /** What finished means: the field holds a timestamp, or one of the values; without a strategy, nothing is. */
  lemma FinishedMeans(s: FinishableStrategy, c: Child)
    ensures s == TimestampField ==> (IsFinished(s, c) <==> exists t :: c.finishedAt == Stamp(t))
    ensures s.StringField? ==> (IsFinished(s, c) <==> exists v :: v in s.values && c.phase == Field(v))
    ensures s == Unfinishable || s == IncompleteStrategy ==> !IsFinished(s, c)
  {
    if c.finishedAt.Stamp? {
      assert c.finishedAt == Stamp(c.finishedAt.time);
    }
    if s.StringField? && c.phase.Field? {
      assert c.phase == Field(c.phase.value);
    }
  }

  /** findActiveChildResources. */
  function ActiveChildren(s: FinishableStrategy, children: seq<Child>): (active: seq<Child>)
    ensures forall c :: c in active <==> c in children && !IsFinished(s, c)
  {
    if children == [] then []
    else
      var rest := ActiveChildren(s, children[1..]);
      if IsFinished(s, children[0]) then rest else [children[0]] + rest
  }

  datatype Policy = AllowConcurrent | ForbidConcurrent | ReplaceConcurrent

  datatype CronSpec = CronSpec(
    suspended: bool,
    policy: Policy,
    strategy: FinishableStrategy,
    deadline: Option<int>, // seconds
    limit: Option<int>)

  datatype Decision = PastDeadline | Forbidden | Replacing | LimitReached | Creating

  ghost predicate InTime(spec: CronSpec, tick: int, now: int)
  {
    spec.deadline.None? || now - tick <= spec.deadline.value * SECOND
  }

  /** The concurrency policy does not stand in the way. */
  ghost predicate Unhindered(spec: CronSpec, children: seq<Child>)
  {
    spec.policy == AllowConcurrent || forall c :: c in children ==> IsFinished(spec.strategy, c)
  }

  ghost predicate HasRoom(spec: CronSpec, children: seq<Child>)
  {
    spec.limit.Some? ==> |children| < spec.limit.value
  }

  /** What to do about the trigger at `tick`, given the children listed: the first obstacle decides. */
  function Decide(spec: CronSpec, tick: int, now: int, children: seq<Child>): (d: Decision)
    ensures d == PastDeadline <==> !InTime(spec, tick, now)
    ensures d == Forbidden || d == Replacing <==> InTime(spec, tick, now) && !Unhindered(spec, children)
    ensures d == Forbidden ==> spec.policy == ForbidConcurrent
    ensures d == Replacing ==> spec.policy == ReplaceConcurrent
    ensures d == Creating <==> InTime(spec, tick, now) && Unhindered(spec, children) && HasRoom(spec, children)
  {
    var active := ActiveChildren(spec.strategy, children);
    assert active != [] ==> active[0] in active;
    assert forall c :: c in children && !IsFinished(spec.strategy, c) ==> c in active;
    if spec.deadline.Some? && tick + spec.deadline.value * SECOND < now then PastDeadline
    else if active != [] && spec.policy == ForbidConcurrent then Forbidden
    else if active != [] && spec.policy == ReplaceConcurrent then Replacing
    else if spec.limit.Some? && |children| >= spec.limit.value then LimitReached
    else Creating
  }
}
