/** The fault-injecting VFS controller: an online monitor, and the offline checker of its recorded trace. */
module FaultVfs {
  import opened Common

  const MAX_OPERATIONS: nat := 4096
  const ROLE_COUNT: nat := 6
  const OPERATION_COUNT: nat := 11

  datatype FileRole = MainDatabase | RollbackJournal | Wal | SharedMemory | Temporary | UnknownRole {
    function Index(): (i: nat)
      ensures i < ROLE_COUNT
    {
      match this
      case MainDatabase => 0
      case RollbackJournal => 1
      case Wal => 2
      case SharedMemory => 3
      case Temporary => 4
      case UnknownRole => 5
    }
  }

  datatype Operation =
    | OpenFile | Read | Write | Truncate | Sync | Delete | Lock | Unlock | CheckReservedLock | MapShared | Fetch
  {
    function Index(): (i: nat)
      ensures i < OPERATION_COUNT
    {
      match this
      case OpenFile => 0
      case Read => 1
      case Write => 2
      case Truncate => 3
      case Sync => 4
      case Delete => 5
      case Lock => 6
      case Unlock => 7
      case CheckReservedLock => 8
      case MapShared => 9
      case Fetch => 10
    }
  }

  datatype FaultCode =
    | Full | IoErrRead | IoErrWrite | IoErrFsync | IoErrTruncate | IoErrDelete | IoErrLock | IoErrUnlock
    | IoErrCheckReservedLock
  {
    function SqliteCode(): int {
      match this
      case Full => 13
      case IoErrRead => 266
      case IoErrWrite => 778
      case IoErrFsync => 1034
      case IoErrTruncate => 1546
      case IoErrDelete => 2570
      case IoErrLock => 3850
      case IoErrUnlock => 2058
      case IoErrCheckReservedLock => 3594
    }

    predicate Supports(operation: Operation) {
      match this
      case Full | IoErrWrite => operation.Write?
      case IoErrRead => operation.Read?
      case IoErrFsync => operation.Sync?
      case IoErrTruncate => operation.Truncate?
      case IoErrDelete => operation.Delete?
      case IoErrLock => operation.Lock?
      case IoErrUnlock => operation.Unlock?
      case IoErrCheckReservedLock => operation.CheckReservedLock?
    }
  }

  datatype FaultMode = OneShot | Persistent

  datatype FaultAction = ReturnCode(code: FaultCode) | Pause

  datatype FaultTarget = FaultTarget(role: FileRole, operation: Operation, ordinal: nat)

  datatype FaultPlan = FaultPlan(target: FaultTarget, mode: FaultMode, action: FaultAction) {
    /** What the plan constructors let through. */
    predicate Valid() {
      && (target.role.MainDatabase? || target.role.RollbackJournal?) && target.ordinal < MAX_OPERATIONS
      && match action
         case ReturnCode(code) => code.Supports(target.operation)
         case Pause =>
           mode.OneShot? && (target.operation.Write? || target.operation.Sync?
                             || (target.operation.Delete? && target.role.RollbackJournal?))
    }

    /** The plan, while armed, takes this operation over. */
    predicate Fires(role: FileRole, operation: Operation, ordinal: nat) {
      && target.role == role && target.operation == operation
      && (if mode.OneShot? then ordinal == target.ordinal else ordinal >= target.ordinal)
    }

    function Effect(): Outcome {
      match action
      case ReturnCode(code) => Returned(code.SqliteCode())
      case Pause => Paused
    }
  }

  datatype RoleEvidence =
    | MainFlag | JournalFlag | WalFlag | TemporaryFlag | JournalName | WalName | SharedMemoryName | TemporaryName
    | SharedMemoryCallback | NoEvidence
  {
    function ExpectedRole(): FileRole {
      match this
      case MainFlag => MainDatabase
      case JournalFlag | JournalName => RollbackJournal
      case WalFlag | WalName => Wal
      case SharedMemoryName | SharedMemoryCallback => SharedMemory
      case TemporaryFlag | TemporaryName => Temporary
      case NoEvidence => UnknownRole
    }
  }

  datatype Outcome = Delegated | Returned(code: int) | Paused

  datatype Event = Event(
    globalOrdinal: nat, matchingOrdinal: nat, role: FileRole, evidence: RoleEvidence, operation: Operation,
    armed: bool, outcome: Outcome)

  datatype Monitor = Monitor(events: seq<Event>, overflowed: bool, plan: Option<FaultPlan>, armed: bool)

  const IDLE: Monitor := Monitor([], false, None, false)

  predicate Same(e: Event, role: FileRole, operation: Operation) {
    e.role == role && e.operation == operation
  }

  /** How many of the events were this operation on this role. */
  function CountOf(events: seq<Event>, role: FileRole, operation: Operation): (n: nat)
    ensures n <= |events|
  {
    if events == [] then 0
    else CountOf(events[..|events| - 1], role, operation) + (if Same(events[|events| - 1], role, operation) then 1 else 0)
  }

  lemma CountAppend(events: seq<Event>, e: Event, role: FileRole, operation: Operation)
    ensures CountOf(events + [e], role, operation)
            == CountOf(events, role, operation) + (if Same(e, role, operation) then 1 else 0)
  {
    assert (events + [e])[..|events|] == events;
  }

  function FailClosedCode(operation: Operation): int {
    match operation
    case Read => 266
    case Write => 778
    case Truncate => 1546
    case Sync => 1034
    case Delete => 2570
    case Lock => 3850
    case Unlock => 2058
    case CheckReservedLock => 3594
    case OpenFile | MapShared | Fetch => 10
  }

  /**
   The injected codes are pairwise different; each I/O code is what the controller fails closed with for the one
   operation it supports; and an extended code carries its primary result code in its low byte.
   */
  lemma CodesAgree(a: FaultCode, b: FaultCode, operation: Operation)
    ensures a.SqliteCode() == b.SqliteCode() ==> a == b
    ensures a.Supports(operation) && !a.Full? ==> a.SqliteCode() == FailClosedCode(operation)
    ensures a.SqliteCode() % 256 == (if a.Full? then 13 else 10) && FailClosedCode(operation) % 256 == 10
  {
  }

  function Decide(m: Monitor, role: FileRole, operation: Operation, ordinal: nat): Outcome {
    if m.armed && m.plan.Some? && m.plan.value.Fires(role, operation, ordinal) then m.plan.value.Effect()
    else Delegated
  }

  function Observe(m: Monitor, role: FileRole, evidence: RoleEvidence, operation: Operation): (Monitor, Outcome) {
    if |m.events| >= MAX_OPERATIONS then (m.(overflowed := true), Returned(FailClosedCode(operation)))
    else
      var ordinal := CountOf(m.events, role, operation);
      var outcome := Decide(m, role, operation, ordinal);
      (m.(events := m.events + [Event(|m.events|, ordinal, role, evidence, operation, m.armed, outcome)]), outcome)
  }

  /** A second plan is refused until reset, also after the first was disabled. */
  function Arm(m: Monitor, plan: FaultPlan): (Monitor, bool) {
    if m.plan.Some? then (m, false) else (m.(plan := Some(plan), armed := true), true)
  }

  datatype Step =
    | Resetting
    | Arming(plan: FaultPlan)
    | Disabling
    | Observing(role: FileRole, evidence: RoleEvidence, operation: Operation)

  predicate WellFormed(step: Step) {
    step.Arming? ==> step.plan.Valid()
  }

  function Next(m: Monitor, step: Step): Monitor {
    match step
    case Resetting => IDLE
    case Arming(plan) => Arm(m, plan).0
    case Disabling => m.(armed := false)
    case Observing(role, evidence, operation) => Observe(m, role, evidence, operation).0
  }

  function Run(m: Monitor, steps: seq<Step>): Monitor
    decreases |steps|
  {
    if steps == [] then m else Run(Next(m, steps[0]), steps[1..])
  }

  // ---------- the checker ----------

  datatype Snapshot = Snapshot(events: seq<Event>, overflowed: bool, plan: Option<FaultPlan>)

  function SnapshotOf(m: Monitor): Snapshot {
    Snapshot(m.events, m.overflowed, m.plan)
  }

  predicate OutcomeOk(plan: Option<FaultPlan>, e: Event) {
    match e.outcome
    case Delegated =>
      !(plan.Some? && e.armed && plan.value.mode.Persistent?
        && Same(e, plan.value.target.role, plan.value.target.operation)
        && e.matchingOrdinal >= plan.value.target.ordinal)
    case Returned(actual) =>
      && plan.Some? && plan.value.action.ReturnCode? && e.armed
      && plan.value.Fires(e.role, e.operation, e.matchingOrdinal)
      && plan.value.action.code.SqliteCode() == actual
    case Paused =>
      && plan.Some? && e.armed && plan.value.action.Pause?
      && Same(e, plan.value.target.role, plan.value.target.operation)
      && e.matchingOrdinal == plan.value.target.ordinal
  }

  predicate EventOk(s: Snapshot, i: nat)
    requires i < |s.events|
  {
    var e := s.events[i];
    && e.globalOrdinal == i && e.matchingOrdinal == CountOf(s.events[..i], e.role, e.operation)
    && e.role == e.evidence.ExpectedRole() && OutcomeOk(s.plan, e)
  }

  /** The event shows the plan's effect on the plan's target. */
  predicate Hit(plan: FaultPlan, e: Event) {
    Same(e, plan.target.role, plan.target.operation) && e.outcome == plan.Effect()
  }

  function Matching(plan: FaultPlan, events: seq<Event>): seq<Event> {
    if events == [] then []
    else Matching(plan, events[..|events| - 1])
         + (if Hit(plan, events[|events| - 1]) then [events[|events| - 1]] else [])
  }

  predicate PlanReached(plan: FaultPlan, events: seq<Event>) {
    var matching := Matching(plan, events);
    && (if plan.mode.OneShot? then |matching| == 1 else matching != [])
    && matching[0].matchingOrdinal == plan.target.ordinal
  }

  predicate Accepts(s: Snapshot) {
    && !s.overflowed && |s.events| <= MAX_OPERATIONS
    && (forall i :: 0 <= i < |s.events| ==> EventOk(s, i))
    && (s.plan.Some? ==> PlanReached(s.plan.value, s.events))
  }

  lemma CountStep(events: seq<Event>, i: nat, role: FileRole, operation: Operation)
    requires i < |events|
    ensures CountOf(events[..i + 1], role, operation)
            == CountOf(events[..i], role, operation) + (if Same(events[i], role, operation) then 1 else 0)
  {
    assert events[..i + 1][..i] == events[..i];
  }

  /** `saturating_add(1)` on a 16-bit counter. */
  function Bump(n: nat): nat {
    if n >= 0xffff then 0xffff else n + 1
  }

  lemma IndexesDiffer(a: FileRole, b: FileRole, x: Operation, y: Operation)
    ensures a.Index() == b.Index() <==> a == b
    ensures x.Index() == y.Index() <==> x == y
  {
  }

  /** Validation with a running counter table decides exactly `Accepts`. */
  method Validate(s: Snapshot) returns (ok: bool)
    ensures ok <==> Accepts(s)
  {
    if s.overflowed || |s.events| > MAX_OPERATIONS {
      return false;
    }
    var next := new nat[ROLE_COUNT, OPERATION_COUNT]((i, j) => 0);
    var i := 0;
    while i < |s.events|
      invariant 0 <= i <= |s.events|
      invariant forall k :: 0 <= k < i ==> EventOk(s, k)
      invariant forall role: FileRole, operation: Operation ::
                  next[role.Index(), operation.Index()] == CountOf(s.events[..i], role, operation)
    {
      var e := s.events[i];
      if e.globalOrdinal != i || e.matchingOrdinal != next[e.role.Index(), e.operation.Index()]
         || e.role != e.evidence.ExpectedRole() || !OutcomeOk(s.plan, e)
      {
        assert !EventOk(s, i);
        return false;
      }
      next[e.role.Index(), e.operation.Index()] := Bump(e.matchingOrdinal);
      forall role: FileRole, operation: Operation
        ensures next[role.Index(), operation.Index()] == CountOf(s.events[..i + 1], role, operation)
      {
        CountStep(s.events, i, role, operation);
        IndexesDiffer(role, e.role, operation, e.operation);
      }
      i := i + 1;
    }
    if s.plan.None? {
      return true;
    }
    ok := ReachedBy(s.plan.value, s.events);
  }

  method ReachedBy(plan: FaultPlan, events: seq<Event>) returns (ok: bool)
    ensures ok <==> PlanReached(plan, events)
  {
    var matching: seq<Event> := [];
    var i := 0;
    while i < |events|
      invariant 0 <= i <= |events| && matching == Matching(plan, events[..i])
    {
      assert events[..i + 1][..i] == events[..i];
      if Hit(plan, events[i]) {
        matching := matching + [events[i]];
      }
      i := i + 1;
    }
    assert events[..|events|] == events;
    var counted := if plan.mode.OneShot? then |matching| == 1 else matching != [];
    ok := counted && matching[0].matchingOrdinal == plan.target.ordinal;
  }

  // ---------- what every run keeps ----------

  /** What the monitor records of one operation: its place, its count, and the plan's effect exactly when it fired. */
  predicate Recorded(m: Monitor, i: nat)
    requires i < |m.events|
  {
    var e := m.events[i];
    && e.globalOrdinal == i && e.matchingOrdinal == CountOf(m.events[..i], e.role, e.operation)
    && (e.armed ==> m.plan.Some?)
    && e.outcome == (if e.armed && m.plan.Some? && m.plan.value.Fires(e.role, e.operation, e.matchingOrdinal)
                     then m.plan.value.Effect() else Delegated)
  }

  predicate Sound(m: Monitor) {
    && |m.events| <= MAX_OPERATIONS && (m.armed ==> m.plan.Some?) && (m.plan.Some? ==> m.plan.value.Valid())
    && forall i :: 0 <= i < |m.events| ==> Recorded(m, i)
  }

  lemma NextKeepsSound(m: Monitor, step: Step)
    requires Sound(m) && WellFormed(step)
    ensures Sound(Next(m, step))
  {
    var after := Next(m, step);
    forall i | 0 <= i < |after.events| ensures Recorded(after, i) {
      if i < |m.events| {
        assert Recorded(m, i);
        assert after.events[..i] == m.events[..i];
      } else {
        assert after.events[..i] == m.events;
      }
    }
  }

  lemma {:induction false} RunKeepsSound(m: Monitor, steps: seq<Step>)
    requires Sound(m) && forall i :: 0 <= i < |steps| ==> WellFormed(steps[i])
    ensures Sound(Run(m, steps))
    decreases |steps|
  {
    if steps != [] {
      NextKeepsSound(m, steps[0]);
      RunKeepsSound(Next(m, steps[0]), steps[1..]);
    }
  }

  // ---------- monitor and checker agree ----------

  predicate RolesFitEvidence(m: Monitor) {
    forall i :: 0 <= i < |m.events| ==> m.events[i].role == m.events[i].evidence.ExpectedRole()
  }

  /** The plan's exact target operation was seen while the plan was armed. */
  predicate TargetSeen(plan: FaultPlan, e: Event) {
    e.armed && Same(e, plan.target.role, plan.target.operation) && e.matchingOrdinal == plan.target.ordinal
  }

  predicate TargetMet(m: Monitor) {
    m.plan.None? || exists i :: 0 <= i < |m.events| && TargetSeen(m.plan.value, m.events[i])
  }

  lemma {:induction false} CountRises(events: seq<Event>, i: nat, k: nat, role: FileRole, operation: Operation)
    requires i < k <= |events| && Same(events[i], role, operation)
    ensures CountOf(events[..i], role, operation) < CountOf(events[..k], role, operation)
    decreases k
  {
    CountStep(events, k - 1, role, operation);
    if i < k - 1 {
      CountRises(events, i, k - 1, role, operation);
    }
  }

  lemma OrdinalsRise(m: Monitor, i: nat, k: nat)
    requires Sound(m) && i < k < |m.events| && Same(m.events[i], m.events[k].role, m.events[k].operation)
    ensures m.events[i].matchingOrdinal < m.events[k].matchingOrdinal
  {
    assert Recorded(m, i) && Recorded(m, k);
    CountRises(m.events, i, k, m.events[k].role, m.events[k].operation);
  }

  /** In a recorded trace, showing the effect is the same as having fired while armed. */
  lemma HitsAreFirings(m: Monitor, i: nat)
    requires Sound(m) && m.plan.Some? && i < |m.events|
    ensures var e := m.events[i];
            Hit(m.plan.value, e) <==> e.armed && m.plan.value.Fires(e.role, e.operation, e.matchingOrdinal)
  {
    assert Recorded(m, i);
  }

  lemma RecordedOutcomesPass(m: Monitor, i: nat)
    requires Sound(m) && i < |m.events|
    ensures OutcomeOk(m.plan, m.events[i])
  {
    assert Recorded(m, i);
  }

  /** The first matching event is the first hit of the trace. */
  lemma {:induction false} FirstMatching(plan: FaultPlan, events: seq<Event>) returns (i: nat)
    requires Matching(plan, events) != []
    ensures i < |events| && events[i] == Matching(plan, events)[0] && Hit(plan, events[i])
    ensures forall j :: 0 <= j < i ==> !Hit(plan, events[j])
  {
    var front := events[..|events| - 1];
    if Matching(plan, front) != [] {
      i := FirstMatching(plan, front);
    } else {
      i := |events| - 1;
      NoneMatching(plan, front);
      assert forall j :: 0 <= j < i ==> events[j] == front[j];
    }
  }

  lemma {:induction false} NoneMatching(plan: FaultPlan, events: seq<Event>)
    ensures Matching(plan, events) == [] <==> forall j :: 0 <= j < |events| ==> !Hit(plan, events[j])
  {
    if events != [] {
      var front := events[..|events| - 1];
      NoneMatching(plan, front);
      assert forall j :: 0 <= j < |front| ==> events[j] == front[j];
      if Matching(plan, front) != [] {
        var j :| 0 <= j < |front| && Hit(plan, front[j]);
        assert Hit(plan, events[j]);
      }
    }
  }

  /** A one-shot plan fires at most once. */
  lemma {:induction false} OneShotOnce(m: Monitor, n: nat)
    requires Sound(m) && m.plan.Some? && m.plan.value.mode.OneShot? && n <= |m.events|
    ensures |Matching(m.plan.value, m.events[..n])| <= 1
    decreases n
  {
    if n > 0 {
      var plan := m.plan.value;
      var front := m.events[..n - 1];
      assert m.events[..n][..n - 1] == front;
      OneShotOnce(m, n - 1);
      if Matching(plan, front) != [] && Hit(plan, m.events[n - 1]) {
        var i := FirstMatching(plan, front);
        HitsAreFirings(m, i);
        HitsAreFirings(m, n - 1);
        OrdinalsRise(m, i, n - 1);
      }
    }
  }

  lemma ReachedMeansMet(m: Monitor)
    requires Sound(m) && m.plan.Some?
    ensures PlanReached(m.plan.value, m.events) <==> TargetMet(m)
  {
    var plan := m.plan.value;
    var matching := Matching(plan, m.events);
    assert m.events[..|m.events|] == m.events;
    if plan.mode.OneShot? {
      OneShotOnce(m, |m.events|);
    }
    if matching != [] {
      var i := FirstMatching(plan, m.events);
      HitsAreFirings(m, i);
      if k :| 0 <= k < |m.events| && TargetSeen(plan, m.events[k]) {
        HitsAreFirings(m, k);
        if i < k {
          OrdinalsRise(m, i, k);
        }
        assert matching[0].matchingOrdinal == plan.target.ordinal;
      } else if matching[0].matchingOrdinal == plan.target.ordinal {
        assert TargetSeen(plan, m.events[i]);
      }
    } else {
      NoneMatching(plan, m.events);
      forall k | 0 <= k < |m.events| ensures !TargetSeen(plan, m.events[k]) {
        HitsAreFirings(m, k);
      }
    }
  }

  /**
   For every sequence of reset, arm, disable and observe calls: the checker accepts the snapshot exactly
   when nothing overflowed, every role agrees with its evidence, and the plan, if there is one, met its
   exact target while armed.
   */
  lemma MonitorAndCheckerAgree(steps: seq<Step>)
    requires forall i :: 0 <= i < |steps| ==> WellFormed(steps[i])
    ensures var m := Run(IDLE, steps);
            Accepts(SnapshotOf(m)) <==> !m.overflowed && RolesFitEvidence(m) && TargetMet(m)
  {
    RunKeepsSound(IDLE, steps);
    var m := Run(IDLE, steps);
    hide Run;
    if m.plan.Some? {
      ReachedMeansMet(m);
    }
    forall i | 0 <= i < |m.events|
      ensures EventOk(SnapshotOf(m), i) <==> m.events[i].role == m.events[i].evidence.ExpectedRole()
    {
      RecordedOutcomesPass(m, i);
      assert Recorded(m, i);
    }
    if Accepts(SnapshotOf(m)) {
      forall i | 0 <= i < |m.events| ensures m.events[i].role == m.events[i].evidence.ExpectedRole() {
        assert EventOk(SnapshotOf(m), i);
      }
    }
  }

  // ---------- when a plan can be armed ----------

  /** Some arming call came after the last reset. */
  predicate ArmedSinceReset(steps: seq<Step>) {
    steps != []
    && match steps[|steps| - 1]
       case Resetting => false
       case Arming(_) => true
       case _ => ArmedSinceReset(steps[..|steps| - 1])
  }

  lemma {:induction false} RunAppend(m: Monitor, steps: seq<Step>, step: Step)
    ensures Run(m, steps + [step]) == Next(Run(m, steps), step)
    decreases |steps|
  {
    if steps == [] {
      assert steps + [step] == [step] && [step][1..] == [];
      assert Run(m, [step]) == Run(Next(m, step), []);
    } else {
      assert (steps + [step])[1..] == steps[1..] + [step];
      RunAppend(Next(m, steps[0]), steps[1..], step);
    }
  }

  /** A plan is accepted exactly when none was armed since the last reset; disabling in between does not help. */
  lemma {:induction false} ArmingNeedsReset(steps: seq<Step>, plan: FaultPlan)
    ensures Arm(Run(IDLE, steps), plan).1 <==> !ArmedSinceReset(steps)
    decreases |steps|
  {
    if steps != [] {
      var front := steps[..|steps| - 1];
      var last := steps[|steps| - 1];
      assert steps == front + [last];
      RunAppend(IDLE, front, last);
      ArmingNeedsReset(front, plan);
    }
  }

  // ---------- the monitor as it runs ----------

  class Controller {
    var events: seq<Event>
    var counts: array2<nat>
    var overflowed: bool
    var plan: Option<FaultPlan>
    var armed: bool

    ghost function State(): Monitor
      reads this
    {
      Monitor(events, overflowed, plan, armed)
    }

    /** The counter table holds the counts of the recorded events. */
    ghost predicate Valid()
      reads this, counts
    {
      && counts.Length0 == ROLE_COUNT && counts.Length1 == OPERATION_COUNT && |events| <= MAX_OPERATIONS
      && forall role: FileRole, operation: Operation ::
           counts[role.Index(), operation.Index()] == CountOf(events, role, operation)
    }

    constructor ()
      ensures Valid() && fresh(counts) && State() == IDLE
    {
      events := [];
      counts := new nat[ROLE_COUNT, OPERATION_COUNT]((i, j) => 0);
      overflowed := false;
      plan := None;
      armed := false;
    }

    method Reset()
      modifies this
      ensures Valid() && fresh(counts) && State() == IDLE
    {
      events := [];
      counts := new nat[ROLE_COUNT, OPERATION_COUNT]((i, j) => 0);
      overflowed := false;
      plan := None;
      armed := false;
    }

    method ArmPlan(next: FaultPlan) returns (ok: bool)
      requires Valid() && next.Valid()
      modifies this`plan, this`armed
      ensures Valid() && (State(), ok) == Arm(old(State()), next)
    {
      if plan.Some? {
        return false;
      }
      plan := Some(next);
      armed := true;
      return true;
    }

    method Disable()
      requires Valid()
      modifies this`armed
      ensures Valid() && State() == old(State()).(armed := false)
    {
      armed := false;
    }

    /** Advances one cell of the counter table. */
    method CountUp(role: FileRole, operation: Operation) returns (ordinal: nat)
      requires Valid() && |events| < MAX_OPERATIONS
      modifies counts
      ensures ordinal == CountOf(events, role, operation)
      ensures forall r: FileRole, o: Operation ::
                counts[r.Index(), o.Index()]
                == CountOf(events, r, o) + (if r == role && o == operation then 1 else 0)
    {
      hide FileRole.Index, Operation.Index, CountOf;
      ordinal := counts[role.Index(), operation.Index()];
      counts[role.Index(), operation.Index()] := Bump(ordinal);
      forall r: FileRole, o: Operation
        ensures counts[r.Index(), o.Index()] == CountOf(events, r, o) + (if r == role && o == operation then 1 else 0)
      {
        IndexesDiffer(r, role, o, operation);
      }
    }

    method ObserveOperation(role: FileRole, evidence: RoleEvidence, operation: Operation) returns (decision: Outcome)
      requires Valid()
      modifies this`events, this`overflowed, counts
      ensures Valid() && counts == old(counts)
      ensures (State(), decision) == Observe(old(State()), role, evidence, operation)
    {
      hide FileRole.Index, Operation.Index, FaultPlan.Fires, FaultPlan.Effect, FailClosedCode, CountOf;
      if |events| >= MAX_OPERATIONS {
        overflowed := true;
        return Returned(FailClosedCode(operation));
      }
      var ordinal := CountUp(role, operation);
      decision := Delegated;
      if plan.Some? && armed && plan.value.Fires(role, operation, ordinal) {
        decision := plan.value.Effect();
      }
      ghost var before := events;
      var e := Event(|events|, ordinal, role, evidence, operation, armed, decision);
      events := events + [e];
      forall r: FileRole, o: Operation ensures counts[r.Index(), o.Index()] == CountOf(events, r, o) {
        CountAppend(before, e, r, o);
      }
    }
  }
}
