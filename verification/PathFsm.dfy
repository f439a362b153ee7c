/** The lifecycle of one network path: nine states, ten events, a retry budget and a two-sided cleanup. */
module PathFsm {
  import opened Bits

  datatype Lifecycle =
    | Pending | CreateWait | Validating | Active | Standby | Degraded
    | ClosedRecoverable | ClosedDropped | ClosedFree

  /** What the public API shows. */
  datatype Status = StatusPending | StatusActive | StatusStandby | StatusDegraded | StatusClosed

  function Project(s: Lifecycle): Status {
    match s
    case Pending | CreateWait | Validating => StatusPending
    case Active => StatusActive
    case Standby => StatusStandby
    case Degraded => StatusDegraded
    case ClosedRecoverable | ClosedDropped | ClosedFree => StatusClosed
  }

  /** The path status told to the peer. */
  datatype Notice = NoNotice | ToldStandby | ToldAvailable | ToldFrozen

  /** State of a path. `attached`: the platform owns a socket for it; `live`: the transport has a path `xqcId` for it.
      A retry is armed when `retryAt` is not zero. `told` is history: the notices that reached the transport. */
  datatype Path = Path(
    state: Lifecycle, status: Status, attached: bool, live: bool, fd: int, xqcId: nat,
    retryAt: nat, retries: nat, stableSince: nat, told: seq<Notice>)

  datatype Activation = ActivateOk | ActivateTransient | ActivatePermanent

  datatype PathEvent =
    | ActivateRequested(result: Activation, newId: nat, now: nat)
    | RetryTimer(result: Activation, newId: nat, now: nat)
    | ValidationOk(target: Lifecycle, now: nat)
    | XquicRemoved(now: nat)
    | ManualReactivate(result: Activation, newId: nat)
    | PlatformDrop
    | RemoveApi
    | AddFd
    | ConnReset
    | FdClosed

  const RECREATE_DELAY: nat := 5000000
  const RECREATE_MAX_DELAY: nat := 60000000
  const RECREATE_MAX_RETRIES: nat := 6
  const STABLE_THRESHOLD: nat := 30000000
  const CLOCK_RANGE: nat := 0x1_0000_0000_0000_0000

  // ----- helpers -----

  function NoticeFor(from: Lifecycle, to: Lifecycle): Notice {
    if from == Active && to == Standby then ToldStandby
    else if from == Standby && to == Active then ToldAvailable
    else if (from == Active || from == Standby) && to == Degraded then ToldFrozen
    else NoNotice
  }

  /** A notice reaches the transport only while the path is live there. */
  function Notify(p: Path, n: Notice): Path {
    if n != NoNotice && p.live then p.(told := p.told + [n]) else p
  }

  /** Change state; the public status follows, and the peer is told of a change of class. */
  function Enter(p: Path, s: Lifecycle): Path {
    if p.state == s then p else Notify(p.(state := s, status := Project(s)), NoticeFor(p.state, s))
  }

  function Doubled(delay: nat, r: nat, retries: nat): nat
    decreases if r < retries then retries - r else 0
  {
    if r < retries && delay < RECREATE_MAX_DELAY then Doubled(delay * 2, r + 1, retries) else delay
  }

  /** Delay before the next attempt, after so many failures. */
  function Backoff(retries: nat): nat {
    var delay := Doubled(RECREATE_DELAY, 1, retries);
    if delay > RECREATE_MAX_DELAY then RECREATE_MAX_DELAY else delay
  }

  /** A failure: count it, and arm a retry or give up. */
  function Fail(p: Path, target: Lifecycle, now: nat): Path {
    var q := p.(live := false, xqcId := 0, stableSince := 0, retries := p.retries + 1);
    if q.retries >= RECREATE_MAX_RETRIES then Enter(q.(retryAt := 0), ClosedRecoverable)
    else Enter(q.(retryAt := now + Backoff(q.retries)), target)
  }

  function GiveUp(p: Path): Path {
    Enter(p.(live := false, xqcId := 0, stableSince := 0, retryAt := 0), ClosedRecoverable)
  }

  function Created(p: Path, newId: nat): Path {
    Enter(p.(xqcId := newId, live := true, retryAt := 0), Validating)
  }

  function Cleanup(p: Path): Path {
    if p.state == ClosedDropped && p.fd < 0 && !p.live && p.xqcId == 0 then Enter(p, ClosedFree) else p
  }

  // ----- the ten events -----

  function OnActivateRequested(p: Path, result: Activation, newId: nat, now: nat): Path {
    if p.state != Pending then p
    else
      match result
      case ActivateOk => Created(p, newId)
      case ActivateTransient => Fail(p, CreateWait, now)
      case ActivatePermanent => GiveUp(p)
  }

  function OnRetryTimer(p: Path, result: Activation, newId: nat, now: nat): Path {
    if p.state != CreateWait && p.state != Degraded then p
    else
      match result
      case ActivateOk => Created(p, newId)
      case ActivateTransient => Fail(p, p.state, now)
      case ActivatePermanent => GiveUp(p)
  }

  function OnValidationOk(p: Path, target: Lifecycle, now: nat): Path {
    if p.state != Validating then p else Enter(p.(stableSince := now), target)
  }

  function OnXquicRemoved(p: Path, now: nat): Path {
    match p.state
    case Validating => Fail(p, CreateWait, now)
    case Active | Standby => Fail(p, Degraded, now)
    case ClosedDropped => Cleanup(p.(live := false, xqcId := 0))
    case _ => p
  }

  function OnManualReactivate(p: Path, result: Activation, newId: nat): Path {
    if p.state != ClosedRecoverable && p.state != CreateWait && p.state != Degraded then p
    else if result == ActivateOk then Created(p, newId)
    else p
  }

  function OnDrop(p: Path): Path {
    if p.state == ClosedDropped || p.state == ClosedFree then p
    else Enter(p.(attached := false, retryAt := 0, stableSince := 0), ClosedDropped)
  }

  function OnAddFd(p: Path): Path {
    if p.state != ClosedFree then p else Enter(p.(attached := true), Pending)
  }

  function OnConnReset(p: Path): Path {
    var q := p.(live := false, xqcId := 0, retryAt := 0, retries := 0, stableSince := 0);
    if p.attached then Enter(q, Pending) else Cleanup(q)
  }

  function OnFdClosed(p: Path): Path {
    if p.state != ClosedDropped then p else Cleanup(p.(fd := -1))
  }

  function OnEvent(p: Path, ev: PathEvent): Path {
    match ev
    case ActivateRequested(result, newId, now) => OnActivateRequested(p, result, newId, now)
    case RetryTimer(result, newId, now) => OnRetryTimer(p, result, newId, now)
    case ValidationOk(target, now) => OnValidationOk(p, target, now)
    case XquicRemoved(now) => OnXquicRemoved(p, now)
    case ManualReactivate(result, newId) => OnManualReactivate(p, result, newId)
    case PlatformDrop | RemoveApi => OnDrop(p)
    case AddFd => OnAddFd(p)
    case ConnReset => OnConnReset(p)
    case FdClosed => OnFdClosed(p)
  }

  // ----- what else changes a path -----

  /** Unsigned 64-bit subtraction. */
  function Elapsed(now: nat, since: nat): nat {
    (now - since) % CLOCK_RANGE
  }

  predicate StableFires(p: Path, now: nat) {
    && (p.state == Active || p.state == Standby)
    && p.stableSince != 0 && p.live && Elapsed(now, p.stableSince) >= STABLE_THRESHOLD
  }

  /** Usable for 30 seconds: the retry budget is whole again, and the next 30 seconds start now. */
  function ConfirmStable(p: Path, now: nat): Path {
    if StableFires(p, now) then p.(retries := 0, stableSince := now) else p
  }

  /** The transport creates the primary path together with the connection. */
  function Bootstrap(p: Path): Path {
    Enter(p.(xqcId := 0, live := true), Validating)
  }

  const UNUSED := Path(ClosedFree, StatusClosed, false, false, -1, 0, 0, 0, 0, [])

  /** A slot as add_path leaves it. */
  function Added(fd: nat): Path {
    OnEvent(UNUSED.(fd := fd), AddFd)
  }

  datatype Step = Event(ev: PathEvent) | StableTick(now: nat) | PrimaryBootstrap

  function Take(p: Path, s: Step): Path {
    match s
    case Event(ev) => OnEvent(p, ev)
    case StableTick(now) => ConfirmStable(p, now)
    case PrimaryBootstrap => Bootstrap(p)
  }

  /** What the callers see to: a validated path goes to active or standby, a free slot is initialised before ADD_FD,
      and the bootstrap takes a path that has a socket, in whatever state. */
  predicate Allowed(p: Path, s: Step) {
    && (s.Event? && s.ev.ValidationOk? ==> s.ev.target == Active || s.ev.target == Standby)
    && (s.Event? && s.ev.AddFd? ==> p.state != ClosedFree)
    && (s.PrimaryBootstrap? ==> p.attached)
  }

  // ----- the invariant -----

  /** The table that debug builds assert after every event. */
  predicate Checked(p: Path) {
    && p.status == Project(p.state)
    && match p.state
       case Pending => p.attached && !p.live && p.fd >= 0 && p.xqcId == 0 && p.retryAt == 0 && p.stableSince == 0
       case CreateWait => p.attached && !p.live && p.fd >= 0 && p.retryAt != 0
       case Validating => p.attached && p.live && p.fd >= 0 && p.retryAt == 0
       case Active | Standby => p.attached && p.live && p.fd >= 0 && p.retryAt == 0
       case Degraded => p.attached && !p.live && p.fd >= 0 && p.xqcId == 0 && p.retryAt != 0 && p.stableSince == 0
       case ClosedRecoverable =>
         p.attached && !p.live && p.fd >= 0 && p.xqcId == 0 && p.retryAt == 0 && p.stableSince == 0
       case ClosedDropped => !p.attached && p.retryAt == 0 && p.stableSince == 0
       case ClosedFree => !p.attached && !p.live && p.fd < 0 && p.xqcId == 0 && p.retryAt == 0 && p.stableSince == 0
  }

  /** The table does not hold by itself from event to event; this does. It is the table, sharpened, but for one thing:
      a path with a live binding may still have a retry armed. */
  predicate PathInv(p: Path) {
    && p.status == Project(p.state)
    && (p.attached <==> p.state != ClosedDropped && p.state != ClosedFree)
    && (p.attached ==> p.fd >= 0)
    && (!p.live ==> p.xqcId == 0)
    && p.told == []
    && match p.state
       case Validating | Active | Standby => p.live
       case CreateWait | Degraded =>
         !p.live && p.retryAt != 0 && p.stableSince == 0 && 1 <= p.retries < RECREATE_MAX_RETRIES
       case Pending | ClosedRecoverable => !p.live && p.retryAt == 0 && p.stableSince == 0
       case ClosedDropped => p.retryAt == 0 && p.stableSince == 0 && (p.fd >= 0 || p.live)
       case ClosedFree => !p.live && p.retryAt == 0 && p.stableSince == 0 && p.fd < 0
  }

  /** A path that is bound to the transport and yet waits for a retry. */
  predicate StaleRetry(p: Path) {
    p.attached && p.live && p.retryAt != 0
  }

  lemma CheckedIff(p: Path)
    requires PathInv(p)
    ensures Checked(p) <==> !StaleRetry(p)
  {
  }

  lemma AddedInv(fd: nat)
    ensures PathInv(Added(fd)) && Checked(Added(fd)) && Added(fd).state == Pending && Added(fd).fd == fd
  {
  }

  lemma BackoffPositive(retries: nat)
    ensures Backoff(retries) > 0
  {
    DoubledAtLeast(RECREATE_DELAY, 1, retries);
  }

  lemma DoubledAtLeast(delay: nat, r: nat, retries: nat)
    ensures Doubled(delay, r, retries) >= delay
    decreases if r < retries then retries - r else 0
  {
  }

  lemma FailInv(p: Path, target: Lifecycle, now: nat)
    requires PathInv(p) && p.attached && (target == CreateWait || target == Degraded)
    ensures PathInv(Fail(p, target, now))
  {
    hide Backoff;
    BackoffPositive(p.retries + 1);
  }

  /** Every event, the stability tick and a bootstrap from any state keep the invariant. */
  lemma StepKeepsPathInv(p: Path, s: Step)
    requires PathInv(p) && Allowed(p, s)
    ensures PathInv(Take(p, s))
  {
    hide Fail, Elapsed;
    if p.attached && s.Event? && (s.ev.ActivateRequested? || s.ev.RetryTimer? || s.ev.XquicRemoved?) {
      FailInv(p, CreateWait, s.ev.now);
      FailInv(p, Degraded, s.ev.now);
    }
  }

  function Run(p: Path, steps: seq<Step>): Path {
    if steps == [] then p else Take(Run(p, steps[..|steps| - 1]), steps[|steps| - 1])
  }

  /** Every step of the run finds the path as its caller expects. */
  predicate AllowedRun(p: Path, steps: seq<Step>) {
    steps == [] || (AllowedRun(p, steps[..|steps| - 1]) && Allowed(Run(p, steps[..|steps| - 1]), steps[|steps| - 1]))
  }

  /** The invariant holds in every state of every run, and no notice ever reaches the peer: a path leaves active or
      standby only after it has ceased to be live. */
  lemma {:induction false} RunKeepsPathInv(p: Path, steps: seq<Step>)
    requires PathInv(p) && AllowedRun(p, steps)
    ensures PathInv(Run(p, steps)) && Run(p, steps).told == []
  {
    hide PathInv, Take, Allowed;
    if steps != [] {
      RunKeepsPathInv(p, steps[..|steps| - 1]);
      StepKeepsPathInv(Run(p, steps[..|steps| - 1]), steps[|steps| - 1]);
    }
    InvMeans(Run(p, steps));
  }

  lemma InvMeans(p: Path)
    requires PathInv(p)
    ensures p.told == []
  {
  }

  // ----- when the asserted table holds -----

  /** The bootstrap finds a retry armed. */
  predicate ArmedBootstrap(p: Path, s: Step) {
    s.PrimaryBootstrap? && p.retryAt != 0
  }

  lemma CheckedStepIff(p: Path, s: Step)
    requires PathInv(p) && Checked(p) && Allowed(p, s)
    ensures Checked(Take(p, s)) <==> !ArmedBootstrap(p, s)
  {
    hide Backoff, Elapsed;
    StepKeepsPathInv(p, s);
  }

  predicate AlwaysChecked(p: Path, steps: seq<Step>) {
    Checked(Run(p, steps)) && (steps != [] ==> AlwaysChecked(p, steps[..|steps| - 1]))
  }

  predicate NoArmedBootstrap(p: Path, steps: seq<Step>) {
    steps == [] ||
      (NoArmedBootstrap(p, steps[..|steps| - 1]) && !ArmedBootstrap(Run(p, steps[..|steps| - 1]), steps[|steps| - 1]))
  }

  /** In every run, with bootstraps from any state: the asserted table holds at every moment exactly if no bootstrap finds
      a retry armed. */
  lemma {:induction false} TableHoldsIff(p: Path, steps: seq<Step>)
    requires PathInv(p) && Checked(p) && AllowedRun(p, steps)
    ensures AlwaysChecked(p, steps) <==> NoArmedBootstrap(p, steps)
  {
    hide PathInv, Take, Checked, Allowed, ArmedBootstrap;
    if steps != [] {
      var init := steps[..|steps| - 1];
      TableHoldsIff(p, init);
      RunKeepsPathInv(p, init);
      if Checked(Run(p, init)) {
        CheckedStepIff(Run(p, init), steps[|steps| - 1]);
      }
      LastChecked(p, init);
    }
  }

  lemma LastChecked(p: Path, steps: seq<Step>)
    ensures AlwaysChecked(p, steps) ==> Checked(Run(p, steps))
  {
  }

  /** The bootstrap writes whatever the state of the path; it keeps the table exactly when the path is attached, which
      its caller sees to, and waits for no retry. */
  lemma BootstrapKeepsTableIff(p: Path)
    requires PathInv(p)
    ensures Checked(Bootstrap(p)) <==> p.attached && p.retryAt == 0
  {
  }

  /** The subtraction is unsigned, so a clock that stepped back also resets the budget. */
  lemma StableFiresIff(p: Path, now: nat)
    requires now < CLOCK_RANGE && p.stableSince < CLOCK_RANGE
    ensures StableFires(p, now) <==>
      && (p.state == Active || p.state == Standby) && p.stableSince != 0 && p.live
      && (now >= p.stableSince + STABLE_THRESHOLD ||
          (now < p.stableSince && p.stableSince - now <= CLOCK_RANGE - STABLE_THRESHOLD))
  {
    if now >= p.stableSince {
      ModUnique(now - p.stableSince, CLOCK_RANGE, 0, now - p.stableSince);
    } else {
      assert now - p.stableSince == CLOCK_RANGE * -1 + (CLOCK_RANGE + now - p.stableSince);
      assert Elapsed(now, p.stableSince) == CLOCK_RANGE + now - p.stableSince;
    }
  }

  /** An instance: a path that failed once, became active at 10, and is looked at when the clock has gone back to 5. */
  lemma BackwardsClockRenewsBudget()
    ensures var waiting := Take(Added(3), Event(ActivateRequested(ActivateTransient, 0, 1)));
      var active := Take(Take(waiting, Event(RetryTimer(ActivateOk, 1, 9))), Event(ValidationOk(Active, 10)));
      active.state == Active && active.retries == 1 && Take(active, StableTick(5)).retries == 0
  {
    hide Backoff;
    BackoffPositive(1);
    var waiting := Take(Added(3), Event(ActivateRequested(ActivateTransient, 0, 1)));
    var active := Take(Take(waiting, Event(RetryTimer(ActivateOk, 1, 9))), Event(ValidationOk(Active, 10)));
    StableFiresIff(active, 5);
  }

  // ----- retry budget -----

  lemma {:induction false} DoubledValue(delay: nat, r: nat, retries: nat)
    requires delay > 0 && 1 <= r
    ensures Min(Doubled(delay, r, retries), RECREATE_MAX_DELAY) ==
            Min(delay * Pow2(if r < retries then retries - r else 0), RECREATE_MAX_DELAY)
    decreases if r < retries then retries - r else 0
  {
    if r < retries {
      var k := retries - r;
      assert Pow2(k) == 2 * Pow2(k - 1);
      if delay < RECREATE_MAX_DELAY {
        DoubledValue(delay * 2, r + 1, retries);
        assert delay * Pow2(k) == (delay * 2) * Pow2(k - 1);
      } else {
        assert delay * Pow2(k) >= delay by {
          assert Pow2(k) >= 1;
        }
      }
    }
  }

  /** 5 seconds, doubled for every failure after the first, at most 60. */
  lemma BackoffValue(retries: nat)
    ensures Backoff(retries) ==
            Min(RECREATE_DELAY * Pow2(if retries > 1 then retries - 1 else 0), RECREATE_MAX_DELAY)
  {
    DoubledValue(RECREATE_DELAY, 1, retries);
  }

  lemma BackoffMonotone(a: nat, b: nat)
    requires a <= b
    ensures Backoff(a) <= Backoff(b)
  {
    BackoffValue(a);
    BackoffValue(b);
    Pow2Monotone(if a > 1 then a - 1 else 0, if b > 1 then b - 1 else 0);
  }

  /** The step is a failure to activate or to stay validated. */
  predicate IsFailure(p: Path, s: Step) {
    s.Event? && match s.ev
    case ActivateRequested(result, _, _) => p.state == Pending && result == ActivateTransient
    case RetryTimer(result, _, _) => (p.state == CreateWait || p.state == Degraded) && result == ActivateTransient
    case XquicRemoved(_) => p.state == Validating || p.state == Active || p.state == Standby
    case _ => false
  }

  /** The step makes the budget whole again. */
  predicate IsReset(p: Path, s: Step) {
    (s.Event? && s.ev.ConnReset?) || (s.StableTick? && StableFires(p, s.now))
  }

  /** The delay that a step arms. */
  function Arms(p: Path, s: Step): nat {
    if IsFailure(p, s) && p.retries + 1 < RECREATE_MAX_RETRIES then Backoff(p.retries + 1) else 0
  }

  function Failures(p: Path, steps: seq<Step>): nat {
    if steps == [] then 0
    else
      var init := steps[..|steps| - 1];
      Failures(p, init) + if IsFailure(Run(p, init), steps[|steps| - 1]) then 1 else 0
  }

  function ArmedDelay(p: Path, steps: seq<Step>): nat {
    if steps == [] then 0
    else
      var init := steps[..|steps| - 1];
      ArmedDelay(p, init) + Arms(Run(p, init), steps[|steps| - 1])
  }

  predicate NoReset(p: Path, steps: seq<Step>) {
    steps == [] || (NoReset(p, steps[..|steps| - 1]) && !IsReset(Run(p, steps[..|steps| - 1]), steps[|steps| - 1]))
  }

  /** Sum of the first n backoff delays. */
  function DelaySum(n: nat): nat {
    if n == 0 then 0 else DelaySum(n - 1) + Backoff(n)
  }

  lemma EnterKeepsRetries()
    ensures forall p: Path, s: Lifecycle :: Enter(p, s).retries == p.retries
  {
  }

  lemma CountsFailure(p: Path, s: Step)
    requires !IsReset(p, s)
    ensures Take(p, s).retries == p.retries + if IsFailure(p, s) then 1 else 0
  {
    hide Backoff, Elapsed, Enter;
    EnterKeepsRetries();
  }

  /** A failure exhausts the budget exactly when it is the sixth or later; before that it arms the retry. */
  lemma FailureExhaustsIff(p: Path, s: Step)
    requires PathInv(p) && IsFailure(p, s)
    ensures Take(p, s).state == ClosedRecoverable <==> p.retries + 1 >= RECREATE_MAX_RETRIES
    ensures p.retries + 1 < RECREATE_MAX_RETRIES ==>
              Take(p, s).retryAt == s.ev.now + Arms(p, s) && Arms(p, s) > 0
  {
    hide Backoff;
    BackoffPositive(p.retries + 1);
  }

  /** From a fresh budget, in any run that does not renew it: the counter is the number of failures, and the delays
      armed are the first backoffs, 135 seconds in all at most. */
  lemma {:induction false} RetryBudget(p: Path, steps: seq<Step>)
    requires p.retries == 0 && NoReset(p, steps)
    ensures Run(p, steps).retries == Failures(p, steps)
    ensures ArmedDelay(p, steps) == DelaySum(Min(Failures(p, steps), RECREATE_MAX_RETRIES - 1)) <= 135000000
  {
    hide Take, IsReset, IsFailure, Backoff;
    if steps != [] {
      RetryBudget(p, steps[..|steps| - 1]);
      CountsFailure(Run(p, steps[..|steps| - 1]), steps[|steps| - 1]);
    }
    DelaySumBound(Min(Failures(p, steps), RECREATE_MAX_RETRIES - 1));
  }

  lemma DelaySumBound(n: nat)
    requires n <= 5
    ensures DelaySum(n) <= DelaySum(5) == 135000000
  {
    assert Backoff(1) == 5000000 && Backoff(2) == 10000000 && Backoff(3) == 20000000;
    assert Doubled(40000000, 4, 4) == 40000000;
    assert Backoff(4) == 40000000;
    assert Doubled(80000000, 5, 5) == 80000000;
    assert Backoff(5) == 60000000;
    assert DelaySum(1) == 5000000 && DelaySum(2) == 15000000 && DelaySum(3) == 35000000;
    assert DelaySum(4) == 75000000;
  }

  /** Hence the sixth failure, and no earlier one, gives the path up. */
  lemma {:induction false} SixthFailureGivesUp(p: Path, steps: seq<Step>, s: Step)
    requires PathInv(p) && p.retries == 0 && AllowedRun(p, steps) && NoReset(p, steps) && IsFailure(Run(p, steps), s)
    ensures Take(Run(p, steps), s).state == ClosedRecoverable <==> Failures(p, steps) >= 5
  {
    hide PathInv, Take, IsFailure, NoReset, AllowedRun;
    RetryBudget(p, steps);
    RunKeepsPathInv(p, steps);
    FailureExhaustsIff(Run(p, steps), s);
  }

  // ----- cleanup after a drop -----

  predicate Gone(p: Path) {
    p.state == ClosedDropped || p.state == ClosedFree
  }

  predicate Reaches(steps: seq<Step>, fd: bool) {
    exists i :: 0 <= i < |steps| && Closes(steps[i], fd)
  }

  /** The step closes the socket side (`fd`) or the transport side of a dropped path. */
  predicate Closes(s: Step, fd: bool) {
    s.Event? && if fd then s.ev.FdClosed? else s.ev.XquicRemoved? || s.ev.ConnReset?
  }

  lemma GoneStep(p: Path, s: Step)
    requires PathInv(p) && Gone(p) && Allowed(p, s)
    ensures var q := Take(p, s);
      && Gone(q) && !q.attached
      && (q.fd < 0 <==> p.fd < 0 || (p.state == ClosedDropped && Closes(s, true)))
      && (q.live <==> p.live && !Closes(s, false))
      && (q.state == ClosedFree <==> q.fd < 0 && !q.live)
  {
    hide Elapsed;
  }

  /** A dropped path is never attached again, and its slot is free exactly when the socket has been closed and the
      transport has let go of it - in whichever order, and whatever happens in between. */
  lemma {:induction false} CleanupIsConfluent(p: Path, steps: seq<Step>)
    requires PathInv(p) && Gone(p) && AllowedRun(p, steps)
    ensures var q := Run(p, steps);
      && Gone(q) && !q.attached
      && (q.fd < 0 <==> p.fd < 0 || Reaches(steps, true))
      && (q.live <==> p.live && !Reaches(steps, false))
      && (q.state == ClosedFree <==> (p.fd < 0 || Reaches(steps, true)) && (!p.live || Reaches(steps, false)))
  {
    hide Take, Allowed, Closes;
    if steps == [] {
    } else {
      var n := |steps| - 1;
      CleanupIsConfluent(p, steps[..n]);
      RunKeepsPathInv(p, steps[..n]);
      hide PathInv;
      GoneStep(Run(p, steps[..n]), steps[n]);
      ReachesNext(steps, true);
      ReachesNext(steps, false);
      InvGone(Run(p, steps[..n]));
    }
  }

  lemma InvGone(p: Path)
    requires PathInv(p)
    ensures p.state == ClosedFree ==> p.fd < 0 && !p.live
  {
  }

  lemma ReachesNext(steps: seq<Step>, fd: bool)
    requires steps != []
    ensures Reaches(steps, fd) <==> Reaches(steps[..|steps| - 1], fd) || Closes(steps[|steps| - 1], fd)
  {
    hide Closes;
    var n := |steps| - 1;
    if Reaches(steps[..n], fd) {
      var i :| 0 <= i < n && Closes(steps[..n][i], fd);
      assert Closes(steps[i], fd);
    }
    if Reaches(steps, fd) && !Closes(steps[n], fd) {
      var i :| 0 <= i < |steps| && Closes(steps[i], fd);
      assert Closes(steps[..n][i], fd);
    }
  }
}
