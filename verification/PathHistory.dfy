/** What the states of a path mean: where it stands follows from what has happened to it. */
module PathHistory {
  import opened Wrappers
  import opened PathFsm

  // ----- what has happened -----

  /** The binding was validated: as what, and the time from which its stability is counted. */
  datatype Use = Use(target: Lifecycle, since: nat)

  function NextUse(p: Path, use: Option<Use>, s: Step): Option<Use> {
    match s
    case PrimaryBootstrap => None
    case StableTick(now) =>
      if use.Some? && p.attached && p.live && use.value.since != 0 && Elapsed(now, use.value.since) >= STABLE_THRESHOLD
      then Some(use.value.(since := now)) else use
    case Event(ev) =>
      if ev.ConnReset? || (!p.live && Take(p, s).live) then None
      else if ev.ValidationOk? && p.attached && p.live && use == None then Some(Use(ev.target, ev.now))
      else use
  }

  /** What the latest binding of the path was validated for, if it was; nothing since the path was added or reset. */
  function LastUse(p: Path, steps: seq<Step>): Option<Use> {
    if steps == [] then None
    else
      var init := steps[..|steps| - 1];
      NextUse(Run(p, init), LastUse(p, init), steps[|steps| - 1])
  }

  /** The step gives the path up: its creation failed for good, or this failure exhausts the budget. */
  predicate GivesUp(p: Path, s: Step) {
    || (IsFailure(p, s) && p.retries + 1 >= RECREATE_MAX_RETRIES)
    || (s.Event? && s.ev.ActivateRequested? && p.state == Pending && s.ev.result == ActivatePermanent)
    || (s.Event? && s.ev.RetryTimer? && (p.state == CreateWait || p.state == Degraded) && s.ev.result == ActivatePermanent)
  }

  predicate StaysGivenUp(p: Path, gaveUp: bool, s: Step) {
    GivesUp(p, s) || (gaveUp && !Take(p, s).live && s != Event(ConnReset))
  }

  /** The path was given up, and neither bound nor reset since. */
  function GaveUp(p: Path, steps: seq<Step>): bool {
    if steps == [] then false
    else
      var init := steps[..|steps| - 1];
      StaysGivenUp(Run(p, init), GaveUp(p, init), steps[|steps| - 1])
  }

  /** Failures since the budget was last renewed. */
  function SinceRenewal(p: Path, steps: seq<Step>): nat {
    if steps == [] then 0
    else
      var init, s := steps[..|steps| - 1], steps[|steps| - 1];
      if IsReset(Run(p, init), s) then 0
      else SinceRenewal(p, init) + if IsFailure(Run(p, init), s) then 1 else 0
  }

  // ----- what the states mean -----

  /** The state of a path with a socket, told by its binding, its retry timer and its history. */
  ghost predicate Meant(p: Path, use: Option<Use>, gaveUp: bool) {
    && (p.attached && p.live ==>
          if use.None? then p.state == Validating
          else p.state == use.value.target && (p.state == Active || p.state == Standby) && p.stableSince == use.value.since)
    && (p.attached && !p.live && p.state != Pending && p.state != ClosedRecoverable ==>
          p.retryAt != 0 && p.state == if use.Some? then Degraded else CreateWait)
    && (p.attached ==> (p.state == ClosedRecoverable <==> gaveUp))
    && (p.state == Pending ==> use == None)
  }

  lemma EventIsMeant(p: Path, use: Option<Use>, gaveUp: bool, ev: PathEvent)
    requires PathInv(p) && Allowed(p, Event(ev)) && Meant(p, use, gaveUp)
    ensures Meant(OnEvent(p, ev), NextUse(p, use, Event(ev)), StaysGivenUp(p, gaveUp, Event(ev)))
  {
    hide Backoff, Elapsed, Fail;
    FailMeans(p, CreateWait);
    FailMeans(p, Degraded);
  }

  lemma FailMeans(p: Path, target: Lifecycle)
    requires target != ClosedRecoverable
    ensures forall now :: var q := Fail(p, target, now);
      && !q.live && q.attached == p.attached
      && (if p.retries + 1 >= RECREATE_MAX_RETRIES then q.state == ClosedRecoverable
          else q.state == target && q.retryAt != 0)
  {
    hide Backoff;
    BackoffPositive(p.retries + 1);
  }

  lemma StepIsMeant(p: Path, use: Option<Use>, gaveUp: bool, s: Step)
    requires PathInv(p) && Allowed(p, s) && Meant(p, use, gaveUp)
    ensures Meant(Take(p, s), NextUse(p, use, s), StaysGivenUp(p, gaveUp, s))
  {
    hide Elapsed, OnEvent;
    if s.Event? {
      EventIsMeant(p, use, gaveUp, s.ev);
    }
  }

  /** In every run of a path from its addition on. A bound path is Validating until it is validated, and then what it was
      validated for; a path waiting for a retry is Degraded exactly if the binding that ended last had been validated, and
      else CreateWait; and it is closed for recovery exactly if it was given up. The public status follows. */
  lemma {:induction false} StateIsMeant(fd: nat, steps: seq<Step>)
    requires AllowedRun(Added(fd), steps)
    ensures var p := Run(Added(fd), steps);
      && PathInv(p) && Meant(p, LastUse(Added(fd), steps), GaveUp(Added(fd), steps))
  {
    hide PathInv, Take, Allowed, Meant, NextUse, StaysGivenUp, Added;
    AddedInv(fd);
    RunKeepsPathInv(Added(fd), steps);
    if steps == [] {
      AddedIsMeant(fd);
    } else {
      var init := steps[..|steps| - 1];
      StateIsMeant(fd, init);
      StepIsMeant(Run(Added(fd), init), LastUse(Added(fd), init), GaveUp(Added(fd), init), steps[|steps| - 1]);
    }
  }

  lemma AddedIsMeant(fd: nat)
    ensures Meant(Added(fd), None, false)
  {
  }

  /** What the public API shows for a path that waits for its next attempt: degraded exactly if it had been usable. */
  lemma WaitingShows(fd: nat, steps: seq<Step>)
    requires AllowedRun(Added(fd), steps)
    requires var p := Run(Added(fd), steps); p.attached && !p.live && p.retryAt != 0
    ensures var p := Run(Added(fd), steps); var used := LastUse(Added(fd), steps).Some?;
      && p.state == (if used then Degraded else CreateWait)
      && p.status == (if used then StatusDegraded else StatusPending)
  {
    hide Run, LastUse, GaveUp, AllowedRun, Added;
    StateIsMeant(fd, steps);
  }

  /** The public status in full: closed without a socket or when given up, else what the latest use makes of it. */
  lemma StatusShows(fd: nat, steps: seq<Step>)
    requires AllowedRun(Added(fd), steps)
    ensures var p := Run(Added(fd), steps); var use := LastUse(Added(fd), steps);
      p.status ==
        if !p.attached || GaveUp(Added(fd), steps) then StatusClosed
        else if use.None? then StatusPending
        else if !p.live then StatusDegraded
        else if use.value.target == Active then StatusActive else StatusStandby
  {
    hide Run, LastUse, GaveUp, AllowedRun, Added;
    StateIsMeant(fd, steps);
  }

  // ----- binding -----

  /** The transport takes the path on, as number `id`: by an attempt that its state admits, or with the connection. */
  predicate Binds(p: Path, s: Step, id: nat) {
    match s
    case PrimaryBootstrap => id == 0
    case StableTick(_) => false
    case Event(ev) =>
      match ev
      case ActivateRequested(result, newId, _) => p.state == Pending && result == ActivateOk && id == newId
      case RetryTimer(result, newId, _) => (p.state == CreateWait || p.state == Degraded) && result == ActivateOk && id == newId
      case ManualReactivate(result, newId) =>
        && (p.state == ClosedRecoverable || p.state == CreateWait || p.state == Degraded)
        && result == ActivateOk && id == newId
      case _ => false
  }

  /** A path is bound by exactly these steps, and remains so until the transport removes it or the connection is lost. */
  lemma BoundIff(p: Path, s: Step)
    requires PathInv(p) && Allowed(p, s)
    ensures var q := Take(p, s); var ends := s.Event? && (s.ev.XquicRemoved? || s.ev.ConnReset?);
      && (q.live <==> (p.live && !ends) || exists id :: Binds(p, s, id))
      && (forall id :: Binds(p, s, id) ==> q.live && q.xqcId == id && q.state == Validating)
      && (p.live && !ends && !s.PrimaryBootstrap? ==> q.xqcId == p.xqcId)
  {
    hide Backoff, Elapsed;
    if s.PrimaryBootstrap? {
      assert Binds(p, s, 0);
    } else if s.Event? && (s.ev.ActivateRequested? || s.ev.RetryTimer? || s.ev.ManualReactivate?) {
      assert Binds(p, s, s.ev.newId) || forall id :: !Binds(p, s, id);
    }
  }

  /** A failed attempt by hand changes nothing, and a successful one renews nothing. */
  lemma ManualKeepsBudget(p: Path, result: Activation, id: nat)
    requires PathInv(p)
    ensures var q := Take(p, Event(ManualReactivate(result, id)));
      && q.retries == p.retries
      && (q != p <==> result == ActivateOk && p.attached && !p.live && p.state != Pending)
  {
  }

  // ----- the budget, in any run -----

  lemma RenewsBudget(p: Path, s: Step)
    requires IsReset(p, s)
    ensures Take(p, s).retries == 0
  {
    hide Elapsed;
  }

  /** In any run, the counter is the number of failures since the budget was last renewed, by a reset or by thirty
      stable seconds; nothing else touches it. */
  lemma {:induction false} RetriesAre(p: Path, steps: seq<Step>)
    requires p.retries == 0
    ensures Run(p, steps).retries == SinceRenewal(p, steps)
  {
    hide Take, IsReset, IsFailure;
    if steps != [] {
      var init, s := steps[..|steps| - 1], steps[|steps| - 1];
      RetriesAre(p, init);
      if IsReset(Run(p, init), s) {
        RenewsBudget(Run(p, init), s);
      } else {
        CountsFailure(Run(p, init), s);
      }
    }
  }

  /** So in any run a failure gives the path up exactly if it is the sixth since then, and else arms the backoff for that
      many failures. */
  lemma SixthSinceRenewal(p: Path, steps: seq<Step>, s: Step)
    requires PathInv(p) && p.retries == 0 && AllowedRun(p, steps) && IsFailure(Run(p, steps), s)
    ensures var n := SinceRenewal(p, steps) + 1; var q := Take(Run(p, steps), s);
      if n >= 6 then q.state == ClosedRecoverable && q.retryAt == 0
      else q.state != ClosedRecoverable && q.retryAt == s.ev.now + Backoff(n)
  {
    hide PathInv, IsFailure, AllowedRun, Take, Run, SinceRenewal, Backoff;
    RetriesAre(p, steps);
    RunKeepsPathInv(p, steps);
    FailureExhaustsIff(Run(p, steps), s);
    if SinceRenewal(p, steps) + 1 >= 6 {
      GivenUpIsQuiet(Run(p, steps), s);
    }
  }

  lemma GivenUpIsQuiet(p: Path, s: Step)
    requires PathInv(p) && IsFailure(p, s) && Take(p, s).state == ClosedRecoverable
    ensures Take(p, s).retryAt == 0
  {
    hide Backoff;
  }

  /** Usable time renews the budget: exactly when thirty seconds have passed, by the unsigned clock, since the path was
      validated or its budget last renewed. */
  lemma StableRenews(fd: nat, steps: seq<Step>, now: nat)
    requires AllowedRun(Added(fd), steps)
    ensures var p := Run(Added(fd), steps); var use := LastUse(Added(fd), steps);
      IsReset(p, StableTick(now)) <==>
        && p.attached && p.live && use.Some? && use.value.since != 0
        && Elapsed(now, use.value.since) >= STABLE_THRESHOLD
  {
    hide Run, LastUse, GaveUp, AllowedRun, Added, Elapsed;
    StateIsMeant(fd, steps);
    var p := Run(Added(fd), steps);
  }
}
