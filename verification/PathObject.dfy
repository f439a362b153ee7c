/** One path entry as the client keeps it: fields updated in place by the event handlers, proved against PathFsm. */
module PathObject {
  import opened PathFsm

  class PathEntry {
    var handle: int
    var flags: nat
    var fd: int
    var state: Lifecycle
    var status: Status
    var attached: bool
    var live: bool
    var xqcId: nat
    var retryAt: nat
    var retries: nat
    var stableSince: nat

    // History: the notices that reached the transport.
    ghost var told: seq<Notice>

    ghost function View(): Path
      reads this
    {
      Path(state, status, attached, live, fd, xqcId, retryAt, retries, stableSince, told)
    }

    constructor ()
      ensures View() == UNUSED
    {
      handle, flags, fd, state, status := 0, 0, -1, ClosedFree, StatusClosed;
      attached, live, xqcId, retryAt, retries, stableSince, told := false, false, 0, 0, 0, 0, [];
    }

    /** Wipe the entry for its next occupant. */
    method Init()
      modifies this
      ensures View() == UNUSED
    {
      handle, flags, fd, state, status := 0, 0, -1, ClosedFree, StatusClosed;
      attached, live, xqcId, retryAt, retries, stableSince, told := false, false, 0, 0, 0, 0, [];
    }

    /** Tell the transport of a change of class; it only listens for live paths. */
    method NotifyTransport(n: Notice)
      modifies this`told
      ensures View() == Notify(old(View()), n)
    {
      if n != NoNotice {
        if live {
          told := told + [n];
        }
      }
    }

    method SetState(s: Lifecycle)
      modifies this`state, this`status, this`told
      ensures View() == Enter(old(View()), s)
    {
      var from := state;
      if from == s {
        return;
      }
      status := Project(s);
      state := s;
      NotifyTransport(NoticeFor(from, s));
    }

    method ApplyFailure(target: Lifecycle, now: nat)
      modifies this
      ensures View() == Fail(old(View()), target, now) && handle == old(handle) && flags == old(flags)
    {
      hide Enter, Backoff;
      live := false;
      xqcId := 0;
      stableSince := 0;
      retries := retries + 1;
      if retries >= RECREATE_MAX_RETRIES {
        retryAt := 0;
        SetState(ClosedRecoverable);
      } else {
        var delay := RecreateBackoff(retries);
        retryAt := now + delay;
        SetState(target);
      }
    }

    method GiveUpOn()
      modifies this
      ensures View() == GiveUp(old(View())) && handle == old(handle) && flags == old(flags)
    {
      live := false;
      xqcId := 0;
      stableSince := 0;
      retryAt := 0;
      SetState(ClosedRecoverable);
    }

    method Activated(newId: nat)
      modifies this
      ensures View() == Created(old(View()), newId) && handle == old(handle) && flags == old(flags)
    {
      xqcId := newId;
      live := true;
      retryAt := 0;
      SetState(Validating);
    }

    method MaybeFree()
      modifies this
      ensures View() == Cleanup(old(View())) && handle == old(handle) && flags == old(flags)
    {
      if state != ClosedDropped {
        return;
      }
      if fd >= 0 {
        return;
      }
      if live {
        return;
      }
      if xqcId != 0 {
        return;
      }
      SetState(ClosedFree);
    }

    method HandleActivateRequested(result: Activation, newId: nat, now: nat)
      modifies this
      ensures View() == OnActivateRequested(old(View()), result, newId, now) && handle == old(handle) && flags == old(flags)
    {
      hide Fail, GiveUp, Created;
      if state != Pending {
        return;
      }
      match result
      case ActivateOk => Activated(newId);
      case ActivateTransient => ApplyFailure(CreateWait, now);
      case ActivatePermanent => GiveUpOn();
    }

    method HandleRetryTimer(result: Activation, newId: nat, now: nat)
      modifies this
      ensures View() == OnRetryTimer(old(View()), result, newId, now) && handle == old(handle) && flags == old(flags)
    {
      hide Fail, GiveUp, Created;
      if state != CreateWait && state != Degraded {
        return;
      }
      match result
      case ActivateOk => Activated(newId);
      case ActivateTransient => ApplyFailure(state, now);
      case ActivatePermanent => GiveUpOn();
    }

    method HandleValidationOk(target: Lifecycle, now: nat)
      modifies this
      ensures View() == OnValidationOk(old(View()), target, now) && handle == old(handle) && flags == old(flags)
    {
      if state != Validating {
        return;
      }
      stableSince := now;
      SetState(target);
    }

    method HandleXquicRemoved(now: nat)
      modifies this
      ensures View() == OnXquicRemoved(old(View()), now) && handle == old(handle) && flags == old(flags)
    {
      hide Fail, Cleanup;
      match state
      case Validating =>
        ApplyFailure(CreateWait, now);
      case Active | Standby =>
        ApplyFailure(Degraded, now);
      case ClosedDropped =>
        live := false;
        xqcId := 0;
        MaybeFree();
      case _ =>
    }

    method HandleManualReactivate(result: Activation, newId: nat)
      modifies this
      ensures View() == OnManualReactivate(old(View()), result, newId) && handle == old(handle) && flags == old(flags)
    {
      if state != ClosedRecoverable && state != CreateWait && state != Degraded {
        return;
      }
      if result == ActivateOk {
        Activated(newId);
      }
    }

    method HandleDrop()
      modifies this
      ensures View() == OnDrop(old(View())) && handle == old(handle) && flags == old(flags)
    {
      if state == ClosedDropped {
        return;
      }
      if state == ClosedFree {
        return;
      }
      attached := false;
      retryAt := 0;
      stableSince := 0;
      SetState(ClosedDropped);
    }

    method HandleAddFd()
      modifies this
      ensures View() == OnAddFd(old(View())) && handle == old(handle) && flags == old(flags)
    {
      if state != ClosedFree {
        return;
      }
      attached := true;
      SetState(Pending);
    }

    method HandleConnReset()
      modifies this
      ensures View() == OnConnReset(old(View())) && handle == old(handle) && flags == old(flags)
    {
      live := false;
      xqcId := 0;
      retryAt := 0;
      retries := 0;
      stableSince := 0;
      if attached {
        SetState(Pending);
      } else {
        MaybeFree();
      }
    }

    method HandleFdClosed()
      modifies this
      ensures View() == OnFdClosed(old(View())) && handle == old(handle) && flags == old(flags)
    {
      if state != ClosedDropped {
        return;
      }
      fd := -1;
      MaybeFree();
    }

    method Dispatch(ev: PathEvent)
      modifies this
      ensures View() == OnEvent(old(View()), ev) && handle == old(handle) && flags == old(flags)
    {
      hide OnActivateRequested, OnRetryTimer, OnValidationOk, OnXquicRemoved, OnManualReactivate;
      hide OnDrop, OnAddFd, OnConnReset, OnFdClosed;
      match ev
      case ActivateRequested(result, newId, now) => HandleActivateRequested(result, newId, now);
      case RetryTimer(result, newId, now) => HandleRetryTimer(result, newId, now);
      case ValidationOk(target, now) => HandleValidationOk(target, now);
      case XquicRemoved(now) => HandleXquicRemoved(now);
      case ManualReactivate(result, newId) => HandleManualReactivate(result, newId);
      case PlatformDrop => HandleDrop();
      case RemoveApi => HandleDrop();
      case AddFd => HandleAddFd();
      case ConnReset => HandleConnReset();
      case FdClosed => HandleFdClosed();
    }

    method TickConfirmStable(now: nat)
      modifies this
      ensures View() == ConfirmStable(old(View()), now) && handle == old(handle) && flags == old(flags)
    {
      if state != Active && state != Standby {
        return;
      }
      if stableSince == 0 || !live || Elapsed(now, stableSince) < STABLE_THRESHOLD {
        return;
      }
      retries := 0;
      stableSince := now;
    }

    method BootstrapPrimary()
      modifies this
      ensures View() == Bootstrap(old(View())) && handle == old(handle) && flags == old(flags)
    {
      xqcId := 0;
      live := true;
      SetState(Validating);
    }
  }

  method RecreateBackoff(retries: nat) returns (delay: nat)
    ensures delay == Backoff(retries)
  {
    delay := RECREATE_DELAY;
    var r := 1;
    while r < retries && delay < RECREATE_MAX_DELAY
      invariant Doubled(delay, r, retries) == Doubled(RECREATE_DELAY, 1, retries)
      decreases if r < retries then retries - r else 0
    {
      delay := delay * 2;
      r := r + 1;
    }
    if delay > RECREATE_MAX_DELAY {
      delay := RECREATE_MAX_DELAY;
    }
  }
}
