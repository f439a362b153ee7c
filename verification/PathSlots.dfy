/** The slots the client keeps its paths in, and the handles it gives out for them. */
module PathSlots {
  import opened Bits
  import opened Wrappers
  import opened PathFsm
  import opened Rotation

  const MAX_PATHS: nat := 8

  datatype Slot = Slot(handle: int, flags: nat, path: Path)

  datatype Slots = Slots(all: seq<Slot>, next: int)

  // ----- adding a path -----

  /** A closed slot may be reused once the transport has let go of its path. */
  predicate Reusable(p: Path) {
    p.status == StatusClosed && !p.attached && !p.live
  }

  function ReuseFrom(all: seq<Slot>, i: nat): (k: nat)
    requires i <= |all|
    ensures i <= k <= |all| && (k < |all| ==> Reusable(all[k].path))
    ensures forall j :: i <= j < k ==> !Reusable(all[j].path)
    decreases |all| - i
  {
    if i == |all| || Reusable(all[i].path) then i else ReuseFrom(all, i + 1)
  }

  lemma ReuseIs(all: seq<Slot>, i: nat, k: nat)
    requires i <= k <= |all| && (k < |all| ==> Reusable(all[k].path))
    requires forall j :: i <= j < k ==> !Reusable(all[j].path)
    ensures ReuseFrom(all, i) == k
  {
  }

  function NewSlot(s: Slots, fd: nat, flags: nat): Slot {
    Slot(s.next, flags, Added(fd))
  }

  /** Reuse the first reusable slot, else append one; no handle when the socket is bad or every slot is taken. */
  function AddPath(s: Slots, fd: int, flags: nat): (Slots, Option<int>) {
    if fd < 0 then (s, None)
    else
      var k := ReuseFrom(s.all, 0);
      if k < |s.all| then (Slots(s.all[k := NewSlot(s, fd, flags)], s.next + 1), Some(s.next))
      else if |s.all| >= MAX_PATHS then (s, None)
      else (Slots(s.all + [NewSlot(s, fd, flags)], s.next + 1), Some(s.next))
  }

  // ----- finding a path -----

  function FindHandle(all: seq<Slot>, h: int, i: nat): (k: nat)
    requires i <= |all|
    ensures i <= k <= |all| && (k < |all| ==> all[k].handle == h)
    ensures forall j :: i <= j < k ==> all[j].handle != h
    decreases |all| - i
  {
    if i == |all| || all[i].handle == h then i else FindHandle(all, h, i + 1)
  }

  lemma FindIs(all: seq<Slot>, h: int, i: nat, k: nat)
    requires i <= k <= |all| && (k < |all| ==> all[k].handle == h)
    requires forall j :: i <= j < k ==> all[j].handle != h
    ensures FindHandle(all, h, i) == k
  {
  }

  function StepAt(s: Slots, i: nat, st: Step): Slots
    requires i < |s.all|
  {
    s.(all := s.all[i := s.all[i].(path := Take(s.all[i].path, st))])
  }

  /** An event for a handle; nothing happens for an unknown one. */
  function OnHandle(s: Slots, h: int, ev: PathEvent): Slots {
    var k := FindHandle(s.all, h, 0);
    if k < |s.all| then StepAt(s, k, Event(ev)) else s
  }

  function ResetAll(s: Slots): Slots {
    s.(all := seq(|s.all|, i requires 0 <= i < |s.all| => s.all[i].(path := OnConnReset(s.all[i].path))))
  }

  // ----- what happens to a table of slots -----

  datatype SlotStep =
    | Add(fd: int, flags: nat)
    | At(index: nat, step: Step)
    | ResetPaths

  function TakeSlot(s: Slots, st: SlotStep): Slots
    requires st.At? ==> st.index < |s.all|
  {
    match st
    case Add(fd, flags) => AddPath(s, fd, flags).0
    case At(i, step) => StepAt(s, i, step)
    case ResetPaths => ResetAll(s)
  }

  predicate AllowedSlot(s: Slots, st: SlotStep) {
    st.At? ==> st.index < |s.all| && Allowed(s.all[st.index].path, st.step) && st.step != Event(AddFd)
  }

  ghost predicate SlotsInv(s: Slots) {
    && |s.all| <= MAX_PATHS
    && (forall i :: 0 <= i < |s.all| ==> PathInv(s.all[i].path) && s.all[i].handle < s.next)
    && (forall i, j :: 0 <= i < j < |s.all| ==> s.all[i].handle != s.all[j].handle)
  }

  lemma SlotStepKeepsInv(s: Slots, st: SlotStep)
    requires SlotsInv(s) && AllowedSlot(s, st)
    ensures SlotsInv(TakeSlot(s, st))
  {
    hide PathInv, OnConnReset, Take, Allowed, Added;
    match st
    case Add(fd, flags) =>
      if fd >= 0 {
        AddedInv(fd);
      }
    case At(i, step) =>
      StepKeepsPathInv(s.all[i].path, step);
    case ResetPaths =>
      forall i | 0 <= i < |s.all|
        ensures PathInv(OnConnReset(s.all[i].path))
      {
        ResetKeepsPathInv(s.all[i].path);
      }
  }

  lemma ResetKeepsPathInv(p: Path)
    requires PathInv(p)
    ensures PathInv(OnConnReset(p))
    ensures OnConnReset(p).attached == p.attached && (Gone(OnConnReset(p)) <==> Gone(p))
    ensures p.attached ==> OnConnReset(p).state == Pending
  {
    StepKeepsPathInv(p, Event(ConnReset));
  }

  // ----- reconnecting -----

  function SetBackup(flags: nat): nat {
    if IsBackup(flags) then flags else flags + FLAG_BACKUP
  }

  lemma {:induction false} BackupBit(flags: nat)
    ensures IsBackup(flags) <==> flags % 2 == 1
    ensures IsBackup(SetBackup(flags))
  {
    assert And(flags / 2, 0) == 0 && And((flags + 1) / 2, 0) == 0;
  }

  /** What the rotation is shown: a path without a socket counts as a backup. */
  function FlagView(s: Slots): (r: seq<nat>)
    ensures |r| == |s.all|
  {
    seq(|s.all|, i requires 0 <= i < |s.all| =>
      if s.all[i].path.attached then s.all[i].flags else SetBackup(s.all[i].flags))
  }

  function NextPrimary(s: Slots, primary: nat): nat {
    Rotated(primary, FlagView(s))
  }

  /** Open a connection on the primary path, which must have a socket; the transport, if it comes `up`, creates that
      path together with the connection. False when no connection was opened. */
  function StartConnection(s: Slots, primary: nat, up: bool): (Slots, bool) {
    if primary < |s.all| && !(s.all[primary].path.attached && s.all[primary].path.fd >= 0) then (s, false)
    else if !up then (s, false)
    else (if primary < |s.all| then StepAt(s, primary, PrimaryBootstrap) else s, true)
  }

  /** A new attempt after the connection was lost: reset every path, rotate, start. */
  function Reconnect(s: Slots, primary: nat, up: bool): (Slots, nat, bool) {
    var r := ResetAll(s);
    var p := if |r.all| > 0 then NextPrimary(r, primary) else primary;
    var (t, started) := StartConnection(r, p, up);
    (t, p, started)
  }

  predicate Eligible(sl: Slot) {
    sl.path.attached && !IsBackup(sl.flags)
  }

  lemma ViewEligible(s: Slots, i: nat)
    requires i < |s.all|
    ensures !IsBackup(FlagView(s)[i]) <==> Eligible(s.all[i])
  {
    BackupBit(s.all[i].flags);
  }

  /** Every path satisfies the table that debug builds assert. */
  predicate TableSound(s: Slots) {
    forall i :: 0 <= i < |s.all| ==> Checked(s.all[i].path)
  }

  lemma StartKeepsInv(s: Slots, primary: nat, up: bool)
    requires SlotsInv(s)
    ensures SlotsInv(StartConnection(s, primary, up).0)
  {
    hide PathInv, Take;
    if primary < |s.all| && s.all[primary].path.attached {
      SlotStepKeepsInv(s, At(primary, PrimaryBootstrap));
    }
  }

  /** Whatever the state of the paths, a reconnect keeps the invariant, and leaves the table sound. */
  lemma ReconnectKeepsInv(s: Slots, primary: nat, up: bool)
    requires SlotsInv(s)
    ensures SlotsInv(Reconnect(s, primary, up).0) && TableSound(Reconnect(s, primary, up).0)
  {
    hide PathInv, OnConnReset, Take, Rotated, IsBackup, Checked;
    SlotStepKeepsInv(s, ResetPaths);
    var r := ResetAll(s);
    var p := if |r.all| > 0 then NextPrimary(r, primary) else primary;
    StartKeepsInv(r, p, up);
    forall i | 0 <= i < |s.all|
      ensures Checked(r.all[i].path) && r.all[i].path.retryAt == 0
    {
      ResetDisarms(s.all[i].path);
    }
    StartKeepsTableIff(r, p, up);
  }

  lemma ResetDisarms(p: Path)
    requires PathInv(p)
    ensures Checked(OnConnReset(p)) && OnConnReset(p).retryAt == 0
  {
  }

  /** After a reconnect nothing of the lost connection is left: no path is bound but the new primary's, if one was started,
      every budget is whole, no path loses its socket, and every slot without one can be taken by a new path. */
  lemma ReconnectClears(s: Slots, primary: nat, up: bool, i: nat)
    requires SlotsInv(s) && i < |s.all|
    ensures var (t, p, started) := Reconnect(s, primary, up); var was := s.all[i]; var now := t.all[i];
      && |t.all| == |s.all| && now.handle == was.handle && now.flags == was.flags
      && now.path.attached == was.path.attached && now.path.retries == 0
      && (now.path.live <==> started && i == p)
      && (!was.path.attached ==> Reusable(now.path))
      && (was.path.attached && !now.path.live ==> now.path.state == Pending)
  {
    hide Rotated, IsBackup, PathInv;
    ResetKeepsPathInv(s.all[i].path);
    var r := ResetAll(s);
    assert r.all[i] == s.all[i].(path := OnConnReset(s.all[i].path));
    ResetClears(s.all[i].path);
  }

  lemma ResetClears(p: Path)
    requires PathInv(p)
    ensures var q := OnConnReset(p);
      !q.live && q.retries == 0 && q.attached == p.attached && (!p.attached ==> Reusable(q)) && (p.attached ==> q.fd >= 0)
  {
  }

  /** A connection that comes up on a primary path waiting for a retry. */
  predicate FindsRetryArmed(s: Slots, primary: nat, up: bool) {
    up && primary < |s.all| && s.all[primary].path.attached && s.all[primary].path.retryAt != 0
  }

  /** Started without that reset, a connection keeps a sound table sound exactly unless it finds a retry armed. */
  lemma StartKeepsTableIff(s: Slots, primary: nat, up: bool)
    requires SlotsInv(s) && TableSound(s)
    ensures TableSound(StartConnection(s, primary, up).0) <==> !FindsRetryArmed(s, primary, up)
  {
    hide Bootstrap, Checked, PathInv;
    var t := StartConnection(s, primary, up).0;
    if primary < |s.all| && s.all[primary].path.attached && up {
      AttachedHasSocket(s.all[primary].path);
      assert t.all[primary].path == Bootstrap(s.all[primary].path);
      BootstrapKeepsTableIff(s.all[primary].path);
    }
  }

  /** A connection is started exactly when the transport comes up and there are two attached non-backup paths to rotate
      between, or the old primary is itself attached. */
  lemma ReconnectStartsIff(s: Slots, primary: nat, up: bool)
    requires SlotsInv(s) && primary < |s.all|
    ensures var (t, p, started) := Reconnect(s, primary, up);
      && p < |s.all|
      && (started <==> up && (CountFrom(FlagView(s), 0) >= 2 || s.all[primary].path.attached))
      && (started ==> s.all[p].path.attached && t.all[p].path.state == Validating)
  {
    hide CountFrom, PathInv, OnConnReset, Rotated, IsBackup;
    SlotStepKeepsInv(s, ResetPaths);
    var r := ResetAll(s);
    var p := NextPrimary(r, primary);
    ResetKeepsFlagView(s);
    ChoosesPrimaryIff(primary, FlagView(r));
    RotatedStays(primary, FlagView(r));
    ViewEligible(r, p);
    ResetKeepsPathInv(s.all[p].path);
    AttachedHasSocket(s.all[p].path);
    AttachedHasSocket(r.all[p].path);
  }

  lemma AttachedHasSocket(p: Path)
    requires PathInv(p)
    ensures p.attached ==> p.fd >= 0
  {
  }

  lemma ResetKeepsFlagView(s: Slots)
    requires SlotsInv(s)
    ensures FlagView(ResetAll(s)) == FlagView(s)
  {
    hide PathInv, OnConnReset, IsBackup;
    forall i | 0 <= i < |s.all|
      ensures FlagView(ResetAll(s))[i] == FlagView(s)[i]
    {
      ResetKeepsPathInv(s.all[i].path);
    }
  }

  // ----- runs of the client -----

  /** What happens to the client's paths: events and calls for single paths, the timer's reconnect, a connection asked
      for through the API. */
  datatype ClientStep = SlotEvent(st: SlotStep) | TryReconnect(up: bool) | Connect(up: bool)

  /** Slots, primary and number of connections started. */
  datatype ClientState = ClientState(slots: Slots, primary: nat, started: nat)

  predicate AllowedClient(c: ClientState, st: ClientStep) {
    st.SlotEvent? ==> AllowedSlot(c.slots, st.st) && !(st.st.At? && st.st.step.PrimaryBootstrap?)
  }

  function TakeClient(c: ClientState, st: ClientStep): ClientState
    requires AllowedClient(c, st)
  {
    match st
    case SlotEvent(e) => c.(slots := TakeSlot(c.slots, e))
    case TryReconnect(up) =>
      var (t, p, started) := Reconnect(c.slots, c.primary, up);
      ClientState(t, p, c.started + if started then 1 else 0)
    case Connect(up) =>
      var (t, started) := StartConnection(c.slots, c.primary, up);
      ClientState(t, c.primary, c.started + if started then 1 else 0)
  }

  ghost predicate IsClientRun(states: seq<ClientState>, steps: seq<ClientStep>) {
    && |states| == |steps| + 1
    && forall i :: 0 <= i < |steps| ==> AllowedClient(states[i], steps[i]) && states[i + 1] == TakeClient(states[i], steps[i])
  }

  lemma ClientStepKeepsInv(c: ClientState, st: ClientStep)
    requires SlotsInv(c.slots) && AllowedClient(c, st)
    ensures SlotsInv(TakeClient(c, st).slots)
  {
    hide SlotsInv, TakeSlot, Reconnect, StartConnection, AllowedSlot;
    match st
    case SlotEvent(e) => SlotStepKeepsInv(c.slots, e);
    case TryReconnect(up) => ReconnectKeepsInv(c.slots, c.primary, up);
    case Connect(up) => StartKeepsInv(c.slots, c.primary, up);
  }

  /** In every run, connections started from whatever state included: each path keeps its invariant, and handles in the
      table are distinct and none is ahead of the counter. */
  lemma {:induction false} RunKeepsSlotsInv(states: seq<ClientState>, steps: seq<ClientStep>, n: nat)
    requires IsClientRun(states, steps) && SlotsInv(states[0].slots) && n < |states|
    ensures SlotsInv(states[n].slots)
  {
    hide SlotsInv, TakeClient, AllowedClient;
    if n > 0 {
      RunKeepsSlotsInv(states, steps, n - 1);
      ClientStepKeepsInv(states[n - 1], steps[n - 1]);
    }
  }

  predicate FindsRetry(c: ClientState, st: ClientStep) {
    st.Connect? && FindsRetryArmed(c.slots, c.primary, st.up)
  }

  lemma SoundStepIff(c: ClientState, st: ClientStep)
    requires SlotsInv(c.slots) && TableSound(c.slots) && AllowedClient(c, st)
    ensures TableSound(TakeClient(c, st).slots) <==> !FindsRetry(c, st)
  {
    hide PathInv, Checked, Take, OnConnReset, Added, Reconnect, StartConnection, Allowed;
    match st {
      case TryReconnect(up) => ReconnectKeepsInv(c.slots, c.primary, up);
      case Connect(up) => StartKeepsTableIff(c.slots, c.primary, up);
      case SlotEvent(e) =>
        match e {
          case Add(fd, flags) =>
            if fd >= 0 {
              AddedInv(fd);
            }
          case At(i, step) => CheckedStepIff(c.slots.all[i].path, step);
          case ResetPaths =>
            forall i | 0 <= i < |c.slots.all|
              ensures Checked(OnConnReset(c.slots.all[i].path))
            {
              ResetDisarms(c.slots.all[i].path);
            }
        }
    }
  }

  /** In every run from a sound table, the table is sound at every moment exactly if no connection asked for through the
      API comes up on a primary path that waits for a retry. */
  lemma {:induction false} TableSoundIff(states: seq<ClientState>, steps: seq<ClientStep>, n: nat)
    requires IsClientRun(states, steps) && SlotsInv(states[0].slots) && TableSound(states[0].slots) && n < |states|
    ensures (forall k :: 0 <= k <= n ==> TableSound(states[k].slots)) <==>
            (forall k :: 0 <= k < n ==> !FindsRetry(states[k], steps[k]))
  {
    hide SlotsInv, TableSound, TakeClient, AllowedClient, FindsRetry;
    if n > 0 {
      TableSoundIff(states, steps, n - 1);
      RunKeepsSlotsInv(states, steps, n - 1);
      if TableSound(states[n - 1].slots) {
        SoundStepIff(states[n - 1], steps[n - 1]);
      }
      assert (forall k :: 0 <= k <= n ==> TableSound(states[k].slots)) <==>
             (forall k :: 0 <= k <= n - 1 ==> TableSound(states[k].slots)) && TableSound(states[n].slots);
      assert (forall k :: 0 <= k < n ==> !FindsRetry(states[k], steps[k])) <==>
             (forall k :: 0 <= k < n - 1 ==> !FindsRetry(states[k], steps[k])) && !FindsRetry(states[n - 1], steps[n - 1]);
    }
  }

  const NO_PATHS := ClientState(Slots([], 1), 0, 0)

  /** An instance: a path is added, its activation fails, and a connection is asked for before the retry. */
  lemma ConnectBreaksTable()
    ensures var added := SlotEvent(Add(3, 0));
      var failed := SlotEvent(At(0, Event(ActivateRequested(ActivateTransient, 0, 1))));
      && AllowedClient(NO_PATHS, added)
      && var c1 := TakeClient(NO_PATHS, added);
         && AllowedClient(c1, failed)
         && var c2 := TakeClient(c1, failed);
            SlotsInv(c2.slots) && TableSound(c2.slots) && !TableSound(TakeClient(c2, Connect(true)).slots)
  {
    hide Backoff;
    BackoffPositive(1);
    var c1 := TakeClient(NO_PATHS, SlotEvent(Add(3, 0)));
    assert c1.slots == Slots([Slot(1, 0, Added(3))], 2);
    var failed := Take(Added(3), Event(ActivateRequested(ActivateTransient, 0, 1)));
    assert failed.state == CreateWait && failed.retryAt != 0 && PathInv(failed);
    var c2 := TakeClient(c1, SlotEvent(At(0, Event(ActivateRequested(ActivateTransient, 0, 1)))));
    assert c2.slots == Slots([Slot(1, 0, failed)], 2);
    StartKeepsTableIff(c2.slots, 0, true);
  }

  // ----- stale handles -----

  /** The handle has been given out, and no usable path goes by it. */
  ghost predicate Unusable(s: Slots, h: int) {
    h < s.next && var k := FindHandle(s.all, h, 0); k < |s.all| ==> Gone(s.all[k].path)
  }

  lemma FindUnique(s: Slots, i: nat)
    requires SlotsInv(s) && i < |s.all|
    ensures FindHandle(s.all, s.all[i].handle, 0) == i
  {
    hide PathInv;
  }

  lemma UnusableStep(s: Slots, st: SlotStep, h: int)
    requires SlotsInv(s) && AllowedSlot(s, st) && Unusable(s, h)
    ensures Unusable(TakeSlot(s, st), h)
  {
    SlotStepKeepsInv(s, st);
    hide PathInv, OnConnReset, Take, Allowed, Added, Gone, FindHandle, ReuseFrom;
    var t := TakeSlot(s, st);
    var k := FindHandle(t.all, h, 0);
    if k < |t.all| {
      if k < |s.all| && s.all[k].handle == h {
        FindUnique(s, k);
        match st
        case Add(fd, flags) =>
        case At(i, step) =>
          if i == k {
            GoneStep(s.all[k].path, step);
          }
        case ResetPaths =>
          ResetKeepsPathInv(s.all[k].path);
      } else {
        assert st.Add?;
      }
    }
  }

  lemma UnusableClientStep(c: ClientState, st: ClientStep, h: int)
    requires SlotsInv(c.slots) && AllowedClient(c, st) && Unusable(c.slots, h)
    ensures Unusable(TakeClient(c, st).slots, h)
  {
    hide SlotsInv, Unusable, TakeSlot, ResetAll, Rotated, FlagView, Take;
    match st {
      case SlotEvent(e) => UnusableStep(c.slots, e, h);
      case TryReconnect(up) =>
        SlotStepKeepsInv(c.slots, ResetPaths);
        UnusableStep(c.slots, ResetPaths, h);
        var r := TakeSlot(c.slots, ResetPaths);
        UnusableStart(r, if |r.all| > 0 then NextPrimary(r, c.primary) else c.primary, up, h);
        ResetIsStep(c.slots);
      case Connect(up) => UnusableStart(c.slots, c.primary, up, h);
    }
  }

  lemma ResetIsStep(s: Slots)
    ensures TakeSlot(s, ResetPaths) == ResetAll(s)
  {
  }

  lemma UnusableStart(s: Slots, primary: nat, up: bool, h: int)
    requires SlotsInv(s) && Unusable(s, h)
    ensures Unusable(StartConnection(s, primary, up).0, h)
  {
    hide SlotsInv, Unusable, Take;
    if primary < |s.all| && s.all[primary].path.attached {
      UnusableStep(s, At(primary, PrimaryBootstrap), h);
    }
  }

  /** Once a handle's path is gone it never becomes usable again, whatever is added, reset, connected or reused
      afterwards: the handle resolves to nothing, or to a path that is still gone - never to a new occupant. */
  lemma {:induction false} DroppedHandleStaysUnusable(states: seq<ClientState>, steps: seq<ClientStep>, h: int, n: nat)
    requires IsClientRun(states, steps) && SlotsInv(states[0].slots) && Unusable(states[0].slots, h) && n < |states|
    ensures Unusable(states[n].slots, h)
  {
    hide SlotsInv, TakeClient, AllowedClient, Unusable;
    if n > 0 {
      DroppedHandleStaysUnusable(states, steps, h, n - 1);
      RunKeepsSlotsInv(states, steps, n - 1);
      UnusableClientStep(states[n - 1], steps[n - 1], h);
    }
  }

  /** Removing or dropping a path makes its handle unusable at once. */
  lemma DropMakesUnusable(s: Slots, h: int, ev: PathEvent)
    requires SlotsInv(s) && FindHandle(s.all, h, 0) < |s.all| && (ev.PlatformDrop? || ev.RemoveApi?)
    ensures Unusable(OnHandle(s, h, ev), h)
  {
    hide PathInv, FindHandle;
    var k := FindHandle(s.all, h, 0);
    var t := OnHandle(s, h, ev);
    assert t.all[k].handle == h && Gone(t.all[k].path);
    SlotStepKeepsInv(s, At(k, Event(ev)));
    FindUnique(t, k);
  }

  ghost predicate OnlySlotAdded(s: Slots, t: Slots, k: nat, fd: int, flags: nat) {
    && fd >= 0 && k < |t.all| && t.all[k].path == Added(fd) && t.all[k].flags == flags
    && |s.all| <= |t.all| && forall i :: 0 <= i < |s.all| && i != k ==> t.all[i] == s.all[i]
  }

  /** The platform still has a socket for the path, or the transport still knows it. */
  predicate Taken(p: Path) {
    p.attached || p.live
  }

  lemma TakenIff(p: Path)
    requires PathInv(p)
    ensures Taken(p) <==> !Reusable(p)
  {
  }

  /** Adding a path gives a handle never given before and resolves it to the new path, with its flags; it leaves every slot
      alone that is still taken, and is refused, but for a bad socket, exactly if all of them are. */
  lemma AddPathSparesOthers(s: Slots, fd: int, flags: nat)
    requires SlotsInv(s)
    ensures var (t, h) := AddPath(s, fd, flags);
      && (h == None <==> fd < 0 || (|s.all| == MAX_PATHS && forall i :: 0 <= i < |s.all| ==> Taken(s.all[i].path)))
      && (h == None ==> t == s)
      && SlotsInv(t)
      && (h.Some? ==> forall i :: 0 <= i < |s.all| ==> s.all[i].handle != h.value)
      && (h.Some? ==> OnlySlotAdded(s, t, FindHandle(t.all, h.value, 0), fd, flags))
      && (forall i :: 0 <= i < |s.all| && Taken(s.all[i].path) ==> t.all[i] == s.all[i])
  {
    hide PathInv, FindHandle, Added, Taken, Reusable;
    forall i | 0 <= i < |s.all|
      ensures Taken(s.all[i].path) <==> !Reusable(s.all[i].path)
    {
      TakenIff(s.all[i].path);
    }
    SlotStepKeepsInv(s, Add(fd, flags));
    var (t, h) := AddPath(s, fd, flags);
    if h.Some? {
      FindUnique(t, ReuseFrom(s.all, 0));
    }
  }

  // ----- which socket to write to -----

  function FindLive(all: seq<Slot>, id: nat, i: nat): (k: nat)
    requires i <= |all|
    ensures i <= k <= |all| && (k < |all| ==> all[k].path.live && all[k].path.xqcId == id)
    ensures forall j :: i <= j < k ==> !(all[j].path.live && all[j].path.xqcId == id)
    decreases |all| - i
  {
    if i == |all| || (all[i].path.live && all[i].path.xqcId == id) then i else FindLive(all, id, i + 1)
  }

  function FirstAttached(all: seq<Slot>, i: nat): (k: nat)
    requires i <= |all|
    ensures i <= k <= |all| && (k < |all| ==> all[k].path.attached)
    ensures forall j :: i <= j < k ==> !all[j].path.attached
    decreases |all| - i
  {
    if i == |all| || all[i].path.attached then i else FirstAttached(all, i + 1)
  }

  /** The slot with the transport's path number, else the primary, else the first attached one. */
  function FdForPath(s: Slots, primary: nat, id: nat): int {
    var k := FindLive(s.all, id, 0);
    if k < |s.all| && s.all[k].path.attached then s.all[k].path.fd
    else if primary < |s.all| && s.all[primary].path.attached then s.all[primary].path.fd
    else
      var a := FirstAttached(s.all, 0);
      if a < |s.all| then s.all[a].path.fd else -1
  }

  /** The slot whose socket is written to: the first one the transport knows by the number, if it is attached; else the
      primary, if attached; else the first attached one. */
  ghost predicate Carries(s: Slots, primary: nat, id: nat, k: nat) {
    && k < |s.all| && s.all[k].path.attached
    && if exists i: nat :: Numbered(s, id, i) && s.all[i].path.attached
       then Numbered(s, id, k)
       else if primary < |s.all| && s.all[primary].path.attached then k == primary
       else forall j :: 0 <= j < k ==> !s.all[j].path.attached
  }

  /** The first slot the transport knows by the number. */
  ghost predicate Numbered(s: Slots, id: nat, i: nat) {
    && i < |s.all| && s.all[i].path.live && s.all[i].path.xqcId == id
    && forall j :: 0 <= j < i ==> !(s.all[j].path.live && s.all[j].path.xqcId == id)
  }

  /** A packet is written to the open socket of that slot; there is none exactly when no path is attached. */
  lemma FdForPathSound(s: Slots, primary: nat, id: nat)
    requires SlotsInv(s)
    ensures var fd := FdForPath(s, primary, id);
      && (forall k: nat :: Carries(s, primary, id, k) ==> fd == s.all[k].path.fd >= 0)
      && (fd == -1 <==> forall i :: 0 <= i < |s.all| ==> !s.all[i].path.attached)
      && (fd != -1 ==> exists k: nat :: Carries(s, primary, id, k))
  {
    hide PathInv, FindLive, FirstAttached;
    forall i | 0 <= i < |s.all|
      ensures s.all[i].path.attached ==> s.all[i].path.fd >= 0
    {
      AttachedHasSocket(s.all[i].path);
    }
    var k, a := FindLive(s.all, id, 0), FirstAttached(s.all, 0);
    assert k < |s.all| ==> Numbered(s, id, k);
    assert forall i: nat :: Numbered(s, id, i) ==> i == k;
    if k < |s.all| && s.all[k].path.attached {
      assert Carries(s, primary, id, k);
    } else if primary < |s.all| && s.all[primary].path.attached {
      assert Carries(s, primary, id, primary);
    } else if a < |s.all| {
      assert Carries(s, primary, id, a);
    }
  }

  // ----- a dropped primary -----

  /** The primary has no socket, and at most one other path could take its place. */
  ghost predicate Stuck(c: ClientState) {
    && SlotsInv(c.slots) && c.primary < |c.slots.all| && !c.slots.all[c.primary].path.attached
    && CountFrom(FlagView(c.slots), 0) <= 1
  }

  lemma NeverAttaches(p: Path, st: Step)
    requires st != Event(AddFd)
    ensures Take(p, st).attached ==> p.attached
  {
    hide Backoff, Elapsed;
  }

  /** Fewer flags cleared, no more paths to choose from. */
  lemma {:induction false} CountMonotone(a: seq<nat>, b: seq<nat>, i: nat)
    requires |a| == |b| && i <= |a| && forall j :: 0 <= j < |a| && !IsBackup(b[j]) ==> !IsBackup(a[j])
    ensures CountFrom(b, i) <= CountFrom(a, i)
    decreases |a| - i
  {
    hide IsBackup;
    if i < |a| {
      CountMonotone(a, b, i + 1);
    }
  }

  lemma StuckStep(c: ClientState, st: ClientStep)
    requires Stuck(c) && AllowedClient(c, st) && (st.SlotEvent? ==> !st.st.Add?)
    ensures var d := TakeClient(c, st); Stuck(d) && d.primary == c.primary && d.started == c.started
  {
    hide CountFrom, PathInv, OnConnReset, Rotated, IsBackup, Take;
    var s := c.slots;
    match st {
      case Connect(up) =>
      case TryReconnect(up) =>
        ReconnectKeepsInv(s, c.primary, up);
        ReconnectStartsIff(s, c.primary, up);
        ResetKeepsFlagView(s);
        RotatedStays(c.primary, FlagView(s));
        ResetKeepsPathInv(s.all[c.primary].path);
      case SlotEvent(e) =>
        SlotStepKeepsInv(s, e);
        if e.ResetPaths? {
          ResetKeepsFlagView(s);
          ResetKeepsPathInv(s.all[c.primary].path);
        } else {
          NeverAttaches(s.all[e.index].path, e.step);
          var t := TakeSlot(s, e);
          forall j | 0 <= j < |s.all| && !IsBackup(FlagView(t)[j])
            ensures !IsBackup(FlagView(s)[j])
          {
            ViewEligible(s, j);
            ViewEligible(t, j);
          }
          CountMonotone(FlagView(s), FlagView(t), 0);
        }
    }
  }

  /** With a dropped primary and at most one attached non-backup path, nothing that can happen starts a connection or moves
      on to that path - no number of reconnects, no connection asked for, no event of any path - until a path is added. */
  lemma {:induction false} StuckUntilAdded(states: seq<ClientState>, steps: seq<ClientStep>, n: nat)
    requires IsClientRun(states, steps) && Stuck(states[0]) && n < |states|
    requires forall i :: 0 <= i < n ==> steps[i].SlotEvent? ==> !steps[i].st.Add?
    ensures Stuck(states[n]) && states[n].primary == states[0].primary && states[n].started == states[0].started
  {
    hide Stuck, TakeClient, AllowedClient;
    if n > 0 {
      StuckUntilAdded(states, steps, n - 1);
      StuckStep(states[n - 1], steps[n - 1]);
    }
  }

  lemma RotatedStays(cur: nat, flags: seq<nat>)
    requires cur < |flags|
    ensures Rotated(cur, flags) < |flags|
    ensures CountFrom(flags, 0) <= 1 ==> Rotated(cur, flags) == cur
  {
    if CountFrom(flags, 0) >= 2 {
      RotationMoves(cur, flags);
    }
  }
}
