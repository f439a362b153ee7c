/** The client's array of path entries, updated in place and proved against PathSlots. */
module ClientPaths {
  import opened Wrappers
  import opened PathFsm
  import opened PathObject
  import opened PathSlots
  import opened Rotation

  ghost function SlotOf(e: PathEntry): Slot
    reads e
  {
    Slot(e.handle, e.flags, e.View())
  }

  class ClientPaths {
    const entries: array<PathEntry>
    var n: nat
    var nextHandle: int
    var primary: nat

    ghost predicate Valid()
      reads this`n, entries
    {
      && entries.Length == MAX_PATHS && n <= MAX_PATHS
      && forall i, j :: 0 <= i < j < entries.Length ==> entries[i] != entries[j]
    }

    ghost function Model(): Slots
      reads this`n, this`nextHandle, entries, set i | 0 <= i < entries.Length :: entries[i]
      requires Valid()
    {
      Slots(FirstSlots(n), nextHandle)
    }

    ghost function FirstSlots(k: nat): (r: seq<Slot>)
      requires k <= entries.Length
      reads entries, set i | 0 <= i < entries.Length :: entries[i]
      ensures |r| == k && forall i :: 0 <= i < k ==> r[i] == SlotOf(entries[i])
    {
      if k == 0 then [] else FirstSlots(k - 1) + [SlotOf(entries[k - 1])]
    }

    constructor ()
      ensures Valid() && n == 0 && nextHandle == 1 && primary == 0 && fresh(entries)
      ensures forall i :: 0 <= i < entries.Length ==> fresh(entries[i])
    {
      var first := new PathEntry();
      entries := new PathEntry[MAX_PATHS](_ => first);
      n, nextHandle, primary := 0, 1, 0;
      new;
      for i := 0 to MAX_PATHS
        modifies entries
        invariant n == 0 && nextHandle == 1 && primary == 0
        invariant forall j :: 0 <= j < MAX_PATHS ==> fresh(entries[j])
        invariant forall j, k :: 0 <= j < k < i ==> entries[j] != entries[k]
      {
        var e := new PathEntry();
        entries[i] := e;
      }
    }

    method FindReusable() returns (k: nat)
      requires Valid()
      ensures k == ReuseFrom(Model().all, 0)
    {
      k := 0;
      while k < n && !(entries[k].status == StatusClosed && !entries[k].attached && !entries[k].live)
        invariant k <= n && forall j :: 0 <= j < k ==> !Reusable(Model().all[j].path)
      {
        k := k + 1;
      }
      ReuseIs(Model().all, 0, k);
    }

    method FindByHandle(h: int) returns (k: nat)
      requires Valid()
      ensures k == FindHandle(Model().all, h, 0)
    {
      k := 0;
      while k < n && entries[k].handle != h
        invariant k <= n && forall j :: 0 <= j < k ==> Model().all[j].handle != h
      {
        k := k + 1;
      }
      FindIs(Model().all, h, 0, k);
    }

    /** Prepare the entry at a place for a new path. */
    method Occupy(k: nat, fd: nat, flags: nat)
      requires Valid() && k < n
      modifies this`nextHandle, entries[k]
      ensures Valid() && nextHandle == old(nextHandle) + 1
      ensures Model() == Slots(old(Model()).all[k := Slot(old(nextHandle), flags, Added(fd))], old(nextHandle) + 1)
    {
      hide Enter, FirstSlots;
      var p := entries[k];
      p.Init();
      p.handle := nextHandle;
      nextHandle := nextHandle + 1;
      p.fd := fd;
      p.flags := flags;
      assert p.View() == UNUSED.(fd := fd);
      p.HandleAddFd();
    }

    method AddPathFd(fd: int, flags: nat) returns (h: Option<int>)
      requires Valid()
      modifies this`n, this`nextHandle, set i | 0 <= i < entries.Length :: entries[i]
      ensures Valid() && (Model(), h) == AddPath(old(Model()), fd, flags)
    {
      hide Added, ReuseFrom, FirstSlots;
      ghost var s := Model();
      if fd < 0 {
        return None;
      }
      var k := FindReusable();
      if k == n {
        if n >= MAX_PATHS {
          return None;
        }
        n := n + 1;
        assert Model().all == s.all + [SlotOf(entries[k])];
      }
      h := Some(nextHandle);
      Occupy(k, fd, flags);
      assert k == |s.all| ==> Model().all == s.all + [NewSlot(s, fd, flags)];
    }

    /** Hand an event to the path with a handle; false for an unknown handle. */
    method EventForHandle(h: int, ev: PathEvent) returns (known: bool)
      requires Valid()
      modifies set i | 0 <= i < entries.Length :: entries[i]
      ensures Valid() && Model() == OnHandle(old(Model()), h, ev)
      ensures known <==> FindHandle(old(Model()).all, h, 0) < |old(Model()).all|
    {
      hide OnEvent, FindHandle, FirstSlots;
      var k := FindByHandle(h);
      if k == n {
        return false;
      }
      entries[k].Dispatch(ev);
      return true;
    }

    method RemovePath(h: int) returns (known: bool)
      requires Valid()
      modifies set i | 0 <= i < entries.Length :: entries[i]
      ensures Valid() && Model() == OnHandle(old(Model()), h, RemoveApi)
      ensures known <==> FindHandle(old(Model()).all, h, 0) < |old(Model()).all|
    {
      hide FindHandle;
      var k := FindByHandle(h);
      if k == n {
        return false;
      }
      if entries[k].state == ClosedFree {
        return true;
      }
      entries[k].Dispatch(RemoveApi);
      return true;
    }

    method ResetPathsForReconnect()
      requires Valid()
      modifies set i | 0 <= i < entries.Length :: entries[i]
      ensures Valid() && Model() == ResetAll(old(Model()))
    {
      hide OnConnReset, FirstSlots;
      ghost var before := Model();
      for i := 0 to n
        invariant forall j :: 0 <= j < i ==> SlotOf(entries[j]) == before.all[j].(path := OnConnReset(before.all[j].path))
        invariant forall j :: i <= j < n ==> SlotOf(entries[j]) == before.all[j]
      {
        entries[i].Dispatch(ConnReset);
      }
    }

    /** The flags shown to the rotation: a path without a socket counts as a backup. */
    method BuildFlags() returns (flags: seq<nat>)
      requires Valid()
      ensures flags == FlagView(Model())
    {
      hide IsBackup;
      flags := [];
      for i := 0 to n
        invariant |flags| == i && forall j :: 0 <= j < i ==> flags[j] == FlagView(Model())[j]
      {
        flags := flags + [if entries[i].attached then entries[i].flags else SetBackup(entries[i].flags)];
      }
    }

    /** Open a connection, if the primary path has a socket and the transport comes up. */
    method StartOn(up: bool) returns (started: bool)
      requires Valid()
      modifies set i | 0 <= i < entries.Length :: entries[i]
      ensures Valid() && (Model(), started) == StartConnection(old(Model()), primary, up)
    {
      hide Bootstrap, FirstSlots;
      if n > 0 && primary < n {
        var pp := entries[primary];
        if !pp.attached || pp.fd < 0 {
          return false;
        }
      }
      if !up {
        return false;
      }
      if n > 0 && primary < n {
        ghost var s := Model();
        entries[primary].BootstrapPrimary();
        assert Model().all == StepAt(s, primary, PrimaryBootstrap).all;
      }
      return true;
    }

    /** The path side of a reconnect attempt. */
    method ReconnectPaths(up: bool) returns (started: bool)
      requires Valid()
      modifies this`primary, set i | 0 <= i < entries.Length :: entries[i]
      ensures Valid() && (Model(), primary, started) == Reconnect(old(Model()), old(primary), up)
    {
      hide OnConnReset, Rotated, FlagView, ResetAll, FirstSlots, StartConnection;
      ResetPathsForReconnect();
      ResetLength(old(Model()));
      if n > 0 {
        var flags := BuildFlags();
        primary := RotatePrimaryPath(primary, flags);
      }
      started := StartOn(up);
    }

    lemma ResetLength(s: Slots)
      ensures |ResetAll(s).all| == |s.all|
    {
    }

    method FirstActiveFd() returns (fd: int)
      requires Valid()
      ensures var a := FirstAttached(Model().all, 0); fd == if a < |Model().all| then Model().all[a].path.fd else -1
    {
      for i := 0 to n
        invariant forall j :: 0 <= j < i ==> !Model().all[j].path.attached
      {
        if entries[i].attached {
          FirstAttachedIs(Model().all, i);
          return entries[i].fd;
        }
      }
      FirstAttachedIs(Model().all, n);
      return -1;
    }

    lemma FirstAttachedIs(all: seq<Slot>, k: nat)
      requires k <= |all| && (k < |all| ==> all[k].path.attached) && forall j :: 0 <= j < k ==> !all[j].path.attached
      ensures FirstAttached(all, 0) == k
    {
    }

    /** The socket for a path number of the transport. */
    method GetFdForPath(id: nat) returns (fd: int)
      requires Valid()
      ensures fd == FdForPath(Model(), primary, id)
    {
      hide FirstSlots;
      var k := 0;
      while k < n && !(entries[k].live && entries[k].xqcId == id)
        invariant k <= n && forall j :: 0 <= j < k ==> !(Model().all[j].path.live && Model().all[j].path.xqcId == id)
      {
        k := k + 1;
      }
      FindLiveIs(Model().all, id, k);
      if k < n && entries[k].attached {
        return entries[k].fd;
      }
      if primary < n && entries[primary].attached {
        return entries[primary].fd;
      }
      fd := FirstActiveFd();
    }

    lemma FindLiveIs(all: seq<Slot>, id: nat, k: nat)
      requires k <= |all| && (k < |all| ==> all[k].path.live && all[k].path.xqcId == id)
      requires forall j :: 0 <= j < k ==> !(all[j].path.live && all[j].path.xqcId == id)
      ensures FindLive(all, id, 0) == k
    {
    }
  }
}
