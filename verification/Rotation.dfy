/** Choice of the next primary path on reconnect. */
module Rotation {
  import opened Bits

  const FLAG_BACKUP: nat := 1

  predicate IsBackup(flags: nat) {
    And(flags, FLAG_BACKUP) != 0
  }

  /** Paths from index i on that are not backups. */
  function CountFrom(flags: seq<nat>, i: nat): nat
    requires i <= |flags|
    decreases |flags| - i
  {
    if i == |flags| then 0 else (if IsBackup(flags[i]) then 0 else 1) + CountFrom(flags, i + 1)
  }

  /** The first non-backup path at or after index i, or the number of paths. */
  function FirstFrom(flags: seq<nat>, i: nat): (k: nat)
    requires i <= |flags|
    ensures i <= k <= |flags|
    ensures k < |flags| ==> !IsBackup(flags[k])
    ensures forall j :: i <= j < k ==> IsBackup(flags[j])
    decreases |flags| - i
  {
    if i == |flags| || !IsBackup(flags[i]) then i else FirstFrom(flags, i + 1)
  }

  lemma FirstIs(flags: seq<nat>, i: nat, k: nat)
    requires i <= k <= |flags|
    requires k < |flags| ==> !IsBackup(flags[k])
    requires forall j :: i <= j < k ==> IsBackup(flags[j])
    ensures FirstFrom(flags, i) == k
  {
    hide IsBackup;
  }

  /** Indices wrap around. */
  function Mod(a: nat, n: nat): (r: nat)
    requires n > 0
    ensures r < n
  {
    a % n
  }

  lemma ModBelow(a: nat, n: nat)
    requires n > 0 && a < 2 * n
    ensures Mod(a, n) == if a < n then a else a - n
  {
    if a < n {
      ModUnique(a, n, 0, a);
    } else {
      ModUnique(a, n, 1, a - n);
    }
  }

  /** The path to use after `cur`. */
  function Rotated(cur: nat, flags: seq<nat>): nat {
    if CountFrom(flags, 0) <= 1 then cur
    else if |flags| == 0 then cur
    else
      var k := FirstFrom(flags, Mod(cur + 1, |flags|));
      if k < |flags| then k else FirstFrom(flags, 0)
  }

  lemma {:induction false} CountIsZeroIff(flags: seq<nat>, i: nat)
    requires i <= |flags|
    ensures CountFrom(flags, i) == 0 <==> FirstFrom(flags, i) == |flags|
    decreases |flags| - i
  {
    hide IsBackup;
    if i < |flags| {
      CountIsZeroIff(flags, i + 1);
    }
  }

  /** Count the non-backup paths, then walk forward from the next index, wrapping. */
  method RotatePrimaryPath(cur: nat, flags: seq<nat>) returns (r: nat)
    ensures r == Rotated(cur, flags)
  {
    hide IsBackup, Mod;
    if |flags| <= 1 {
      CountSmall(flags);
      return cur;
    }
    var primaries := 0;
    for i := 0 to |flags|
      invariant primaries + CountFrom(flags, i) == CountFrom(flags, 0)
    {
      if !IsBackup(flags[i]) {
        primaries := primaries + 1;
      }
    }
    if primaries <= 1 {
      return cur;
    }
    CountIsZeroIff(flags, 0);
    ghost var start := Mod(cur + 1, |flags|);
    ghost var wrapped := false;
    r := Mod(cur + 1, |flags|);
    while IsBackup(flags[r])
      invariant r < |flags|
      invariant !wrapped ==> start <= r && forall j :: start <= j < r ==> IsBackup(flags[j])
      invariant wrapped ==> FirstFrom(flags, start) == |flags| && forall j :: 0 <= j < r ==> IsBackup(flags[j])
      invariant FirstFrom(flags, 0) < |flags|
      decreases !wrapped, |flags| - r
    {
      ModBelow(r + 1, |flags|);
      if r + 1 == |flags| && !wrapped {
        FirstIs(flags, start, |flags|);
        wrapped := true;
      }
      r := Mod(r + 1, |flags|);
    }
    FirstIs(flags, if wrapped then 0 else start, r);
  }

  lemma CountSmall(flags: seq<nat>)
    requires |flags| <= 1
    ensures CountFrom(flags, 0) <= 1
  {
    hide IsBackup;
    if |flags| == 1 {
      assert CountFrom(flags, 1) == 0;
    }
  }

  // ----- round robin -----

  /** The non-backup paths from index i on, in order. */
  function Primaries(flags: seq<nat>, i: nat): (r: seq<nat>)
    requires i <= |flags|
    ensures forall k :: 0 <= k < |r| ==> i <= r[k] < |flags| && !IsBackup(flags[r[k]])
    ensures forall j, k :: 0 <= j < k < |r| ==> r[j] < r[k]
    decreases |flags| - i
  {
    var k := FirstFrom(flags, i);
    if k == |flags| then [] else [k] + Primaries(flags, k + 1)
  }

  lemma {:induction false} PrimariesComplete(flags: seq<nat>, i: nat, j: nat)
    requires i <= j < |flags| && !IsBackup(flags[j])
    ensures j in Primaries(flags, i)
    decreases |flags| - i
  {
    hide IsBackup;
    var k := FirstFrom(flags, i);
    if k < j {
      PrimariesComplete(flags, k + 1, j);
    }
  }

  lemma {:induction false} CountIsLength(flags: seq<nat>, i: nat)
    requires i <= |flags|
    ensures CountFrom(flags, i) == |Primaries(flags, i)|
    decreases |flags| - i
  {
    hide IsBackup;
    if i < |flags| {
      CountIsLength(flags, i + 1);
      assert IsBackup(flags[i]) ==> FirstFrom(flags, i) == FirstFrom(flags, i + 1);
    }
  }

  lemma {:induction false} PrimariesFollow(flags: seq<nat>, i: nat, j: nat)
    requires i <= |flags| && j < |Primaries(flags, i)|
    ensures var ps := Primaries(flags, i);
      FirstFrom(flags, ps[j] + 1) == if j + 1 < |ps| then ps[j + 1] else |flags|
    decreases |flags| - i
  {
    hide IsBackup;
    var k := FirstFrom(flags, i);
    if j > 0 {
      PrimariesFollow(flags, k + 1, j - 1);
    }
  }

  /** Rotation moves to the next non-backup path, and from the last to the first. */
  lemma {:induction false} RotatedIsNext(flags: seq<nat>, j: nat)
    requires var ps := Primaries(flags, 0); |ps| >= 2 && j < |ps|
    ensures var ps := Primaries(flags, 0); Rotated(ps[j], flags) == ps[Mod(j + 1, |ps|)]
  {
    hide IsBackup, Mod;
    var ps := Primaries(flags, 0);
    CountIsLength(flags, 0);
    PrimariesFollow(flags, 0, j);
    ModBelow(ps[j] + 1, |flags|);
    ModBelow(j + 1, |ps|);
  }

  function Rotations(cur: nat, flags: seq<nat>, times: nat): nat {
    if times == 0 then cur else Rotated(Rotations(cur, flags, times - 1), flags)
  }

  /** Repeated rotation is a round robin: with P non-backup paths, rotating t times from the j-th one leads to the
      (j + t mod P)-th, so any P rotations in a row visit each non-backup path exactly once and end where they began. */
  lemma {:induction false} RoundRobin(flags: seq<nat>, j: nat, t: nat)
    requires var ps := Primaries(flags, 0); |ps| >= 2 && j < |ps|
    ensures var ps := Primaries(flags, 0); Rotations(ps[j], flags, t) == ps[Mod(j + t, |ps|)]
  {
    hide Primaries, Rotated, Mod;
    var ps := Primaries(flags, 0);
    ModBelow(j, |ps|);
    if t > 0 {
      RoundRobin(flags, j, t - 1);
      RotatedIsNext(flags, Mod(j + t - 1, |ps|));
      ModNext(j + t - 1, |ps|);
    }
  }

  lemma ModNext(a: nat, n: nat)
    requires n > 0
    ensures Mod(Mod(a, n) + 1, n) == Mod(a + 1, n)
  {
    var q, r := a / n, a % n;
    assert a == n * q + r;
    if r + 1 == n {
      assert a + 1 == n * (q + 1) + 0;
      ModUnique(a + 1, n, q + 1, 0);
      ModUnique(n, n, 1, 0);
    } else {
      ModUnique(a + 1, n, q, r + 1);
      ModUnique(r + 1, n, 0, r + 1);
    }
  }

  /** The visits of one cycle: every non-backup path, each once. */
  lemma CycleVisitsAll(flags: seq<nat>, j: nat, path: nat)
    requires var ps := Primaries(flags, 0); |ps| >= 2 && j < |ps|
    requires path < |flags| && !IsBackup(flags[path])
    ensures var ps := Primaries(flags, 0);
      exists t :: 0 <= t < |ps| && Rotations(ps[j], flags, t) == path &&
        forall u :: 0 <= u < |ps| && Rotations(ps[j], flags, u) == path ==> u == t
  {
    hide Rotations, Rotated, IsBackup, Mod, Primaries;
    var ps := Primaries(flags, 0);
    PrimariesComplete(flags, 0, path);
    var k :| 0 <= k < |ps| && ps[k] == path;
    var t := if k >= j then k - j else k + |ps| - j;
    forall u | 0 <= u < |ps|
      ensures Rotations(ps[j], flags, u) == path <==> u == t
    {
      RoundRobin(flags, j, u);
      ModBelow(j + u, |ps|);
    }
    assert Rotations(ps[j], flags, t) == path;
  }

  /** With two non-backup paths the rotation always leaves the current index for another non-backup path. */
  lemma RotationMoves(cur: nat, flags: seq<nat>)
    requires CountFrom(flags, 0) >= 2
    ensures var r := Rotated(cur, flags); r < |flags| && !IsBackup(flags[r]) && r != cur
  {
    hide IsBackup, Mod;
    CountIsLength(flags, 0);
    CountIsZeroIff(flags, 0);
    if cur < |flags| && !IsBackup(flags[cur]) {
      PrimariesComplete(flags, 0, cur);
      var j :| 0 <= j < |Primaries(flags, 0)| && Primaries(flags, 0)[j] == cur;
      RotatedIsNext(flags, j);
      ModBelow(j + 1, |Primaries(flags, 0)|);
    }
  }

  /** The path chosen is a non-backup one exactly when there are two to choose from, or the current one is one already:
      a single non-backup path elsewhere is not found. */
  lemma ChoosesPrimaryIff(cur: nat, flags: seq<nat>)
    ensures var r := Rotated(cur, flags);
      (r < |flags| && !IsBackup(flags[r])) <==> CountFrom(flags, 0) >= 2 || (cur < |flags| && !IsBackup(flags[cur]))
  {
    if CountFrom(flags, 0) >= 2 {
      RotationMoves(cur, flags);
    }
  }

  /** An instance: the first path is the current one and counts as a backup, having lost its socket; the second is fine. */
  lemma LoneSurvivorMissed()
    ensures Rotated(0, [FLAG_BACKUP, 0]) == 0 && IsBackup(FLAG_BACKUP) && !IsBackup(0)
  {
    assert And(0, 0) == 0;
    assert CountFrom([FLAG_BACKUP, 0], 2) == 0;
    assert CountFrom([FLAG_BACKUP, 0], 1) == 1;
  }
}
