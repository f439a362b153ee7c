/** The elastic, sequence-indexed receive ring of one reorder flow. */
module Ring {
  import opened Bits
  import opened Totals
  import opened Wrappers

  type Packet = seq<Byte>

  /** A buffered packet and the time at which it was admitted. */
  datatype Item = Item(pkt: Packet, enqueued: nat)

  datatype Slot = Vacant | Held(seqNo: nat, item: Item)

  function Length(item: Item): nat {
    |item.pkt|
  }

  /** The slot of a sequence number: the low bits, as selected by the mask `size - 1`. */
  function Index(s: nat, size: nat): (r: nat)
    requires size > 0
    ensures r < size
  {
    And(s, size - 1)
  }

  lemma IndexIsMod(s: nat, size: nat)
    requires IsPow2(size)
    ensures size > 0 && Index(s, size) == s % size
  {
    var k: nat :| size == Pow2(k);
    MaskIsMod(s, k);
  }

  /** Inside a window of `size` consecutive numbers no two share a slot. */
  lemma IndexInjective(lo: nat, size: nat, a: nat, b: nat)
    requires IsPow2(size)
    requires lo <= a < lo + size && lo <= b < lo + size
    ensures size > 0 && (Index(a, size) == Index(b, size) ==> a == b)
  {
    IndexIsMod(a, size);
    IndexIsMod(b, size);
    if a % size == b % size {
      SameResidue(size, a, b);
    }
  }

  lemma SameResidue(d: nat, a: nat, b: nat)
    requires d > 0 && a % d == b % d && -(d as int) < a - b < d
    ensures a == b
  {
    var p, q := a / d, b / d;
    assert a == d * p + a % d && b == d * q + b % d;
    assert d * (p - q) == a - b by {
      assert d * (p - q) == d * p - d * q;
    }
    SmallMultiple(d, p - q);
  }

  /** The slots hold exactly the buffered packets, each in its own slot. */
  ghost predicate Represents(slots: seq<Slot>, contents: map<nat, Item>) {
    && |slots| > 0
    && (forall s :: s in contents ==> slots[Index(s, |slots|)] == Held(s, contents[s]))
    && (forall i :: 0 <= i < |slots| && slots[i].Held? ==>
          slots[i].seqNo in contents && Index(slots[i].seqNo, |slots|) == i)
  }

  /** Within a window the slot of an absent number is free, so filling it overwrites nothing. */
  lemma RepresentsInsert(slots: seq<Slot>, contents: map<nat, Item>, lo: nat, s: nat, item: Item)
    requires Represents(slots, contents) && IsPow2(|slots|)
    requires forall t :: t in contents ==> lo <= t < lo + |slots|
    requires lo <= s < lo + |slots| && s !in contents
    ensures slots[Index(s, |slots|)] == Vacant
    ensures Represents(slots[Index(s, |slots|) := Held(s, item)], contents[s := item])
  {
    forall t | t in contents
      ensures Index(t, |slots|) != Index(s, |slots|)
    {
      IndexInjective(lo, |slots|, s, t);
    }
  }

  lemma RepresentsRemove(slots: seq<Slot>, contents: map<nat, Item>, s: nat)
    requires Represents(slots, contents) && s in contents
    ensures |slots| > 0 && slots[Index(s, |slots|)] == Held(s, contents[s])
    ensures Represents(slots[Index(s, |slots|) := Vacant], contents - {s})
  {
    forall t | t in contents && t != s
      ensures Index(t, |slots|) != Index(s, |slots|)
    {
      assert slots[Index(t, |slots|)].seqNo == t;
    }
  }

  /** The packets whose slot lies below `i`. */
  ghost function Below(contents: map<nat, Item>, size: nat, i: nat): map<nat, Item>
    requires size > 0
  {
    map s | s in contents && Index(s, size) < i :: contents[s]
  }

  lemma BelowNext(slots: seq<Slot>, contents: map<nat, Item>, i: nat)
    requires Represents(slots, contents) && i < |slots|
    ensures Below(contents, |slots|, i + 1) ==
            if slots[i].Held? then Below(contents, |slots|, i)[slots[i].seqNo := slots[i].item]
            else Below(contents, |slots|, i)
  {
    forall s | s in contents && Index(s, |slots|) == i
      ensures slots[i] == Held(s, contents[s])
    {
    }
  }

  /** Walking the slots in order meets every buffered packet once. */
  lemma BelowTotals(slots: seq<Slot>, contents: map<nat, Item>, i: nat)
    requires Represents(slots, contents) && i < |slots|
    ensures var a, b := Below(contents, |slots|, i), Below(contents, |slots|, i + 1);
      if slots[i].Held? then
        |b| == |a| + 1 && Total(b, Length) == Total(a, Length) + |slots[i].item.pkt| <= Total(contents, Length)
      else
        |b| == |a| && Total(b, Length) == Total(a, Length)
  {
    BelowNext(slots, contents, i);
    if slots[i].Held? {
      TotalInsert(Below(contents, |slots|, i), Length, slots[i].seqNo, slots[i].item);
      TotalSubmap(Below(contents, |slots|, i + 1), contents, Length);
    }
  }

  lemma BelowEnds(slots: seq<Slot>, contents: map<nat, Item>)
    requires |slots| > 0
    ensures Below(contents, |slots|, 0) == map[] && Below(contents, |slots|, |slots|) == contents
  {
  }

  class SlotRing {
    const cap: nat
    var slots: array?<Slot>
    var size: nat
    var count: nat
    var bytes: nat
    ghost var contents: map<nat, Item>

    ghost predicate Valid()
      reads this, slots
    {
      && IsPow2(cap)
      && (slots == null ==> size == 0 && contents == map[])
      && (slots != null ==>
            && slots.Length == size && 0 < size <= cap && IsPow2(size)
            && Represents(slots[..], contents))
      && count == |contents|
      && bytes == Total(contents, Length)
    }

    /** Everything buffered lies in the `size` numbers from `lo`. */
    ghost predicate Covers(lo: nat)
      reads this
    {
      forall s :: s in contents ==> lo <= s < lo + size
    }

    constructor (cap: nat)
      requires IsPow2(cap)
      ensures Valid() && this.cap == cap && contents == map[] && slots == null
    {
      this.cap := cap;
      slots, size, count, bytes := null, 0, 0, 0;
      contents := map[];
    }

    method Free()
      requires IsPow2(cap)
      modifies this
      ensures Valid() && contents == map[] && slots == null && bytes == 0
    {
      slots, size, count, bytes := null, 0, 0, 0;
      contents := map[];
    }

    lemma EmptyRing()
      requires Valid() && contents == map[]
      ensures IsPow2(cap) && bytes == 0
    {
    }

    method IsEmpty() returns (r: bool)
      requires Valid()
      ensures r <==> contents == map[]
    {
      r := count == 0;
    }

    method Contains(s: nat) returns (r: bool)
      requires Valid()
      ensures r <==> s in contents
    {
      if slots == null {
        return false;
      }
      var slot := slots[Index(s, size)];
      r := slot.Held? && slot.seqNo == s;
    }

    method GrowToCover(span: nat, ghost lo: nat)
      requires Valid() && Covers(lo) && span < cap
      modifies this
      ensures Valid() && Covers(lo)
      ensures contents == old(contents) && bytes == old(bytes) && span < size && size >= old(size)
      ensures slots != null && (slots == old(slots) || fresh(slots))
    {
      var want := if size != 0 then size else 1;
      assert IsPow2(want) by { assert Pow2(0) == 1; }
      while want <= span && want < cap
        invariant unchanged(this) && IsPow2(want) && size <= want <= cap && want > 0
        decreases cap - want
      {
        DoubleWithin(want, cap);
        want := want * 2;
      }
      if want == size && slots != null {
        return;
      }
      Resize(want, lo);
    }

    /** Move every occupied slot to its place in a larger array. */
    method Resize(want: nat, ghost lo: nat)
      requires Valid() && Covers(lo) && IsPow2(want) && size <= want <= cap && want > 0
      modifies this
      ensures Valid() && Covers(lo)
      ensures contents == old(contents) && bytes == old(bytes) && size == want
      ensures slots != null && fresh(slots)
    {
      var bigger := new Slot[want](_ => Vacant);
      if slots != null {
        for i := 0 to size
          invariant unchanged(this) && unchanged(slots) && bigger != slots
          invariant Represents(bigger[..], Below(contents, size, i))
        {
          var slot := slots[i];
          BelowNext(slots[..], contents, i);
          if slot.Held? {
            RepresentsInsert(bigger[..], Below(contents, size, i), lo, slot.seqNo, slot.item);
            ghost var was := bigger[..];
            bigger[Index(slot.seqNo, want)] := slot;
            assert bigger[..] == was[Index(slot.seqNo, want) := slot];
          }
        }
        BelowEnds(slots[..], contents);
      }
      slots, size := bigger, want;
    }

    /** Store an in-window packet that is not yet buffered; nothing else moves. */
    method Insert(s: nat, pkt: Packet, expected: nat, now: nat)
      requires Valid() && Covers(expected)
      requires expected <= s < expected + cap && s !in contents
      modifies this, slots
      ensures Valid() && Covers(expected)
      ensures contents == old(contents)[s := Item(pkt, now)]
      ensures size >= old(size) && bytes == old(bytes) + |pkt|
      ensures slots == old(slots) || fresh(slots)
    {
      var span := s - expected;
      if slots == null || span >= size {
        GrowToCover(span, expected);
      }
      Fill(s, Item(pkt, now), expected);
    }

    /** Fill the free slot of an in-window number. */
    method Fill(s: nat, item: Item, ghost lo: nat)
      requires Valid() && Covers(lo) && slots != null
      requires lo <= s < lo + size && s !in contents
      modifies this`count, this`bytes, this`contents, slots
      ensures Valid() && Covers(lo)
      ensures contents == old(contents)[s := item] && bytes == old(bytes) + |item.pkt|
    {
      RepresentsInsert(slots[..], contents, lo, s, item);
      TotalInsert(contents, Length, s, item);
      ghost var was := slots[..];
      slots[Index(s, size)] := Held(s, item);
      assert slots[..] == was[Index(s, size) := Held(s, item)];
      count := count + 1;
      bytes := bytes + |item.pkt|;
      contents := contents[s := item];
    }

    /** Empty the slot of a buffered number. */
    method Vacate(s: nat)
      requires Valid() && s in contents
      modifies this`count, this`bytes, this`contents, slots
      ensures Valid() && contents == old(contents) - {s} && old(bytes) == bytes + |old(contents)[s].pkt|
    {
      hide Represents, Total, IsPow2, Index;
      TotalRemove(contents, Length, s);
      RepresentsRemove(slots[..], contents, s);
      ghost var was := slots[..];
      var i := Index(s, size);
      assert was[i] == Held(s, contents[s]);
      var len := |slots[i].item.pkt|;
      slots[i] := Vacant;
      assert slots[..] == was[i := Vacant];
      count := count - 1;
      bytes := bytes - len;
      contents := contents - {s};
    }

    /** The packet in the slot of a number, if it is that number's. */
    method Find(s: nat) returns (r: Option<Item>)
      requires Valid()
      ensures r == if s in contents then Some(contents[s]) else None
    {
      if slots == null {
        return None;
      }
      var slot := slots[Index(s, size)];
      if slot == Vacant || slot.seqNo != s {
        return None;
      }
      return Some(slot.item);
    }

    /** Take `s` out of the ring, if it is there. */
    method Remove(s: nat) returns (r: Option<Item>)
      requires Valid()
      modifies this, slots
      ensures Valid() && slots == old(slots) && size == old(size)
      ensures s in old(contents) ==> r == Some(old(contents)[s]) && old(bytes) == bytes + |r.value.pkt|
      ensures s !in old(contents) ==> r == None && bytes == old(bytes)
      ensures contents == old(contents) - {s}
    {
      hide Valid;
      r := Find(s);
      if r.Some? {
        Vacate(s);
      }
    }

    /** The lowest buffered number, by a bounded scan from `expected`; `expected` itself when empty. */
    method LowestSeq(expected: nat) returns (r: nat)
      requires Valid() && Covers(expected)
      ensures contents == map[] ==> r == expected
      ensures contents != map[] ==> r in contents && forall s :: s in contents ==> r <= s
    {
      if slots == null {
        return expected;
      }
      for i := 0 to size
        invariant forall s :: s in contents ==> expected + i <= s
      {
        r := expected + i;
        var slot := slots[Index(r, size)];
        if slot.Held? && slot.seqNo == r {
          return r;
        }
      }
      return expected;
    }
  }
}
