/** A queue in a ring of slots that grows when it is full. */
module RingQueue {
  datatype Slot<T> = Nil | Elem(value: T)

  // The slot i places on, for places less than two rounds away.
  function Wrap(i: nat, capacity: nat): nat {
    if i < capacity then i else i - capacity
  }

  lemma WrapIsModulo(i: nat, capacity: nat)
    requires 0 < capacity && i < 2 * capacity
    ensures i % capacity == Wrap(i, capacity)
  {
    if capacity <= i {
      assert i == capacity + (i - capacity);
    }
  }

  // The slot k places after popi.
  function At<T>(slots: seq<Slot<T>>, popi: nat, k: nat): Slot<T>
    requires popi < |slots| && k < |slots|
  {
    slots[Wrap(popi + k, |slots|)]
  }

  // The ring of slots holds these elements from popi on, and nothing elsewhere.
  ghost predicate Holds<T>(slots: seq<Slot<T>>, popi: nat, contents: seq<Slot<T>>) {
    && |contents| <= |slots| && (popi < |slots| || popi == |slots| == 0)
    && (forall k: nat :: k < |slots| ==> At(slots, popi, k) == if k < |contents| then contents[k] else Nil)
  }

  lemma HoldsPush<T>(slots: seq<Slot<T>>, popi: nat, contents: seq<Slot<T>>, elem: Slot<T>)
    requires Holds(slots, popi, contents) && |contents| < |slots|
    ensures Holds(slots[Wrap(popi + |contents|, |slots|) := elem], popi, contents + [elem])
  {
    var after, longer := slots[Wrap(popi + |contents|, |slots|) := elem], contents + [elem];
    forall k: nat | k < |slots| ensures At(after, popi, k) == if k < |longer| then longer[k] else Nil {
      assert At(slots, popi, k) == if k < |contents| then contents[k] else Nil;
    }
  }

  lemma HoldsPop<T>(slots: seq<Slot<T>>, popi: nat, contents: seq<Slot<T>>)
    requires Holds(slots, popi, contents) && contents != []
    ensures slots[popi] == contents[0]
    ensures Holds(slots[popi := Nil], Wrap(popi + 1, |slots|), contents[1..])
  {
    var c := |slots|;
    var after, next, rest := slots[popi := Nil], Wrap(popi + 1, c), contents[1..];
    assert At(slots, popi, 0) == contents[0];
    forall k: nat | k < c ensures At(after, next, k) == if k < |rest| then rest[k] else Nil {
      if k + 1 < c {
        assert At(slots, popi, k + 1) == if k + 1 < |contents| then contents[k + 1] else Nil;
      }
    }
  }

  // A full ring opened: the slots before popi stay at the front, those from it on move to the end.
  lemma HoldsExpanded<T>(slots: seq<Slot<T>>, popi: nat, contents: seq<Slot<T>>, room: seq<Slot<T>>)
    requires Holds(slots, popi, contents) && |contents| == |slots| && |room| > 0
    requires forall k :: 0 <= k < |room| ==> room[k] == Nil
    ensures popi == 0 ==> Holds(slots + room, 0, contents)
    ensures popi > 0 ==> Holds(slots[..popi] + room + slots[popi..], popi + |room|, contents)
  {
    var c := |slots|;
    var wide, at := slots[..popi] + room + slots[popi..], popi + |room|;
    if popi == 0 {
      wide, at := slots + room, 0;
    }
    forall k: nat | k < |wide| ensures At(wide, at, k) == if k < c then contents[k] else Nil {
      assert k < c ==> At(slots, popi, k) == contents[k];
    }
  }

  ghost function Empty<T>(n: nat): (r: seq<Slot<T>>)
    ensures |r| == n && forall k :: 0 <= k < n ==> r[k] == Nil
  {
    seq(n, _ => Nil)
  }

  lemma EmptyParts<T>(n: nat, from: nat, to: nat)
    requires from <= to <= n
    ensures Empty<T>(n)[from..to] == Empty<T>(to - from)
  {
  }

  function Grown(capacity: nat): nat {
    if capacity == 0 then 8 else if capacity < 1024 then capacity * 2 else capacity + capacity / 4
  }

  // The sizes of a queue that is never emptied.
  function Sizes(expansions: nat): nat {
    if expansions == 0 then 0 else Grown(Sizes(expansions - 1))
  }

  // It starts with 8 slots, doubles up to 1024, and grows by a quarter from there on.
  lemma {:induction false} SizesOf(k: nat)
    ensures Sizes(1) == 8 && Sizes(8) == 1024 && Sizes(9) == 1280 && Sizes(10) == 1600
    ensures 1 <= k <= 8 ==> Sizes(k) == Doubled(8, k - 1)
    ensures k >= 8 ==> Sizes(k) >= 1024 && Sizes(k + 1) == Sizes(k) + Sizes(k) / 4
    decreases k
  {
    assert Sizes(4) == 64;
    assert Sizes(8) == 1024;
    if k > 1 {
      SizesOf(k - 1);
    }
    if 1 < k <= 8 {
      DoubledOrder(8, k - 1);
    }
  }

  function Doubled(n: nat, k: nat): nat {
    if k == 0 then n else 2 * Doubled(n, k - 1)
  }

  lemma {:induction false} DoubledOrder(n: nat, k: nat)
    requires n == 8 && k <= 7
    ensures Doubled(n, k) <= 1024 && (k < 7 ==> Doubled(n, k) < 1024)
  {
    assert Doubled(8, 3) == 64;
    assert Doubled(8, 7) == 1024;
  }

  // Six credits for each push pay for copying every element when the ring grows: a full ring
  // has its own size saved up.
  ghost predicate Paid(pushes: nat, copied: nat, capacity: nat, n: nat) {
    && copied <= 6 * pushes
    && capacity - 6 * (capacity - n) <= 6 * pushes - copied
    && (capacity == 0 || capacity >= 8)
  }

  lemma PaidExpanded(pushes: nat, copied: nat, capacity: nat)
    requires Paid(pushes, copied, capacity, capacity)
    ensures Paid(pushes, copied + capacity, Grown(capacity), capacity)
  {
  }

  class Queue<T> {
    var elems: array<Slot<T>>
    var nelems: nat
    var popi: nat
    var pushi: nat
    ghost var contents: seq<Slot<T>>
    // How many elements were ever pushed, and copied in expanding.
    ghost var pushes: nat
    ghost var copied: nat

    ghost predicate Valid()
      reads this, elems
    {
      && Holds(elems[..], popi, contents) && nelems == |contents|
      && pushi == Wrap(popi + nelems, elems.Length)
      && Paid(pushes, copied, elems.Length, nelems)
    }

    constructor ()
      ensures Valid() && contents == [] && pushes == 0 && copied == 0 && fresh(elems)
    {
      elems := new Slot<T>[0];
      nelems, popi, pushi, contents, pushes, copied := 0, 0, 0, [], 0, 0;
    }

    method Len() returns (n: nat)
      requires Valid()
      ensures n == |contents|
    {
      n := nelems;
    }

    method Push(elem: Slot<T>)
      requires Valid()
      modifies this, elems
      ensures Valid() && contents == old(contents) + [elem]
      ensures elems == old(elems) || fresh(elems)
      ensures pushes == old(pushes) + 1 && copied <= 6 * pushes
    {
      hide Holds;
      HeldBounds(elems[..], popi, contents);
      if nelems == elems.Length {
        Expand();
        HeldBounds(elems[..], popi, contents);
      }
      HoldsPush(elems[..], popi, contents, elem);
      WrapIsModulo(pushi + 1, elems.Length);
      elems[pushi] := elem;
      nelems := nelems + 1;
      pushi := (pushi + 1) % elems.Length;
      contents, pushes := contents + [elem], pushes + 1;
    }

    // An empty queue answers nil.
    method Pop() returns (elem: Slot<T>)
      requires Valid()
      modifies this, elems
      ensures Valid() && elems == old(elems) && pushes == old(pushes) && copied == old(copied)
      ensures if old(contents) == [] then elem == Nil && contents == []
        else elem == old(contents)[0] && contents == old(contents)[1..]
    {
      hide Holds, Paid;
      HeldBounds(elems[..], popi, contents);
      if nelems == 0 {
        return Nil;
      }
      HoldsPop(elems[..], popi, contents);
      PaidPop(pushes, copied, elems.Length, nelems);
      WrapIsModulo(popi + 1, elems.Length);
      elem := elems[popi];
      elems[popi] := Nil;
      nelems := nelems - 1;
      popi := (popi + 1) % elems.Length;
      contents := contents[1..];
    }

    // Grows a full ring; the old slots are cleared.
    method Expand()
      requires Valid() && nelems == elems.Length
      modifies this, elems
      ensures Valid() && fresh(elems) && elems.Length == Grown(old(elems.Length)) > nelems
      ensures contents == old(contents) && pushes == old(pushes) && copied == old(copied) + old(elems.Length)
      ensures forall k :: 0 <= k < old(elems).Length ==> old(elems)[k] == Nil
    {
      hide Holds, Paid;
      var curcap := elems.Length;
      HeldBounds(elems[..], popi, contents);
      PaidExpanded(pushes, copied, curcap);
      var newcap := Grown(curcap);
      ghost var slots, room := elems[..], Empty(newcap - curcap);
      HoldsExpanded(slots, popi, contents, room);
      var wider := new Slot<T>[newcap](_ => Nil);
      assert wider[..] == Empty(newcap);
      if popi == 0 {
        CopyTo(wider, 0, elems, 0, curcap);
        EmptyParts<T>(newcap, curcap, newcap);
        assert wider[..] == slots + room;
        pushi := curcap;
      } else {
        var newpopi := newcap - (curcap - popi);
        CopyParts(wider, elems, popi, newpopi);
        popi := newpopi;
      }
      ClearOut(elems);
      elems := wider;
      copied := copied + curcap;
    }

    // The two copies that leave the new room between the slots before popi and those from it on.
    static method CopyParts(wider: array<Slot<T>>, elems: array<Slot<T>>, popi: nat, newpopi: nat)
      requires wider != elems && popi < elems.Length <= wider.Length && newpopi == wider.Length - (elems.Length - popi)
      requires wider[..] == Empty(wider.Length)
      modifies wider
      ensures wider[..] == elems[..popi] + Empty(wider.Length - elems.Length) + elems[popi..]
    {
      EmptyParts<T>(wider.Length, popi, newpopi);
      ghost var front := elems[..popi] + Empty(wider.Length)[popi..newpopi];
      CopyTo(wider, 0, elems, 0, popi);
      assert wider[..newpopi] == front;
      CopyTo(wider, newpopi, elems, popi, elems.Length);
    }

    static method ClearOut(slots: array<Slot<T>>)
      modifies slots
      ensures forall k :: 0 <= k < slots.Length ==> slots[k] == Nil
    {
      for i := 0 to slots.Length
        invariant forall k :: 0 <= k < i ==> slots[k] == Nil
      {
        slots[i] := Nil;
      }
    }

    // copy of the slots lo..hi of one array to another.
    static method CopyTo(dst: array<Slot<T>>, at: nat, src: array<Slot<T>>, lo: nat, hi: nat)
      requires dst != src && lo <= hi <= src.Length && at + (hi - lo) <= dst.Length
      modifies dst
      ensures dst[..] == old(dst[..at]) + src[lo..hi] + old(dst[at + (hi - lo)..])
    {
      for i := lo to hi
        invariant dst[..] == old(dst[..at]) + src[lo..i] + old(dst[at + (i - lo)..])
      {
        dst[at + (i - lo)] := src[i];
      }
    }
  }

  lemma HeldBounds<T>(slots: seq<Slot<T>>, popi: nat, contents: seq<Slot<T>>)
    requires Holds(slots, popi, contents)
    ensures |contents| <= |slots| && (popi < |slots| || popi == |slots| == 0)
  {
  }

  lemma PaidPop(pushes: nat, copied: nat, capacity: nat, n: nat)
    requires Paid(pushes, copied, capacity, n) && n > 0
    ensures Paid(pushes, copied, capacity, n - 1)
  {
  }
}
