/**
 * The fixed-capacity circular history behind the performance graphs: a
 * buffer of 100 slots filled with an initial value, a write offset, and a
 * plot that reads the buffer cyclically starting at the offset.
 */
module History {

  /** Number of slots in each history buffer. */
  const Capacity: nat := 100

  datatype Ring<T> = Ring(slots: seq<T>, offset: nat)

  /** The buffer has its fixed size and the offset indexes it. */
  predicate Valid<T>(r: Ring<T>) {
    |r.slots| == Capacity && r.offset < Capacity
  }

  /** A fresh history: every slot holds `fill` and writing starts at slot 0. */
  function Empty<T>(fill: T): (r: Ring<T>)
    ensures Valid(r) && r.offset == 0
    ensures forall i :: 0 <= i < |r.slots| ==> r.slots[i] == fill
  {
    Ring(seq(Capacity, _ => fill), 0)
  }

  /** One sample: written at the offset, then the offset advances modulo the capacity. */
  function Push<T>(r: Ring<T>, v: T): (r': Ring<T>)
    requires Valid(r)
    ensures Valid(r')
    ensures r'.slots[r.offset] == v
    ensures r'.offset == (r.offset + 1) % Capacity
    ensures forall i :: 0 <= i < Capacity && i != r.offset ==> r'.slots[i] == r.slots[i]
  {
    Ring(r.slots[r.offset := v], (r.offset + 1) % Capacity)
  }

  /** What the plot shows: all slots, read cyclically from the offset. */
  function View<T>(r: Ring<T>): (v: seq<T>)
    requires Valid(r)
    ensures |v| == Capacity
    ensures forall k :: 0 <= k < Capacity ==> v[k] == r.slots[(r.offset + k) % Capacity]
  {
    seq(Capacity, k requires 0 <= k < Capacity => r.slots[(r.offset + k) % Capacity])
  }

  /** The plot is a rotation of the buffer: the slots from the offset on, then those before it. */
  lemma ViewIsRotation<T>(r: Ring<T>)
    requires Valid(r)
    ensures View(r) == r.slots[r.offset..] + r.slots[..r.offset]
    ensures multiset(View(r)) == multiset(r.slots)
  {
    var rot := r.slots[r.offset..] + r.slots[..r.offset];
    forall k | 0 <= k < Capacity
      ensures View(r)[k] == rot[k]
    {
      if r.offset + k < Capacity {
        assert (r.offset + k) % Capacity == r.offset + k;
      } else {
        assert (r.offset + k) % Capacity == r.offset + k - Capacity;
      }
    }
    assert r.slots == r.slots[..r.offset] + r.slots[r.offset..];
  }

  /** Index arithmetic of one advance of the offset. */
  lemma AdvanceIndex(o: nat, k: nat)
    requires o < Capacity && k < Capacity
    ensures k < Capacity - 1 ==> ((o + 1) % Capacity + k) % Capacity == (o + (k + 1)) % Capacity
    ensures k == Capacity - 1 ==> ((o + 1) % Capacity + k) % Capacity == o
  {
    if o + 1 == Capacity {
      assert (o + 1) % Capacity == 0;
    } else {
      assert (o + 1) % Capacity == o + 1;
    }
  }

  /** A push drops the oldest shown value and appends the new one. */
  lemma PushShiftsView<T>(r: Ring<T>, v: T)
    requires Valid(r)
    ensures View(Push(r, v)) == View(r)[1..] + [v]
  {
    var pushed := Push(r, v);
    var expected := View(r)[1..] + [v];
    forall k | 0 <= k < Capacity
      ensures View(pushed)[k] == expected[k]
    {
      AdvanceIndex(r.offset, k);
      if k < Capacity - 1 {
        assert expected[k] == View(r)[k + 1];
      }
    }
  }

  /** Pushing a sequence of samples, oldest first. */
  function PushAll<T>(r: Ring<T>, xs: seq<T>): (r': Ring<T>)
    requires Valid(r)
    ensures Valid(r')
  {
    if xs == [] then r
    else Push(PushAll(r, xs[..|xs| - 1]), xs[|xs| - 1])
  }

  /** After any pushes the plot shows the last 100 values of the old view followed by the pushed samples. */
  lemma {:induction false} ViewAfterPushes<T>(r: Ring<T>, xs: seq<T>)
    requires Valid(r)
    ensures View(PushAll(r, xs)) == (View(r) + xs)[|xs|..]
  {
    if xs != [] {
      var init := xs[..|xs| - 1];
      var x := xs[|xs| - 1];
      ViewAfterPushes(r, init);
      PushShiftsView(PushAll(r, init), x);
      assert (View(r) + init)[|init|..][1..] + [x] == (View(r) + xs)[|xs|..];
    }
  }

  /** The offset counts pushes modulo the capacity. */
  lemma {:induction false} OffsetCountsPushes<T>(fill: T, xs: seq<T>)
    ensures PushAll(Empty(fill), xs).offset == |xs| % Capacity
  {
    if xs != [] {
      OffsetCountsPushes(fill, xs[..|xs| - 1]);
    }
  }

  /** Once at least 100 samples were pushed, the plot shows exactly the last 100, oldest first. */
  lemma LastWindowOldestFirst<T>(fill: T, xs: seq<T>)
    requires |xs| >= Capacity
    ensures View(PushAll(Empty(fill), xs)) == xs[|xs| - Capacity..]
  {
    ViewAfterPushes(Empty(fill), xs);
    TailOfLongSuffix(View(Empty<T>(fill)), xs);
  }

  lemma TailOfLongSuffix<T>(e: seq<T>, xs: seq<T>)
    requires |e| <= |xs|
    ensures (e + xs)[|xs|..] == xs[|xs| - |e|..]
  {
    var w := (e + xs)[|xs|..];
    forall k | 0 <= k < |e|
      ensures w[k] == xs[|xs| - |e| + k]
    {
      assert w[k] == (e + xs)[|xs| + k];
    }
  }

  /** Before 100 samples, the plot shows the fill value padded in front of every sample pushed so far. */
  lemma PartialWindow<T>(fill: T, xs: seq<T>)
    requires |xs| < Capacity
    ensures var v := View(PushAll(Empty(fill), xs));
      && v[Capacity - |xs|..] == xs
      && forall k :: 0 <= k < Capacity - |xs| ==> v[k] == fill
  {
    ViewAfterPushes(Empty(fill), xs);
    var e := View(Empty<T>(fill));
    var v := (e + xs)[|xs|..];
    assert v[Capacity - |xs|..] == xs;
    forall k | 0 <= k < Capacity - |xs|
      ensures v[k] == fill
    {
      assert v[k] == e[k + |xs|];
    }
  }
}
