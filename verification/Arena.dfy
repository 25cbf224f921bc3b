/**
 * The pool of fixed-size payload buffers.  A buffer is an index into `mem`; a slice
 * is a buffer together with the length in use.
 */
module Arenas {
  import opened Bytes

  const GROW_BY: nat := 128

  datatype Slice = Slice(buf: nat, len: nat)

  datatype Arena = Arena(slot: nat, mem: seq<Bytes>, free: seq<nat>) {
    /** Free buffers exist and have the pool's size. */
    predicate Sound() {
      forall i :: 0 <= i < |free| ==> free[i] < |mem| && |mem[free[i]]| == slot
    }

    predicate Fits(s: Slice) {
      s.buf < |mem| && s.len <= |mem[s.buf]|
    }

    function Read(s: Slice): Bytes
      requires Fits(s)
    {
      mem[s.buf][..s.len]
    }

    predicate Pooled(s: Slice) {
      s.buf < |mem| && |mem[s.buf]| == slot
    }
  }

  function Zeros(n: nat): Bytes {
    seq(n, _ => 0)
  }

  function Grow(a: Arena, n: nat): Arena {
    a.(mem := a.mem + seq(n, _ => Zeros(a.slot)), free := a.free + seq(n, i => |a.mem| + i))
  }

  datatype Got = Got(a: Arena, s: Slice)

  /** A buffer for n bytes: the last free one, or one of its own when n is over the pool's size. */
  function Get(a: Arena, n: nat): (g: Got)
    requires a.Sound()
    ensures g.a.slot == a.slot && g.a.Sound() && g.a.Fits(g.s) && g.s.len == n
    ensures a.mem <= g.a.mem
  {
    if n > a.slot then Got(a.(mem := a.mem + [Zeros(n)]), Slice(|a.mem|, n))
    else
      var b := if a.free == [] then Grow(a, GROW_BY) else a;
      Got(b.(free := b.free[..|b.free| - 1]), Slice(b.free[|b.free| - 1], n))
  }

  /** Copies payload to the start of a buffer. */
  function Fill(a: Arena, s: Slice, payload: Bytes): (b: Arena)
    requires a.Fits(s) && |payload| == s.len
    ensures b.Fits(s) && b.Read(s) == payload && b.slot == a.slot && b.free == a.free
    ensures |b.mem| == |a.mem| && (forall i :: 0 <= i < |a.mem| ==> |b.mem[i]| == |a.mem[i]|)
    ensures forall i :: 0 <= i < |a.mem| && i != s.buf ==> b.mem[i] == a.mem[i]
  {
    a.(mem := a.mem[s.buf := payload + a.mem[s.buf][s.len..]])
  }

  function Store(a: Arena, payload: Bytes): (g: Got)
    requires a.Sound()
    ensures g.a.Sound() && g.a.slot == a.slot && g.a.Fits(g.s) && g.a.Read(g.s) == payload && g.s.len == |payload|
  {
    var g := Get(a, |payload|);
    Got(Fill(g.a, g.s, payload), g.s)
  }

  /** Returns a buffer to the pool; one of another size is left to the garbage collector. */
  function Put(a: Arena, s: Slice): Arena {
    if a.Pooled(s) then a.(free := a.free + [s.buf]) else a
  }

  function PutAll(a: Arena, ss: seq<Slice>): Arena {
    if ss == [] then a else Put(PutAll(a, ss[..|ss| - 1]), ss[|ss| - 1])
  }

  function Bufs(ss: seq<Slice>): seq<nat> {
    seq(|ss|, i requires 0 <= i < |ss| => ss[i].buf)
  }

  /** Storing moves one buffer out of the free list, or creates buffers; nothing in use is written. */
  lemma StoreTakes(a: Arena, payload: Bytes, x: nat)
    requires a.Sound()
    ensures var g := Store(a, payload);
            && |a.mem| <= |g.a.mem|
            && (g.s.buf < |a.mem| ==> g.s.buf in a.free)
            && (x < |a.mem| ==> |g.a.mem[x]| == |a.mem[x]| && (x != g.s.buf ==> g.a.mem[x] == a.mem[x]))
            && multiset(g.a.free)[x] + (if x == g.s.buf then 1 else 0) ==
               multiset(a.free)[x] + (if |a.mem| <= x < |g.a.mem| then 1 else 0)
  {
    hide Zeros, Fill, Get;
    GetTakes(a, |payload|, x);
  }

  lemma GetTakes(a: Arena, n: nat, x: nat)
    requires a.Sound()
    ensures var g := Get(a, n);
            && (g.s.buf < |a.mem| ==> g.s.buf in a.free)
            && multiset(g.a.free)[x] + (if x == g.s.buf then 1 else 0) ==
               multiset(a.free)[x] + (if |a.mem| <= x < |g.a.mem| then 1 else 0)
  {
    hide Zeros;
    if n <= a.slot {
      if a.free == [] {
        hide Grow;
        GrowCount(a, x);
        LastOut(Grow(a, GROW_BY).free, x);
      } else {
        LastOut(a.free, x);
      }
    }
  }

  lemma GrowCount(a: Arena, x: nat)
    requires a.free == []
    ensures var b := Grow(a, GROW_BY);
            && |b.mem| == |a.mem| + GROW_BY && |b.free| == GROW_BY && (forall i :: 0 <= i < |b.free| ==> |a.mem| <= b.free[i])
            && multiset(b.free)[x] == if |a.mem| <= x < |b.mem| then 1 else 0
  {
    hide Zeros;
    RangeCount(|a.mem|, GROW_BY, x);
    assert Grow(a, GROW_BY).free == seq(GROW_BY, i => |a.mem| + i);
  }

  lemma LastOut(s: seq<nat>, x: nat)
    requires s != []
    ensures multiset(s[..|s| - 1])[x] + (if x == s[|s| - 1] then 1 else 0) == multiset(s)[x]
  {
    assert s == s[..|s| - 1] + [s[|s| - 1]];
  }

  lemma {:induction false} RangeCount(from: nat, n: nat, x: nat)
    ensures multiset(seq(n, i => from + i))[x] == if from <= x < from + n then 1 else 0
  {
    if n > 0 {
      RangeCount(from, n - 1, x);
      assert seq(n, i => from + i) == seq(n - 1, i => from + i) + [from + n - 1];
    }
  }

  lemma {:induction false} PutAllKeeps(a: Arena, ss: seq<Slice>)
    ensures PutAll(a, ss).mem == a.mem && PutAll(a, ss).slot == a.slot
    ensures a.Sound() ==> PutAll(a, ss).Sound()
  {
    if ss != [] {
      PutAllKeeps(a, ss[..|ss| - 1]);
    }
  }

  /** Returning a list of slices frees each pooled buffer exactly as often as it is listed. */
  lemma {:induction false} PutAllFrees(a: Arena, ss: seq<Slice>, x: nat)
    ensures multiset(PutAll(a, ss).free)[x] ==
              multiset(a.free)[x] + (if a.Pooled(Slice(x, 0)) then multiset(Bufs(ss))[x] else 0)
  {
    if ss != [] {
      var n := |ss| - 1;
      PutAllKeeps(a, ss[..n]);
      PutAllFrees(a, ss[..n], x);
      assert Bufs(ss)[..n] == Bufs(ss[..n]);
      LastOut(Bufs(ss), x);
    }
  }

  class RetransmitArena {
    const slotSize: nat
    var mem: seq<Bytes>
    var free: seq<nat>

    ghost function View(): Arena
      reads this
    {
      Arena(slotSize, mem, free)
    }

    constructor (slotSize: nat)
      ensures View() == Arena(slotSize, [], [])
    {
      this.slotSize := slotSize;
      mem, free := [], [];
    }

    method GrowPool()
      modifies this
      ensures View() == Grow(old(View()), GROW_BY)
    {
      ghost var a := View();
      for i := 0 to GROW_BY
        invariant View() == Grow(a, i)
      {
        free := free + [|mem|];
        mem := mem + [Zeros(slotSize)];
        assert View().mem == Grow(a, i + 1).mem;
        assert View().free == Grow(a, i + 1).free;
      }
    }

    method Take(n: nat) returns (s: Slice)
      requires View().Sound()
      modifies this
      ensures Got(View(), s) == Get(old(View()), n)
    {
      if n > slotSize {
        s := Slice(|mem|, n);
        mem := mem + [Zeros(n)];
        return;
      }
      if |free| == 0 {
        GrowPool();
      }
      var l := |free|;
      s := Slice(free[l - 1], n);
      free := free[..l - 1];
    }

    method Copy(s: Slice, payload: Bytes)
      requires View().Fits(s) && |payload| == s.len
      modifies this
      ensures View() == Fill(old(View()), s, payload)
    {
      mem := mem[s.buf := payload + mem[s.buf][s.len..]];
    }

    method TakeCopy(payload: Bytes) returns (s: Slice)
      requires View().Sound()
      modifies this
      ensures Got(View(), s) == Store(old(View()), payload)
    {
      s := Take(|payload|);
      Copy(s, payload);
    }

    method GiveBack(s: Slice)
      modifies this
      ensures View() == Put(old(View()), s)
    {
      if s.buf >= |mem| || |mem[s.buf]| != slotSize {
        return;
      }
      free := free + [s.buf];
    }
  }
}
