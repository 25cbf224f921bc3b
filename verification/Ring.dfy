/** The receive ring: a wrapping, reallocating byte buffer that refines a FIFO byte queue. */
module Rings {
  import opened Bytes

  /** The index arithmetic of the ring: an index wraps at most once. */
  method Wrap(x: nat, n: nat) returns (r: nat)
    requires 0 < n && x < 2 * n
    ensures r == if x < n then x else x - n
  {
    r := x % n;
    assert x == n * (x / n) + r;
    if x < n {
      assert x / n == 0;
    } else {
      assert x / n == 1;
    }
  }

  /** Position x of a ring of n slots. */
  function Slot(n: nat, x: nat): nat {
    if x < n then x else x - n
  }

  lemma SlotAdd(n: nat, x: nat, k: nat)
    requires x < 2 * n && k <= n && x + k < 2 * n
    ensures var t := Slot(n, x);
            t < n && Slot(n, x + k) == if t + k < n then t + k else t + k - n
  {
  }

  /** The i-th byte of d from position head on, going around the end. */
  function AtSlot(d: Bytes, head: nat, i: nat): byte
    requires head < |d| && i < |d|
  {
    d[Slot(|d|, head + i)]
  }

  /** The len bytes of d from position head on. */
  ghost function Around(d: Bytes, head: nat, len: nat): (s: Bytes)
    requires head < |d| && len <= |d|
    ensures |s| == len
    ensures forall i :: 0 <= i < len ==> s[i] == AtSlot(d, head, i)
  {
    seq(len, i requires 0 <= i < len => AtSlot(d, head, i))
  }

  lemma AroundSplit(d: Bytes, head: nat, len: nat, k: nat)
    requires head < |d| && k <= len <= |d|
    ensures Around(d, head, len)[..k] == Around(d, head, k)
    ensures Slot(|d|, head + k) < |d|
    ensures Around(d, head, len)[k..] == Around(d, Slot(|d|, head + k), len - k)
  {
    var s, t := Around(d, head, len), Around(d, Slot(|d|, head + k), len - k);
    forall i | 0 <= i < len - k ensures s[k..][i] == t[i] {
      assert s[k + i] == AtSlot(d, head, k + i);
      assert t[i] == AtSlot(d, Slot(|d|, head + k), i);
    }
  }

  /** A wrapped stretch is the end of the buffer and then its beginning. */
  lemma AroundPieces(d: Bytes, head: nat, k: nat)
    requires head < |d| && k <= |d|
    ensures Around(d, head, k) == if head + k <= |d| then d[head..head + k] else d[head..] + d[..head + k - |d|]
  {
    var s := Around(d, head, k);
    var t := if head + k <= |d| then d[head..head + k] else d[head..] + d[..head + k - |d|];
    forall i | 0 <= i < k ensures s[i] == t[i] {
      assert s[i] == AtSlot(d, head, i);
    }
  }

  lemma AroundAppend(d: Bytes, e: Bytes, head: nat, len: nat, data: Bytes)
    requires head < |d| == |e| && len + |data| <= |d|
    requires forall i :: 0 <= i < len ==> AtSlot(e, head, i) == AtSlot(d, head, i)
    requires forall i :: 0 <= i < |data| ==> AtSlot(e, head, len + i) == data[i]
    ensures Around(e, head, len + |data|) == Around(d, head, len) + data
  {
    var s, t := Around(e, head, len + |data|), Around(d, head, len) + data;
    forall i | 0 <= i < len + |data| ensures s[i] == t[i] {
      if len <= i {
        assert t[i] == data[i - len];
        assert AtSlot(e, head, len + (i - len)) == data[i - len];
      }
    }
  }

  /** Copying at the tail, in one piece or in two, writes the slots after the contents and no others. */
  lemma CopiedBehind(d: Bytes, e: Bytes, head: nat, len: nat, data: Bytes)
    requires head < |d| == |e| && len + |data| <= |d|
    requires var tail := Slot(|d|, head + len);
             e == if tail + |data| <= |d| then d[..tail] + data + d[tail + |data|..]
                  else var first := |d| - tail; data[first..] + d[|data| - first..tail] + data[..first]
    ensures forall i :: 0 <= i < len ==> AtSlot(e, head, i) == AtSlot(d, head, i)
    ensures forall i :: 0 <= i < |data| ==> AtSlot(e, head, len + i) == data[i]
  {
  }

  class Ring {
    var buf: array<byte>
    var head: nat   // next read position
    var tail: nat   // next write position
    var len: nat    // buffered bytes

    ghost predicate Valid()
      reads this
    {
      && head < buf.Length
      && len <= buf.Length
      && tail == Slot(buf.Length, head + len)
    }

    /** The buffered bytes, oldest first. */
    ghost function Contents(): (s: Bytes)
      reads this, buf
      requires Valid()
      ensures |s| == len
    {
      Around(buf[..], head, len)
    }

    constructor (cap: nat)
      requires 0 < cap
      ensures Valid() && fresh(buf) && buf.Length == cap && Contents() == []
    {
      buf := new byte[cap];
      head, tail, len := 0, 0, 0;
    }

    /** Copies data into the buffer from position at on. */
    method CopyIn(at: nat, data: Bytes)
      requires at + |data| <= buf.Length
      modifies buf
      ensures buf[..] == old(buf[..at]) + data + old(buf[at + |data|..])
    {
      var i := 0;
      while i < |data|
        invariant i <= |data|
        invariant forall j :: 0 <= j < i ==> buf[at + j] == data[j]
        invariant forall j :: 0 <= j < at || at + i <= j < buf.Length ==> buf[j] == old(buf[j])
      {
        buf[at + i] := data[i];
        i := i + 1;
      }
    }

    /** Copies data behind the contents, in two pieces when it goes around the end. */
    method CopyBehind(data: Bytes)
      requires tail < buf.Length && |data| <= buf.Length
      modifies buf
      ensures buf[..] == if tail + |data| <= buf.Length then old(buf[..tail]) + data + old(buf[tail + |data|..])
                         else var first := buf.Length - tail;
                              data[first..] + old(buf[|data| - first..tail]) + data[..first]
    {
      var cap := buf.Length;
      var end := tail + |data|;
      if end <= cap {
        CopyIn(tail, data);
      } else {
        var first := cap - tail;
        CopyIn(tail, data[..first]);
        CopyIn(0, data[first..]);
      }
    }

    /** Appends data; the caller has checked that it fits. */
    method Write(data: Bytes)
      requires Valid() && len + |data| <= buf.Length
      modifies this, buf
      ensures Valid() && buf == old(buf)
      ensures Contents() == old(Contents()) + data
    {
      hide Around, AtSlot, Slot;
      ghost var d := buf[..];
      SlotAdd(buf.Length, head + len, |data|);
      CopyBehind(data);
      CopiedBehind(d, buf[..], head, len, data);
      AroundAppend(d, buf[..], head, len, data);
      tail := Wrap(tail + |data|, buf.Length);
      len := len + |data|;
    }

    /** Takes at most n bytes from the front. */
    method Read(n: nat) returns (p: Bytes)
      requires Valid()
      modifies this
      ensures Valid() && buf == old(buf)
      ensures var k := Min(n, old(len)); p == old(Contents())[..k] && Contents() == old(Contents())[k..]
    {
      hide Around;
      var cap, k := buf.Length, Min(n, len);
      var end := head + k;
      if end <= cap {
        p := buf[head..end];
      } else {
        p := buf[head..] + buf[..end - cap];
      }
      AroundSplit(buf[..], head, len, k);
      AroundPieces(buf[..], head, k);
      head := Wrap(head + k, cap);
      len := len - k;
    }

    method Clear()
      requires Valid()
      modifies this
      ensures Valid() && buf == old(buf) && Contents() == []
    {
      head, tail, len := 0, 0, 0;
    }

    /** Linearizes the contents into a new buffer. */
    method Realloc(newCap: nat)
      requires Valid() && len <= newCap && 0 < newCap
      modifies this
      ensures Valid() && fresh(buf) && buf.Length == newCap
      ensures Contents() == old(Contents())
    {
      hide Around;
      var n := len;
      var data := Read(n);
      buf := new byte[newCap];
      head, tail, len := 0, 0, 0;
      CopyIn(0, data);
      AroundPieces(buf[..], 0, n);
      tail := Wrap(n, newCap);
      len := n;
    }
  }
}
