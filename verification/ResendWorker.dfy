/**
 * The resend work queue of a connection, the NACK handler that feeds it and the worker
 * that serves it.  The loops are shown to be schedules of the outbox machine.
 */
module ResendWorker {
  import opened Bytes
  import opened Arenas
  import opened Outstanding
  import opened Outbox
  import opened Retransmit

  const COMPACT_MIN := 1024
  const STUBBORN := 2        // from this attempt on a resend goes out twice

  // --- what the loops compute ---

  function NackAll(q: Queue, stream: nat, seqs: seq<nat>, minAge: int, now: int): Scan {
    if seqs == [] then Scan(q, [])
    else
      var n := |seqs| - 1;
      var s := NackAll(q, stream, seqs[..n], minAge, now);
      var r := Request(s.q, (stream, seqs[n]), minAge, now);
      Scan(r.q, if r.ok then s.requests + [(stream, seqs[n])] else s.requests)
  }

  datatype Resent = Resent(key: Key, ftype: nat, payload: Bytes)

  datatype Served = Served(q: Queue, out: seq<Resent>)

  function Copies(x: Resent, retries: nat): seq<Resent> {
    if retries >= STUBBORN then [x, x] else [x]
  }

  /** One request: revalidate, send the copy once or twice, give the copy back. */
  function ServeOne(q: Queue, k: Key, now: int): Served
    requires Sized(q)
  {
    match Take(q, k, now)
    case NotTaken => Served(q, [])
    case Taken(t, copy) =>
      Served(t.(arena := Put(t.arena, copy.data)), Copies(Resent(k, copy.ftype, t.arena.Read(copy.data)), copy.retries))
  }

  lemma ServeOneKeeps(q: Queue, k: Key, now: int)
    requires Sized(q)
    ensures Sized(ServeOne(q, k, now).q)
  {
    hide Store;
    TakeKeeps(q, k, now);
  }

  /** What serving one request puts on the wire: if it is live, the entry's payload, once the first time and then twice. */
  lemma ServeOneSends(q: Queue, k: Key, now: int)
    requires Sized(q)
    ensures var i, out := Pos(q.items, k), ServeOne(q, k, now).out;
            if i < |q.items| && q.items[i].queued
            then
              && |out| == (if q.items[i].retries == 0 then 1 else 2)
              && forall x :: x in out ==> x == Resent(k, q.items[i].ftype, q.arena.Read(q.items[i].data))
            else out == []
  {
    hide Get, Fill;
  }

  // --- what a NACK volley asks for ---

  /** The frame is outstanding, no request for it is waiting, and it was not sent less than minAge ago. */
  predicate Askable(items: seq<Item>, k: Key, minAge: int, now: int) {
    exists i :: 0 <= i < |items| && items[i].key == k && !items[i].queued && (minAge <= 0 || minAge <= now - items[i].sentAt)
  }

  lemma RequestExact(q: Queue, k: Key, minAge: int, now: int)
    requires Unique(q.items)
    ensures var r := Request(q, k, minAge, now);
            && (r.ok <==> Askable(q.items, k, minAge, now)) && Unique(r.q.items)
            && forall j: Key :: Askable(r.q.items, j, minAge, now) <==> Askable(q.items, j, minAge, now) && j != k
  {
    var i := Pos(q.items, k);
    var items := Request(q, k, minAge, now).q.items;
    forall j: Key ensures Askable(items, j, minAge, now) <==> Askable(q.items, j, minAge, now) && j != k {
      if Askable(items, j, minAge, now) {
        var n :| 0 <= n < |items| && items[n].key == j && !items[n].queued && (minAge <= 0 || minAge <= now - items[n].sentAt);
        assert q.items[n] == items[n];
      }
      if Askable(q.items, j, minAge, now) && j != k {
        var n :| 0 <= n < |q.items| && q.items[n].key == j && !q.items[n].queued && (minAge <= 0 || minAge <= now - q.items[n].sentAt);
        assert q.items[n] == items[n];
      }
    }
  }

  /**
   * A volley asks for exactly the listed frames that may be asked for, each once however often it is
   * listed, and leaves none of them to be asked for again.
   */
  lemma {:induction false} VolleyExact(q: Queue, stream: nat, seqs: seq<nat>, minAge: int, now: int)
    requires Unique(q.items)
    ensures var v := NackAll(q, stream, seqs, minAge, now);
            && Unique(v.q.items)
            && (forall k: Key :: k in v.requests <==> k.0 == stream && k.1 in seqs && Askable(q.items, k, minAge, now))
            && (forall i, j :: 0 <= i < j < |v.requests| ==> v.requests[i] != v.requests[j])
            && (forall k: Key :: Askable(v.q.items, k, minAge, now) <==> Askable(q.items, k, minAge, now) && k !in v.requests)
  {
    hide Askable, Request, Unique;
    if seqs != [] {
      var n := |seqs| - 1;
      assert seqs == seqs[..n] + [seqs[n]];
      VolleyExact(q, stream, seqs[..n], minAge, now);
      RequestExact(NackAll(q, stream, seqs[..n], minAge, now).q, (stream, seqs[n]), minAge, now);
    }
  }

  /** A frame that was just resent is left alone by every volley of the next minAge. */
  lemma JustResent(q: Queue, k: Key, now: int, stream: nat, seqs: seq<nat>, minAge: int, later: int)
    requires Sized(q) && Unique(q.items) && Take(q, k, now).Taken? && 0 < minAge && later - now < minAge
    ensures k !in NackAll(Take(q, k, now).q, stream, seqs, minAge, later).requests
  {
    var t := Take(q, k, now).q;
    TakenLast(q, k, now);
    VolleyExact(t, stream, seqs, minAge, later);
    assert q.items[Pos(q.items, k)] in q.items;
  }

  /** A resend restamps and counts its own frame, which joins the end of the list, and changes no other. */
  lemma TakenLast(q: Queue, k: Key, now: int)
    requires Sized(q) && Unique(q.items) && Take(q, k, now).Taken?
    ensures var t := Take(q, k, now).q;
            && Unique(t.items) && t.items != [] && t.items[|t.items| - 1].key == k
            && (forall x, y :: x in t.items && y in q.items && x.key == y.key == k ==>
                  x == y.(queued := false, sentAt := now, retries := y.retries + 1))
            && (forall x: Item :: x.key != k ==> (x in t.items <==> x in q.items))
  {
    hide Store, RemoveAt;
    var i := Pos(q.items, k);
    RestOf(q.items, i);
  }

  lemma RestOf(items: seq<Item>, i: nat)
    requires Unique(items) && i < |items|
    ensures var rest := RemoveAt(items, i);
            Unique(rest) && forall x :: x in rest <==> x in items && x.key != items[i].key
  {
    var rest := RemoveAt(items, i);
    forall x | x in items && x.key != items[i].key ensures x in rest {
      var j :| 0 <= j < |items| && items[j] == x;
      assert if j < i then rest[j] == x else rest[j - 1] == x;
    }
    forall j | 0 <= j < |rest| ensures rest[j] in items && rest[j].key != items[i].key {
      assert rest[j] == items[if j < i then j else j + 1];
    }
  }

  function ServeAll(q: Queue, ks: seq<Key>, samples: seq<int>): (r: Served)
    requires Sized(q) && |ks| <= |samples|
    ensures Sized(r.q)
  {
    if ks == [] then Served(q, [])
    else
      var n := |ks| - 1;
      var a := ServeAll(q, ks[..n], samples);
      var b := ServeOne(a.q, ks[n], samples[n]);
      ServeOneKeeps(a.q, ks[n], samples[n]);
      Served(b.q, a.out + b.out)
  }

  lemma ServeAllStep(q: Queue, ks: seq<Key>, samples: seq<int>, n: nat)
    requires Sized(q) && n < |ks| <= |samples|
    ensures var a := ServeAll(q, ks[..n], samples);
            var b := ServeOne(a.q, ks[n], samples[n]);
            ServeAll(q, ks[..n + 1], samples) == Served(b.q, a.out + b.out)
  {
    assert ks[..n + 1][..n] == ks[..n];
  }

  // --- the loops as schedules of the outbox ---

  function Continue(s: Setup, b: Box, acts: seq<Action>): Box {
    if acts == [] then b else Step(s, Continue(s, b, acts[..|acts| - 1]), acts[|acts| - 1])
  }

  /** Serving the first request is popping it, revalidating it and releasing the copy, if one was taken. */
  lemma ServeIsSchedule(s: Setup, b: Box, sample: int, now: int)
    requires b.hand == [] && b.work != [] && Stamped(s, b, sample, now) && Sized(b.q)
    ensures var d := Step(s, Step(s, Step(s, b, Pop), Revalidate(sample, now)), Release(|b.copies|));
            && d.q == ServeOne(b.q, b.work[0], sample).q
            && d.work == b.work[1..] && d.hand == [] && d.copies == b.copies && d.asked == b.asked
  {
    hide Store;
    var p := Step(s, b, Pop);
    var r := Step(s, p, Revalidate(sample, now));
    if Take(b.q, b.work[0], sample).Taken? {
      assert r.copies[..|b.copies|] + r.copies[|b.copies| + 1..] == b.copies;
    }
  }

  function Volley(stream: nat, seqs: seq<nat>, minAge: int, now: int): seq<Action> {
    if seqs == [] then []
    else Volley(stream, seqs[..|seqs| - 1], minAge, now) + [Nack((stream, seqs[|seqs| - 1]), minAge, now)]
  }

  lemma NackStep(s: Setup, b: Box, k: Key, minAge: int, now: int)
    ensures var r := Request(b.q, k, minAge, now);
            Step(s, b, Nack(k, minAge, now)) == b.(q := r.q, asked := if r.ok then b.asked + [k] else b.asked)
  {
  }

  lemma ContinueSnoc(s: Setup, b: Box, acts: seq<Action>, a: Action)
    ensures Continue(s, b, acts + [a]) == Step(s, Continue(s, b, acts), a)
  {
    assert (acts + [a])[..|acts|] == acts;
  }

  /** A NACK volley is one Nack step per listed frame. */
  lemma {:induction false} NackIsSchedule(s: Setup, b: Box, stream: nat, seqs: seq<nat>, minAge: int, now: int)
    ensures var r := NackAll(b.q, stream, seqs, minAge, now);
            Continue(s, b, Volley(stream, seqs, minAge, now)) == b.(q := r.q, asked := b.asked + r.requests)
  {
    hide Step;
    if seqs != [] {
      hide Request, Continue;
      var n := |seqs| - 1;
      var k: Key := (stream, seqs[n]);
      var r := NackAll(b.q, stream, seqs[..n], minAge, now);
      NackIsSchedule(s, b, stream, seqs[..n], minAge, now);
      ContinueSnoc(s, b, Volley(stream, seqs[..n], minAge, now), Nack(k, minAge, now));
      NackStep(s, b.(q := r.q, asked := b.asked + r.requests), k, minAge, now);
    }
  }

  // --- the queue itself ---

  /** A FIFO kept as a slice and a head index; the consumed part is dropped once it is the larger one. */
  class ResendQueue {
    var queue: seq<Key>
    var head: nat

    ghost predicate Valid()
      reads this
    {
      head <= |queue|
    }

    ghost function Contents(): seq<Key>
      reads this
      requires Valid()
    {
      queue[head..]
    }

    constructor ()
      ensures Valid() && Contents() == []
    {
      queue, head := [], 0;
    }

    method Enqueue(reqs: seq<Key>)
      requires Valid()
      modifies this
      ensures Valid() && Contents() == old(Contents()) + reqs
    {
      if |reqs| == 0 {
        return;
      }
      queue := queue + reqs;
    }

    method Pop() returns (req: Key, ok: bool)
      requires Valid()
      modifies this
      ensures Valid()
      ensures ok <==> old(Contents()) != []
      ensures ok ==> old(Contents()) == [req] + Contents()
      ensures !ok ==> Contents() == []
    {
      if head >= |queue| {
        queue, head := [], 0;
        return (0, 0), false;
      }
      req, ok := queue[head], true;
      queue := queue[head := (0, 0)];
      head := head + 1;
      if head >= COMPACT_MIN && head * 2 >= |queue| {
        queue := queue[head..];
        head := 0;
      }
    }
  }

  method HandleNack(q: RetransmitQueue, w: ResendQueue, stream: nat, seqs: seq<nat>, minAge: int, now: int)
    requires q.Valid() && w.Valid()
    modifies q.nodes`it, w
    ensures q.Valid() && w.Valid()
    ensures var r := NackAll(old(q.View()), stream, seqs, minAge, now);
            q.View() == r.q && w.Contents() == old(w.Contents()) + r.requests
  {
    hide RetransmitQueue.Valid, RetransmitQueue.View, Request;
    var requests := [];
    for n := 0 to |seqs|
      invariant q.Valid() && w.Valid() && w.Contents() == old(w.Contents())
      invariant Scan(q.View(), requests) == NackAll(old(q.View()), stream, seqs[..n], minAge, now)
    {
      assert seqs[..n + 1][..n] == seqs[..n];
      var ok := q.RequestForResend((stream, seqs[n]), minAge, now);
      if ok {
        requests := requests + [(stream, seqs[n])];
      }
    }
    assert seqs[..|seqs|] == seqs;
    w.Enqueue(requests);
  }

  /** Peeks, takes, sends and releases one popped request. */
  method ServeRequest(q: RetransmitQueue, k: Key, now: int) returns (out: seq<Resent>)
    requires q.Valid()
    modifies q`head, q`tail, q`order, q.arena, q.nodes
    ensures q.Valid() && old(Sized(q.View()))
    ensures Served(q.View(), out) == ServeOne(old(q.View()), k, now)
  {
    hide Chained, Indexed, Items, Store, RetransmitQueue.PoolOk;
    out := [];
    var live, _, _ := q.PeekForResend(k);
    if live {
      var still, copy := q.TakeForResend(k, now);
      if still {
        var x := Resent(k, copy.ftype, q.arena.mem[copy.data.buf][..copy.data.len]);
        out := out + [x];
        if copy.retries >= STUBBORN {
          out := out + [x];
        }
        q.ReleaseResendCopy(copy.data);
      }
    }
  }

  lemma ValidSized(q: RetransmitQueue)
    requires q.Valid()
    ensures Sized(q.View())
  {
  }

  /** Drains the work queue in FIFO order; samples are the clock readings of the successive takes. */
  method ServiceResends(q: RetransmitQueue, w: ResendQueue, samples: seq<int>) returns (out: seq<Resent>)
    requires q.Valid() && w.Valid() && |w.Contents()| <= |samples|
    modifies q`head, q`tail, q`order, q.arena, q.nodes, w
    ensures q.Valid() && w.Valid() && w.Contents() == [] && old(Sized(q.View()))
    ensures Served(q.View(), out) == ServeAll(old(q.View()), old(w.Contents()), samples)
  {
    hide RetransmitQueue.Valid, RetransmitQueue.View, ResendQueue.Contents, ServeOne, Sized;
    ghost var ks, was := w.Contents(), q.View();
    ValidSized(q);
    assert ServeAll(was, ks[..0], samples) == Served(was, []);
    hide ServeAll;
    out := [];
    var n := 0;
    var k, ok := w.Pop();
    while ok
      invariant q.Valid() && w.Valid() && n <= |ks| && q.nodes == old(q.nodes)
      invariant ok ==> n < |ks| && k == ks[n] && w.Contents() == ks[n + 1..]
      invariant !ok ==> n == |ks| && w.Contents() == []
      invariant Served(q.View(), out) == ServeAll(was, ks[..n], samples)
      decreases |ks| - n
    {
      ServeAllStep(was, ks, samples, n);
      var sent := ServeRequest(q, k, samples[n]);
      out := out + sent;
      n := n + 1;
      k, ok := w.Pop();
      assert ok ==> ks[n..][1..] == ks[n + 1..];
    }
    assert ks[..|ks|] == ks;
  }
}
