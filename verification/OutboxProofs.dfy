/** Every step of the outbox keeps its invariant. */
module OutboxProofs {
  import opened Bytes
  import opened Arenas
  import opened Outstanding
  import opened Outbox
  import Ledger

  // --- counting ---

  lemma CountSnoc(ss: seq<Slice>, s: Slice, x: nat)
    ensures Count(ss + [s], x) == Count(ss, x) + (if s.buf == x then 1 else 0)
  {
    assert Bufs(ss + [s]) == Bufs(ss) + [s.buf];
  }

  lemma CountSplit(ss: seq<Slice>, n: nat, x: nat)
    requires n <= |ss|
    ensures Count(ss, x) == Count(ss[..n], x) + Count(ss[n..], x)
  {
    assert Bufs(ss) == Bufs(ss[..n]) + Bufs(ss[n..]);
  }

  lemma CountCut(ss: seq<Slice>, i: nat, x: nat)
    requires i < |ss|
    ensures Count(ss[..i] + ss[i + 1..], x) + (if ss[i].buf == x then 1 else 0) == Count(ss, x)
  {
    CountSplit(ss, i, x);
    CountSplit(ss[i..], 1, x);
    assert ss[i..][1..] == ss[i + 1..] && ss[i..][..1] == [] + [ss[i]];
    CountSnoc([], ss[i], x);
    var c := ss[..i] + ss[i + 1..];
    CountSplit(c, i, x);
    assert c[..i] == ss[..i] && c[i..] == ss[i + 1..];
  }

  lemma CountIn(ss: seq<Slice>, s: Slice)
    requires s in ss
    ensures Count(ss, s.buf) >= 1
  {
    var i :| 0 <= i < |ss| && ss[i] == s;
    CountCut(ss, i, s.buf);
  }

  /** A buffer in use is not free. */
  lemma InUse(b: Box, data: Slice)
    requires Partitioned(b)
    requires data in Slices(b.q.items) || data in b.q.pendingFree || data in Datas(b.copies)
    ensures multiset(b.q.arena.free)[data.buf] == 0 && data.buf !in b.q.arena.free
  {
    assert OwnedOnce(b, data.buf);
    if data in Slices(b.q.items) {
      CountIn(Slices(b.q.items), data);
    } else if data in b.q.pendingFree {
      CountIn(b.q.pendingFree, data);
    } else {
      CountIn(Datas(b.copies), data);
    }
  }

  /** Storing a payload does not touch a slice whose buffer is not free. */
  lemma StoreSpares(a: Arena, payload: Bytes, data: Slice)
    requires a.Sound() && a.Fits(data) && data.buf !in a.free
    ensures var g := Store(a, payload); g.a.Fits(data) && g.a.Read(data) == a.Read(data)
  {
    StoreTakes(a, payload, data.buf);
  }

  // --- sending a new frame ---

  /** What sending does to the parts that own buffers. */
  lemma SendIs(s: Setup, b: Box, a: Action)
    requires a.Send? && Enabled(s, b, a)
    ensures var d, g := Do(s, b, a), Store(b.q.arena, a.payload);
            && d.q == Queue(b.q.items + [Item(a.k, a.ftype, g.s, a.sample, 0, false)], b.q.pendingFree, g.a)
            && d == b.(q := d.q, sent := b.sent[a.k := a.payload], pushed := b.pushed[a.k := a.now], clock := a.now,
                       loose := b.loose + [Ref(a.k, g.s)])
            && Slices(d.q.items) == Slices(b.q.items) + [g.s]
  {
    hide Store;
  }

  lemma SendOwned(b: Box, d: Box, payload: Bytes, x: nat)
    requires b.q.arena.Sound() && OwnedOnce(b, x)
    requires var g := Store(b.q.arena, payload);
             && d.q.arena == g.a && d.copies == b.copies && d.q.pendingFree == b.q.pendingFree
             && Slices(d.q.items) == Slices(b.q.items) + [g.s]
    ensures OwnedOnce(d, x)
  {
    hide Store, Count, Slices, Datas;
    StoreTakes(b.q.arena, payload, x);
    CountSnoc(Slices(b.q.items), Store(b.q.arena, payload).s, x);
  }

  lemma SendPartition(s: Setup, b: Box, a: Action)
    requires Partitioned(b) && a.Send? && Enabled(s, b, a)
    ensures Partitioned(Do(s, b, a))
  {
    hide Store, OwnedOnce, Slices, Do;
    SendIs(s, b, a);
    forall x: nat ensures OwnedOnce(Do(s, b, a), x) {
      SendOwned(b, Do(s, b, a), a.payload, x);
    }
  }

  lemma SendHolds(s: Setup, b: Box, a: Action, k: Key, data: Slice)
    requires Inv(s, b) && a.Send? && Enabled(s, b, a)
    requires Holding(b, k, data)
    requires data in Slices(b.q.items) || data in b.q.pendingFree || data in Datas(b.copies)
    ensures Holding(Do(s, b, a), k, data)
  {
    InUse(b, data);
    StoreSpares(b.q.arena, a.payload, data);
  }

  lemma SendIntact(s: Setup, b: Box, a: Action)
    requires Inv(s, b) && a.Send? && Enabled(s, b, a)
    ensures Intact(Do(s, b, a))
  {
    hide Inv, Store, Holding, Do;
    SendIs(s, b, a);
    InvIntact(s, b);
    NewHolds(s, b, a);
    var d := Do(s, b, a);
    forall i | 0 <= i < |d.q.items| ensures Holding(d, d.q.items[i].key, d.q.items[i].data) {
      if i < |b.q.items| {
        assert Slices(b.q.items)[i] == b.q.items[i].data;
        SendHolds(s, b, a, b.q.items[i].key, b.q.items[i].data);
      }
    }
    forall i | 0 <= i < |d.copies| ensures Holding(d, d.copies[i].key, d.copies[i].data) {
      assert Datas(b.copies)[i] == b.copies[i].data;
      SendHolds(s, b, a, b.copies[i].key, b.copies[i].data);
    }
  }

  lemma InvIntact(s: Setup, b: Box)
    requires Inv(s, b)
    ensures Intact(b) && Partitioned(b) && Protected(s, b) && LooseOk(b) && Ordered(s, b) && OneRequestEach(b) && Unique(b.q.items)
  {
  }

  lemma NewHolds(s: Setup, b: Box, a: Action)
    requires a.Send? && Enabled(s, b, a)
    ensures Holding(Do(s, b, a), a.k, Store(b.q.arena, a.payload).s) && Store(b.q.arena, a.payload).a.Sound()
  {
    hide Get, Fill;
  }

  lemma SendOrder(s: Setup, b: Box, a: Action)
    requires Intact(b) && Unique(b.q.items) && Ordered(s, b) && a.Send? && Enabled(s, b, a)
    ensures Ordered(s, Do(s, b, a)) && Unique(Do(s, b, a).q.items)
  {
    hide Store;
  }

  lemma SendKeeps(s: Setup, b: Box, a: Action)
    requires Inv(s, b) && a.Send? && Enabled(s, b, a)
    ensures Inv(s, Do(s, b, a))
  {
    hide Intact, OneRequestEach, Partitioned, Protected, LooseOk, Ordered, Unique, Do, Enabled;
    SendPartition(s, b, a);
    SendIntact(s, b, a);
    SendOrder(s, b, a);
    SendProtects(s, b, a);
    SendRequests(s, b, a);
    SendLoose(s, b, a);
  }

  lemma SendLoose(s: Setup, b: Box, a: Action)
    requires LooseOk(b) && a.Send? && Enabled(s, b, a)
    ensures LooseOk(Do(s, b, a))
  {
    hide Store;
    var d := Do(s, b, a);
    var last := d.q.items[|b.q.items|];
    assert last in d.q.items;
    forall i | 0 <= i < |d.loose| ensures d.loose[i].key in d.raced || Registered(d, d.loose[i]) {
      if i < |b.loose| && b.loose[i].key !in b.raced {
        var it :| it in b.q.items && it.key == b.loose[i].key && it.data == b.loose[i].data;
        assert it in d.q.items;
      }
    }
  }

  lemma SendProtects(s: Setup, b: Box, a: Action)
    requires Inv(s, b) && a.Send? && Enabled(s, b, a)
    ensures Protected(s, Do(s, b, a))
  {
    hide Store, OneRequestEach, Partitioned, Holding, Ordered, LooseOk;
    var d := Do(s, b, a);
    var g := Store(b.q.arena, a.payload);
    assert Slices(d.q.items) == Slices(b.q.items) + [g.s];
    forall r: Ref, n: nat | Backed(b, r, n) ensures Backed(d, r, n) {
      SendHolds(s, b, a, r.key, r.data);
    }
  }

  lemma SendRequests(s: Setup, b: Box, a: Action)
    requires Inv(s, b) && a.Send? && Enabled(s, b, a)
    ensures OneRequestEach(Do(s, b, a))
  {
    var d := Do(s, b, a);
    assert Requests(d) == Requests(b);
  }

  // --- queueing a stored frame ---

  lemma AttachKeeps(s: Setup, b: Box, a: Action)
    requires Inv(s, b) && a.Attach? && Enabled(s, b, a)
    ensures Inv(s, Do(s, b, a))
  {
    hide Partitioned, OneRequestEach, Ordered, Holding;
    var d := Do(s, b, a);
    PhaseSame(b, d);
    RequestsSame(b, d);
    OrderedSame(s, b, d);
    var r := b.loose[a.i];
    if r.key !in b.raced {
      var it :| it in b.q.items && it.key == r.key && it.data == r.data;
      var j :| 0 <= j < |b.q.items| && b.q.items[j] == it;
      assert Slices(b.q.items)[j] == r.data;
      assert Backed(b, r, b.mark);
    }
    forall x: Ref, n: nat | Backed(b, x, n) ensures Backed(d, x, n) {
      BackedSame(b, d, x, n);
    }
    LooseSame(b, d);
  }

  lemma LooseSame(b: Box, d: Box)
    requires LooseOk(b) && d.q.items == b.q.items && d.raced == b.raced && (forall r :: r in d.loose ==> r in b.loose)
    ensures LooseOk(d)
  {
    forall i | 0 <= i < |d.loose| ensures d.loose[i].key in d.raced || Registered(d, d.loose[i]) {
      var r := d.loose[i];
      assert r in b.loose;
      assert r.key in b.raced || Registered(b, r);
    }
  }

  // --- removing a frame ---

  lemma RemoveItems(q: Queue, k: Key)
    requires Unique(q.items) && Holds(q.items, k)
    ensures var i, r := Pos(q.items, k), Remove(q, k);
            && Slices(r.items) == Slices(q.items)[..i] + Slices(q.items)[i + 1..]
            && r.pendingFree == q.pendingFree + [Slices(q.items)[i]]
            && Unique(r.items) && (forall it :: it in r.items ==> it in q.items)
  {
    var i := Pos(q.items, k);
    RemoveAtKeeps(q.items, i, q.items[i]);
  }

  lemma AcknowledgePartition(b: Box, k: Key)
    requires Unique(b.q.items) && Partitioned(b)
    ensures Partitioned(b.(q := Remove(b.q, k)))
  {
    hide Count, Unique;
    var d := b.(q := Remove(b.q, k));
    var i := Pos(b.q.items, k);
    if i < |b.q.items| {
      RemoveItems(b.q, k);
      assert d.q.arena == b.q.arena && d.copies == b.copies;
      hide Remove, Slices, Pos;
      var t := Slices(b.q.items);
      forall x: nat ensures OwnedOnce(d, x) {
        assert OwnedOnce(b, x);
        CountCut(t, i, x);
        CountSnoc(b.q.pendingFree, t[i], x);
      }
    }
  }

  lemma AcknowledgeBacks(b: Box, k: Key, r: Ref, n: nat)
    requires Unique(b.q.items) && Backed(b, r, n)
    ensures Backed(b.(q := Remove(b.q, k)), r, n)
  {
    hide Holding;
    var d := b.(q := Remove(b.q, k));
    assert Holding(d, r.key, r.data) by {
      HoldingSame(b, d, r.key, r.data);
    }
    var i := Pos(b.q.items, k);
    if i < |b.q.items| {
      hide Remove;
      RemoveItems(b.q, k);
      var p, t := b.q.pendingFree, d.q.pendingFree;
      assert t[n..] == p[n..] + [Slices(b.q.items)[i]];
      if r.data in Slices(b.q.items) {
        var j :| 0 <= j < |b.q.items| && Slices(b.q.items)[j] == r.data;
        if j != i {
          assert Slices(d.q.items)[if j < i then j else j - 1] == r.data;
        }
      }
    }
  }

  /** Whether a slice holds its payload depends on memory and history alone. */
  lemma HoldingSame(b: Box, d: Box, k: Key, data: Slice)
    requires Holding(b, k, data)
    requires d.q.arena.mem == b.q.arena.mem && d.sent == b.sent
    ensures Holding(d, k, data)
  {
  }

  lemma CutOrder(items: seq<Item>, i: nat, pushed: map<Key, int>, skew: nat)
    requires i < |items| && InOrder(items, pushed, skew)
    ensures InOrder(RemoveAt(items, i), pushed, skew)
  {
    var r := RemoveAt(items, i);
    assert forall j :: 0 <= j < |r| ==> r[j] == items[if j < i then j else j + 1];
  }

  lemma CutIn(items: seq<Item>, i: nat, j: nat)
    requires i < |items| && j < |RemoveAt(items, i)|
    ensures var m := if j < i then j else j + 1;
            m < |items| && RemoveAt(items, i)[j] == items[m]
  {
  }

  lemma AcknowledgeOrder(s: Setup, b: Box, k: Key)
    requires Unique(b.q.items) && Ordered(s, b) && OneRequestEach(b)
    ensures Ordered(s, b.(q := Remove(b.q, k))) && OneRequestEach(b.(q := Remove(b.q, k)))
  {
    hide InOrder, Requests, Unique, RemoveAt;
    var d := b.(q := Remove(b.q, k));
    SameRequests(b, d);
    var i := Pos(b.q.items, k);
    if i < |b.q.items| {
      CutOrder(b.q.items, i, b.pushed, s.skew);
      forall j | 0 <= j < |d.q.items| ensures d.q.items[j] in b.q.items {
        CutIn(b.q.items, i, j);
      }
    }
  }

  lemma SameRequests(b: Box, d: Box)
    requires d.asked == b.asked && d.work == b.work && d.hand == b.hand
    ensures Requests(d) == Requests(b)
  {
  }

  lemma AcknowledgeLoose(s: Setup, b: Box, a: Action)
    requires Unique(b.q.items) && LooseOk(b) && a.Acknowledge?
    ensures LooseOk(Do(s, b, a))
  {
    var d := Do(s, b, a);
    forall j | 0 <= j < |d.loose| ensures d.loose[j].key in d.raced || Registered(d, d.loose[j]) {
      if b.loose[j].key == a.k {
        assert IsLoose(b, a.k);
      } else if b.loose[j].key !in b.raced {
        var it :| it in b.q.items && it.key == b.loose[j].key && it.data == b.loose[j].data;
        var i := Pos(b.q.items, a.k);
        if i < |b.q.items| {
          RemoveAtKeeps(b.q.items, i, it);
        }
        assert it in d.q.items;
      }
    }
  }

  lemma AcknowledgeIntact(b: Box, k: Key)
    requires Unique(b.q.items) && Intact(b)
    ensures Intact(b.(q := Remove(b.q, k)))
  {
    hide Holding;
    var d := b.(q := Remove(b.q, k));
    forall k: Key, data: Slice | Holding(b, k, data) ensures Holding(d, k, data) {
      HoldingSame(b, d, k, data);
    }
    if Holds(b.q.items, k) {
      RemoveItems(b.q, k);
    }
    forall i | 0 <= i < |d.q.items| ensures Holding(d, d.q.items[i].key, d.q.items[i].data) {
      assert d.q.items[i] in b.q.items;
    }
  }

  lemma AcknowledgeProtects(s: Setup, b: Box, a: Action)
    requires Unique(b.q.items) && Protected(s, b) && a.Acknowledge?
    ensures Protected(s, Do(s, b, a))
  {
    hide Backed, Unique, IsLoose;
    var m, d := b.(q := Remove(b.q, a.k)), Do(s, b, a);
    forall r: Ref, n: nat | Backed(b, r, n) ensures Backed(d, r, n) {
      AcknowledgeBacks(b, a.k, r, n);
      BackedSame(m, d, r, n);
    }
  }

  lemma AcknowledgeKeeps(s: Setup, b: Box, a: Action)
    requires Inv(s, b) && a.Acknowledge?
    ensures Inv(s, Do(s, b, a))
  {
    hide LooseOk, OneRequestEach, Ordered, Partitioned, Protected, Intact, Unique, IsLoose, Remove;
    var m, d := b.(q := Remove(b.q, a.k)), Do(s, b, a);
    AcknowledgeLoose(s, b, a);
    AcknowledgeProtects(s, b, a);
    AcknowledgePartition(b, a.k);
    AcknowledgeIntact(b, a.k);
    AcknowledgeOrder(s, b, a.k);
    RemoveUnique(b.q, a.k);
    PhaseSame(m, d);
    SameRequests(m, d);
    RequestsSame(m, d);
    OrderedSame(s, m, d);
  }

  lemma RemoveUnique(q: Queue, k: Key)
    requires Unique(q.items)
    ensures Unique(Remove(q, k).items)
  {
    if Holds(q.items, k) {
      RemoveItems(q, k);
    }
  }

  // --- requests ---

  /** Setting flags changes nothing but the flags. */
  predicate Reflagged(items: seq<Item>, was: seq<Item>) {
    && |items| == |was|
    && (forall i :: 0 <= i < |items| ==> items[i] == was[i].(queued := items[i].queued))
  }

  lemma ReflagLoose(b: Box, d: Box)
    requires LooseOk(b) && Reflagged(d.q.items, b.q.items) && d.loose == b.loose && d.raced == b.raced
    ensures LooseOk(d)
  {
    forall i | 0 <= i < |d.loose| && d.loose[i].key !in d.raced ensures Registered(d, d.loose[i]) {
      var it :| it in b.q.items && it.key == b.loose[i].key && it.data == b.loose[i].data;
      var j :| 0 <= j < |b.q.items| && b.q.items[j] == it;
      assert d.q.items[j] in d.q.items;
    }
  }

  lemma ReflagKeeps(s: Setup, b: Box, d: Box)
    requires Inv(s, b)
    requires d == b.(q := b.q.(items := d.q.items), asked := d.asked) && Reflagged(d.q.items, b.q.items)
    requires OneRequestEach(d)
    ensures Inv(s, d)
  {
    hide OneRequestEach, Holding;
    ReflagLoose(b, d);
    hide LooseOk;
    assert Slices(d.q.items) == Slices(b.q.items);
    forall k: Key, data: Slice | Holding(b, k, data) ensures Holding(d, k, data) {
      HoldingSame(b, d, k, data);
    }
    forall r: Ref, n: nat | Backed(b, r, n) ensures Backed(d, r, n) {
    }
    hide Backed;
    forall x: nat ensures OwnedOnce(d, x) {
      assert OwnedOnce(b, x);
    }
  }

  /** Flagging frames and asking for exactly those keeps flags and requests in step. */
  lemma AskMore(b: Box, d: Box, ks: seq<Key>)
    requires Intact(b) && OneRequestEach(b)
    requires d == b.(q := b.q.(items := d.q.items), asked := b.asked + ks) && Reflagged(d.q.items, b.q.items)
    requires forall k :: multiset(ks)[k] <= 1
    requires forall k :: k in ks ==> exists it :: it in b.q.items && it.key == k && !it.queued
    requires forall i :: 0 <= i < |b.q.items| ==> (d.q.items[i].queued <==> b.q.items[i].queued || b.q.items[i].key in ks)
    ensures OneRequestEach(d)
  {
    var r, t := Requests(b), Requests(d);
    assert multiset(t) == multiset(r) + multiset(ks);
    forall k ensures (k in t <==> k in r || k in ks) && (k in ks ==> k !in r && k in b.sent) {
      assert k in t <==> k in multiset(t);
      assert k in r <==> k in multiset(r);
      assert k in ks <==> k in multiset(ks);
      if k in ks {
        var it :| it in b.q.items && it.key == k && !it.queued;
      }
    }
    forall k ensures multiset(t)[k] <= 1 {
      assert k in r <==> k in multiset(r);
      assert k in ks <==> k in multiset(ks);
    }
    hide Requests, Intact;
  }

  lemma NackKeeps(s: Setup, b: Box, a: Action)
    requires Inv(s, b) && a.Nack?
    ensures Inv(s, Do(s, b, a))
  {
    var d := Do(s, b, a);
    var i := Pos(b.q.items, a.k);
    if i < |b.q.items| && MayRequest(b.q.items[i], a.minAge, a.now) {
      hide Partitioned, Ordered, Protected, OneRequestEach, Intact;
      assert b.q.items[i] in b.q.items;
      AskMore(b, d, [a.k]);
      ReflagKeeps(s, b, d);
    }
  }

  lemma UniquePrefix(items: seq<Item>, n: nat)
    requires Unique(items) && n <= |items|
    ensures Unique(items[..n])
  {
  }

  lemma DueAsks(q: Queue, rto: int, now: int, k: Key)
    requires Unique(q.items)
    ensures var r := Due(q, rto, now).requests;
            && multiset(r)[k] <= 1
            && (k in r ==> exists it :: it in q.items && it.key == k && !it.queued)
  {
    hide Unique, Unflagged;
    var n := DuePrefix(q.items, rto, now);
    UniquePrefix(q.items, n);
    UnflaggedIs(q.items[..n], k);
    if k in Due(q, rto, now).requests {
      var it :| it in q.items[..n] && it.key == k && !it.queued;
      assert it in q.items;
    }
  }

  lemma DueMarks(q: Queue, rto: int, now: int, i: nat)
    requires Unique(q.items) && i < |q.items|
    ensures var r := Due(q, rto, now);
            && |r.q.items| == |q.items|
            && r.q.items[i] == q.items[i].(queued := r.q.items[i].queued)
            && (r.q.items[i].queued <==> q.items[i].queued || q.items[i].key in r.requests)
  {
    var n := DuePrefix(q.items, rto, now);
    UniquePrefix(q.items, n);
    UnflaggedIs(q.items[..n], q.items[i].key);
    hide Unflagged;
    if i < n {
      assert q.items[i] in q.items[..n];
    }
  }

  /** What one scan does, seen from the list it scans. */
  lemma DueFlags(q: Queue, rto: int, now: int)
    requires Unique(q.items)
    ensures var r := Due(q, rto, now);
            && r.q == q.(items := r.q.items) && Reflagged(r.q.items, q.items)
            && (forall k :: multiset(r.requests)[k] <= 1)
            && (forall k :: k in r.requests ==> exists it :: it in q.items && it.key == k && !it.queued)
            && (forall i :: 0 <= i < |q.items| ==>
                  (r.q.items[i].queued <==> q.items[i].queued || q.items[i].key in r.requests))
  {
    var r := Due(q, rto, now);
    assert r.q == q.(items := r.q.items) && |r.q.items| == |q.items|;
    hide Due, Unique;
    forall k ensures multiset(r.requests)[k] <= 1 && (k in r.requests ==> exists it :: it in q.items && it.key == k && !it.queued) {
      DueAsks(q, rto, now, k);
    }
    forall i | 0 <= i < |q.items|
      ensures r.q.items[i] == q.items[i].(queued := r.q.items[i].queued)
      ensures r.q.items[i].queued <==> q.items[i].queued || q.items[i].key in r.requests
    {
      DueMarks(q, rto, now, i);
    }
  }

  lemma TimerKeeps(s: Setup, b: Box, a: Action)
    requires Inv(s, b) && a.Timer?
    ensures Inv(s, Do(s, b, a))
  {
    hide Partitioned, Ordered, Protected, OneRequestEach, Intact, Due, Unique;
    DueFlags(b.q, a.rto, a.now);
    AskMore(b, Do(s, b, a), Due(b.q, a.rto, a.now).requests);
    ReflagKeeps(s, b, Do(s, b, a));
  }

  // --- the worker ---

  /** The memory half of the invariant does not look at requests. */
  lemma MemorySame(s: Setup, b: Box, d: Box)
    requires Intact(b) && Partitioned(b) && Protected(s, b)
    requires d == b.(asked := d.asked, work := d.work, hand := d.hand)
    ensures Intact(d) && Partitioned(d) && Protected(s, d)
  {
    hide Owners, Holding;
    forall k: Key, data: Slice | Holding(b, k, data) ensures Holding(d, k, data) {
      HoldingSame(b, d, k, data);
    }
    forall x: nat ensures OwnedOnce(d, x) {
      assert OwnedOnce(b, x) && Owners(d, x) == Owners(b, x) by {
        OwnersSame(b, d, x);
      }
    }
  }

  lemma OwnersSame(b: Box, d: Box, x: nat)
    requires d.q == b.q && d.copies == b.copies
    ensures Owners(d, x) == Owners(b, x)
  {
  }

  /** Moving requests about keeps the invariant. */
  lemma RequestsMove(s: Setup, b: Box, d: Box)
    requires Inv(s, b)
    requires d == b.(asked := d.asked, work := d.work, hand := d.hand)
    requires multiset(Requests(d)) == multiset(Requests(b))
    ensures Inv(s, d)
  {
    hide Intact, Partitioned, Protected, LooseOk;
    MemorySame(s, b, d);
    LooseSame(b, d);
    assert forall k :: k in Requests(d) <==> k in multiset(Requests(d));
    assert forall k :: k in Requests(b) <==> k in multiset(Requests(b));
    hide Requests;
  }

  lemma EnqueueKeeps(s: Setup, b: Box, a: Action)
    requires Inv(s, b) && a.Enqueue? && Enabled(s, b, a)
    ensures Inv(s, Do(s, b, a))
  {
    hide Inv;
    assert b.asked == b.asked[..a.i] + [b.asked[a.i]] + b.asked[a.i + 1..];
    RequestsMove(s, b, Do(s, b, a));
  }

  lemma PopKeeps(s: Setup, b: Box, a: Action)
    requires Inv(s, b) && a.Pop? && Enabled(s, b, a)
    ensures Inv(s, Do(s, b, a))
  {
    hide Inv;
    assert b.work == [b.work[0]] + b.work[1..];
    RequestsMove(s, b, Do(s, b, a));
  }

  // --- revalidating a request ---

  predicate Takes(s: Setup, b: Box, a: Action) {
    a.Revalidate? && Enabled(s, b, a) && Take(b.q, b.hand[0], a.sample).Taken?
  }

  /** What the queue looks like once the worker has taken a frame. */
  lemma TakeIs(s: Setup, b: Box, a: Action)
    requires Takes(s, b, a)
    ensures var d, k, i := Do(s, b, a), b.hand[0], Pos(b.q.items, b.hand[0]);
            && i < |b.q.items| && b.q.items[i].queued
            && var it := b.q.items[i];
            var g := Store(b.q.arena, b.q.arena.Read(it.data));
            && d.q == Queue(RemoveAt(b.q.items, i) + [it.(queued := false, sentAt := a.sample, retries := it.retries + 1)],
                            b.q.pendingFree, g.a)
            && d == b.(q := d.q, copies := b.copies + [Ref(k, g.s)], pushed := b.pushed[k := a.now], clock := a.now,
                       hand := b.hand[1..])
            && Slices(d.q.items) == Slices(b.q.items)[..i] + Slices(b.q.items)[i + 1..] + [it.data]
  {
    hide Store;
  }

  lemma TakeSameSlices(b: Box, d: Box, i: nat, data: Slice)
    requires i < |b.q.items|
    requires Slices(d.q.items) == Slices(b.q.items)[..i] + Slices(b.q.items)[i + 1..] + [Slices(b.q.items)[i]]
    ensures data in Slices(d.q.items) <==> data in Slices(b.q.items)
  {
    var t, u := Slices(b.q.items), Slices(d.q.items);
    if data in t {
      var j :| 0 <= j < |t| && t[j] == data;
      assert u[if j < i then j else if j == i then |u| - 1 else j - 1] == data;
    }
  }

  lemma TakePartition(s: Setup, b: Box, a: Action)
    requires Takes(s, b, a) && Partitioned(b)
    ensures Partitioned(Do(s, b, a))
  {
    hide Do, Store, Count;
    TakeIs(s, b, a);
    var d, i := Do(s, b, a), Pos(b.q.items, b.hand[0]);
    var t, payload := Slices(b.q.items), b.q.arena.Read(b.q.items[i].data);
    var g := Store(b.q.arena, payload);
    assert Datas(d.copies) == Datas(b.copies) + [g.s];
    forall x: nat ensures OwnedOnce(d, x) {
      assert OwnedOnce(b, x);
      StoreTakes(b.q.arena, payload, x);
      CountCut(t, i, x);
      CountSnoc(t[..i] + t[i + 1..], t[i], x);
      CountSnoc(Datas(b.copies), g.s, x);
    }
  }

  lemma TakeHolds(s: Setup, b: Box, a: Action, k: Key, data: Slice)
    requires Takes(s, b, a) && Partitioned(b) && Holding(b, k, data)
    requires data in Slices(b.q.items) || data in b.q.pendingFree || data in Datas(b.copies)
    ensures Holding(Do(s, b, a), k, data)
  {
    hide Do, Store;
    TakeIs(s, b, a);
    InUse(b, data);
    StoreSpares(b.q.arena, b.q.arena.Read(b.q.items[Pos(b.q.items, b.hand[0])].data), data);
  }

  lemma TakeIntact(s: Setup, b: Box, a: Action)
    requires Takes(s, b, a) && Partitioned(b) && Intact(b)
    ensures Intact(Do(s, b, a))
  {
    hide Do, Partitioned;
    TakeIs(s, b, a);
    var d, i := Do(s, b, a), Pos(b.q.items, b.hand[0]);
    forall j | 0 <= j < |d.q.items| ensures Holding(d, d.q.items[j].key, d.q.items[j].data) {
      var m := if j < i then j else if j < |b.q.items| - 1 then j + 1 else i;
      assert d.q.items[j].key == b.q.items[m].key && d.q.items[j].data == b.q.items[m].data == Slices(b.q.items)[m];
      TakeHolds(s, b, a, b.q.items[m].key, b.q.items[m].data);
    }
    forall j | 0 <= j < |d.copies| ensures Holding(d, d.copies[j].key, d.copies[j].data) {
      if j < |b.copies| {
        assert Datas(b.copies)[j] == b.copies[j].data;
        TakeHolds(s, b, a, b.copies[j].key, b.copies[j].data);
      }
    }
  }

  lemma TakeProtects(s: Setup, b: Box, a: Action)
    requires Takes(s, b, a) && Partitioned(b) && Protected(s, b)
    ensures Protected(s, Do(s, b, a))
  {
    hide Do, Partitioned, Store, Holding;
    TakeIs(s, b, a);
    var d := Do(s, b, a);
    forall r: Ref, n: nat | Backed(b, r, n) ensures Backed(d, r, n) {
      TakeHolds(s, b, a, r.key, r.data);
      TakeSameSlices(b, d, Pos(b.q.items, b.hand[0]), r.data);
    }
    hide Backed;
  }

  lemma HandOut(b: Box, d: Box)
    requires b.hand != [] && d.asked == b.asked && d.work == b.work && d.hand == b.hand[1..]
    requires forall k :: multiset(Requests(b))[k] <= 1
    ensures forall k :: multiset(Requests(d))[k] <= 1
    ensures forall k :: k in Requests(d) <==> k in Requests(b) && k != b.hand[0]
  {
    assert b.hand == [b.hand[0]] + b.hand[1..];
    assert multiset(Requests(b)) == multiset(Requests(d)) + multiset{b.hand[0]};
    forall k ensures multiset(Requests(d))[k] <= 1 && (k in Requests(d) <==> k in Requests(b) && k != b.hand[0]) {
      assert multiset(Requests(b))[k] <= 1;
      assert k in Requests(d) <==> multiset(Requests(d))[k] > 0;
      assert k in Requests(b) <==> multiset(Requests(b))[k] > 0;
    }
  }

  lemma MoveUnique(items: seq<Item>, i: nat, it: Item)
    requires Unique(items) && i < |items| && it.key == items[i].key
    ensures Unique(RemoveAt(items, i) + [it])
  {
    var r := RemoveAt(items, i);
    assert forall j :: 0 <= j < |r| ==> r[j] == items[if j < i then j else j + 1];
  }

  lemma TakeRequests(s: Setup, b: Box, a: Action)
    requires Takes(s, b, a) && Unique(b.q.items) && OneRequestEach(b)
    ensures OneRequestEach(Do(s, b, a)) && Unique(Do(s, b, a).q.items)
  {
    hide Do, Store, RemoveAt, Requests;
    TakeIs(s, b, a);
    var d, i := Do(s, b, a), Pos(b.q.items, b.hand[0]);
    var it := b.q.items[i].(queued := false, sentAt := a.sample, retries := b.q.items[i].retries + 1);
    MoveUnique(b.q.items, i, it);
    HandOut(b, d);
    var n := |d.q.items| - 1;
    forall j | 0 <= j < |d.q.items| ensures d.q.items[j].queued <==> d.q.items[j].key in Requests(d) {
      if j < n {
        CutIn(b.q.items, i, j);
        assert d.q.items[j].key != d.q.items[n].key;
      }
    }
    hide Unique, Takes;
  }

  /** Moving one entry to the tail with the latest push time keeps the list in order. */
  lemma MoveOrder(items: seq<Item>, i: nat, it: Item, pushed: map<Key, int>, skew: nat, now: int)
    requires Unique(items) && i < |items| && it.key == items[i].key && InOrder(items, pushed, skew)
    requires it.sentAt <= now <= it.sentAt + skew
    requires forall j :: 0 <= j < |items| ==> pushed[items[j].key] <= now
    ensures InOrder(RemoveAt(items, i) + [it], pushed[it.key := now], skew)
    ensures forall x :: x in RemoveAt(items, i) + [it] ==> pushed[it.key := now][x.key] <= now
  {
    var r, p := RemoveAt(items, i), pushed[it.key := now];
    forall j | 0 <= j < |r| ensures r[j].key in pushed && p[r[j].key] == pushed[r[j].key] <= now &&
      r[j].sentAt <= p[r[j].key] <= r[j].sentAt + skew
    {
      assert r[j] == items[if j < i then j else j + 1];
    }
    forall j, m | 0 <= j < m < |r| ensures p[r[j].key] <= p[r[m].key] {
      assert r[j] == items[if j < i then j else j + 1] && r[m] == items[if m < i then m else m + 1];
    }
  }

  lemma TakeOrder(s: Setup, b: Box, a: Action)
    requires Takes(s, b, a) && Unique(b.q.items) && Ordered(s, b)
    ensures Ordered(s, Do(s, b, a))
  {
    hide Do, Store, Unique, RemoveAt;
    TakeIs(s, b, a);
    var i := Pos(b.q.items, b.hand[0]);
    var it := b.q.items[i].(queued := false, sentAt := a.sample, retries := b.q.items[i].retries + 1);
    assert forall j :: 0 <= j < |b.q.items| ==> b.pushed[b.q.items[j].key] <= b.clock;
    MoveOrder(b.q.items, i, it, b.pushed, s.skew, a.now);
    assert forall j :: 0 <= j < |Do(s, b, a).q.items| ==> Do(s, b, a).q.items[j] in Do(s, b, a).q.items;
    hide InOrder;
  }

  /** A request is dropped only if its frame is no longer outstanding. */
  lemma DroppedIsGone(s: Setup, b: Box, a: Action)
    requires Inv(s, b) && a.Revalidate? && Enabled(s, b, a) && !Takes(s, b, a)
    ensures !Holds(b.q.items, b.hand[0])
    ensures Do(s, b, a) == b.(hand := b.hand[1..])
  {
    var i := Pos(b.q.items, b.hand[0]);
    assert b.hand[0] in Requests(b);
  }

  lemma DropKeeps(s: Setup, b: Box, a: Action)
    requires Inv(s, b) && a.Revalidate? && Enabled(s, b, a) && !Takes(s, b, a)
    ensures Inv(s, Do(s, b, a))
  {
    hide Intact, Partitioned, Protected, Do, Takes, LooseOk;
    var d := Do(s, b, a);
    DroppedIsGone(s, b, a);
    MemorySame(s, b, d);
    LooseSame(b, d);
    HandOut(b, d);
    hide Requests;
    assert forall j :: 0 <= j < |b.q.items| ==> b.q.items[j].key != b.hand[0];
  }

  /** Every entry survives a move to the tail, key and payload unchanged. */
  lemma MovedStays(items: seq<Item>, i: nat, moved: Item, it: Item)
    requires i < |items| && moved.key == items[i].key && moved.data == items[i].data && it in items
    ensures exists x :: x in RemoveAt(items, i) + [moved] && x.key == it.key && x.data == it.data
  {
    var r := RemoveAt(items, i) + [moved];
    var j :| 0 <= j < |items| && items[j] == it;
    var n := if j < i then j else if j == i then |items| - 1 else j - 1;
    assert r[n] in r && r[n].key == it.key && r[n].data == it.data;
  }

  lemma TakeLoose(s: Setup, b: Box, a: Action)
    requires Takes(s, b, a) && LooseOk(b)
    ensures LooseOk(Do(s, b, a))
  {
    hide Do, Store, RemoveAt;
    TakeIs(s, b, a);
    var d, i := Do(s, b, a), Pos(b.q.items, b.hand[0]);
    var moved := b.q.items[i].(queued := false, sentAt := a.sample, retries := b.q.items[i].retries + 1);
    hide Takes;
    forall m | 0 <= m < |d.loose| && d.loose[m].key !in d.raced ensures Registered(d, d.loose[m]) {
      var it :| it in b.q.items && it.key == b.loose[m].key && it.data == b.loose[m].data;
      MovedStays(b.q.items, i, moved, it);
    }
  }

  lemma RevalidateKeeps(s: Setup, b: Box, a: Action)
    requires Inv(s, b) && a.Revalidate? && Enabled(s, b, a)
    ensures Inv(s, Do(s, b, a))
  {
    hide Intact, Partitioned, Protected, Do, Takes, OneRequestEach, Ordered, Unique, LooseOk;
    if Takes(s, b, a) {
      TakePartition(s, b, a);
      TakeIntact(s, b, a);
      TakeProtects(s, b, a);
      TakeRequests(s, b, a);
      TakeOrder(s, b, a);
      TakeLoose(s, b, a);
    } else {
      DropKeeps(s, b, a);
    }
  }

  // --- recycling ---

  lemma ReleaseIs(s: Setup, b: Box, a: Action)
    requires a.Release? && Enabled(s, b, a)
    ensures var d, t := Do(s, b, a), Datas(b.copies);
            && d == b.(q := b.q.(arena := Put(b.q.arena, b.copies[a.i].data)), copies := d.copies)
            && |t| == |b.copies| && t[a.i] == b.copies[a.i].data && Datas(d.copies) == t[..a.i] + t[a.i + 1..]
  {
  }

  lemma PutSame(a: Arena, data: Slice)
    ensures Put(a, data).mem == a.mem && Put(a, data).slot == a.slot
  {
  }

  lemma ReleaseOwned(b: Box, d: Box, i: nat, x: nat)
    requires OwnedOnce(b, x) && i < |b.copies| && |Datas(b.copies)| == |b.copies|
    requires d.q == b.q.(arena := Put(b.q.arena, Datas(b.copies)[i]))
    requires Datas(d.copies) == Datas(b.copies)[..i] + Datas(b.copies)[i + 1..]
    ensures OwnedOnce(d, x)
  {
    hide Count, Datas, Put, Slices;
    var t := Datas(b.copies);
    CountCut(t, i, x);
    PutCount(b.q.arena, t[i], x);
    PutSame(b.q.arena, t[i]);
  }

  lemma ReleaseIntact(s: Setup, b: Box, a: Action)
    requires a.Release? && Enabled(s, b, a) && Intact(b)
    ensures Intact(Do(s, b, a))
  {
  }

  lemma ReleasePartition(s: Setup, b: Box, a: Action)
    requires a.Release? && Enabled(s, b, a) && Partitioned(b) && Intact(b)
    ensures Partitioned(Do(s, b, a)) && Intact(Do(s, b, a))
  {
    hide Do, OwnedOnce, Intact, Datas, Put;
    ReleaseIs(s, b, a);
    ReleaseIntact(s, b, a);
    forall x: nat ensures OwnedOnce(Do(s, b, a), x) {
      ReleaseOwned(b, Do(s, b, a), a.i, x);
    }
  }

  lemma PutCount(a: Arena, data: Slice, x: nat)
    ensures multiset(Put(a, data).free)[x] == multiset(a.free)[x] + (if x == data.buf && a.Pooled(data) then 1 else 0)
  {
  }

  lemma ReleaseKeeps(s: Setup, b: Box, a: Action)
    requires Inv(s, b) && a.Release? && Enabled(s, b, a)
    ensures Inv(s, Do(s, b, a))
  {
    hide Partitioned, Intact, OneRequestEach, LooseOk;
    ReleasePartition(s, b, a);
    var d := Do(s, b, a);
    LooseSame(b, d);
    forall r: Ref, n: nat | Backed(b, r, n) ensures Backed(d, r, n) {
    }
    hide Backed;
    assert OneRequestEach(d) by {
      RequestsSame(b, d);
    }
  }

  lemma RequestsSame(b: Box, d: Box)
    requires OneRequestEach(b) && Requests(d) == Requests(b) && d.q.items == b.q.items && d.sent == b.sent
    ensures OneRequestEach(d)
  {
  }

  lemma DrainPartition(b: Box, n: nat)
    requires Partitioned(b) && Intact(b)
    ensures Partitioned(b.(q := DrainFirst(b.q, n))) && Intact(b.(q := DrainFirst(b.q, n)))
  {
    hide Count, PutAll;
    var d := b.(q := DrainFirst(b.q, n));
    var p, m := b.q.pendingFree, Min(n, |b.q.pendingFree|);
    PutAllKeeps(b.q.arena, p[..m]);
    assert Intact(d);
    hide Intact, Slices, Datas;
    forall x: nat ensures OwnedOnce(d, x) {
      assert OwnedOnce(b, x);
      CountSplit(p, m, x);
      DrainCount(b.q.arena, p[..m], x);
    }
  }

  lemma DrainCount(a: Arena, ss: seq<Slice>, x: nat)
    ensures multiset(PutAll(a, ss).free)[x] ==
              multiset(a.free)[x] + (if x < |a.mem| && |a.mem[x]| == a.slot then Count(ss, x) else 0)
  {
    PutAllFrees(a, ss, x);
  }

  /** Draining below n does not reach memory backed from n on. */
  lemma DrainBacks(b: Box, n: nat, r: Ref)
    requires Backed(b, r, n)
    ensures Backed(b.(q := DrainFirst(b.q, n)), r, 0)
  {
    PutAllKeeps(b.q.arena, b.q.pendingFree[..n]);
  }

  lemma DrainKeeps(s: Setup, b: Box, a: Action)
    requires Inv(s, b) && a.Drain? && Enabled(s, b, a)
    ensures Inv(s, Do(s, b, a))
  {
    hide Partitioned, Intact, OneRequestEach, Backed, Ordered, Holding, LooseOk;
    LooseSame(b, Do(s, b, a));
    var n := if s.uring then b.mark else |b.q.pendingFree|;
    var m := b.(q := DrainFirst(b.q, n));
    var d := Do(s, b, a);
    DrainPartition(b, n);
    PhaseSame(m, d);
    RequestsSame(b, d);
    assert Ordered(s, d) by {
      OrderedSame(s, b, d);
    }
    forall i | 0 <= i < |d.older| && d.older[i].key !in d.raced ensures Backed(d, d.older[i], 0) {
      DrainBacks(b, b.mark, b.older[i]);
      BackedSame(m, d, b.older[i], 0);
    }
  }

  lemma OrderedSame(s: Setup, b: Box, d: Box)
    requires Ordered(s, b) && d.q.items == b.q.items && d.pushed == b.pushed && d.clock == b.clock
    ensures Ordered(s, d)
  {
  }

  lemma PhaseSame(b: Box, d: Box)
    requires Partitioned(b) && Intact(b)
    requires d == b.(phase := d.phase, mark := d.mark, loose := d.loose, raced := d.raced, batch := d.batch, newer := d.newer,
                     older := d.older)
    ensures Partitioned(d) && Intact(d)
  {
    hide Owners, Holding;
    forall k: Key, data: Slice | Holding(b, k, data) ensures Holding(d, k, data) {
      HoldingSame(b, d, k, data);
    }
    forall x: nat ensures OwnedOnce(d, x) {
      assert OwnedOnce(b, x);
      OwnersSame(b, d, x);
    }
  }

  lemma BackedSame(b: Box, d: Box, r: Ref, n: nat)
    requires Backed(b, r, n) && d.q == b.q && d.sent == b.sent
    ensures Backed(d, r, n) && forall m: nat :: m <= n ==> Backed(d, r, m)
  {
    forall m: nat | m <= n ensures Backed(d, r, m) {
      assert forall x :: x in b.q.pendingFree[n..] ==> x in b.q.pendingFree[m..];
    }
  }

  // --- the flush ---

  lemma FlushKeeps(s: Setup, b: Box, a: Action)
    requires Inv(s, b) && (a.Submit? || a.Complete? || a.Mark?) && Enabled(s, b, a)
    ensures Inv(s, Do(s, b, a))
  {
    hide Partitioned, Intact, OneRequestEach, Backed, Ordered, LooseOk;
    var d := Do(s, b, a);
    LooseSame(b, d);
    PhaseSame(b, d);
    RequestsSame(b, d);
    OrderedSame(s, b, d);
    forall r: Ref, n: nat, m: nat | Backed(b, r, n) && m <= n ensures Backed(d, r, m) {
      BackedSame(b, d, r, n);
    }
  }

  // --- every step ---

  lemma StepKeeps(s: Setup, b: Box, a: Action)
    requires Inv(s, b)
    ensures Inv(s, Step(s, b, a))
  {
    hide Inv, Do, Enabled;
    if Enabled(s, b, a) {
      match a
      case Send(_, _, _, _, _) => SendKeeps(s, b, a);
      case Attach(_) => AttachKeeps(s, b, a);
      case Acknowledge(_) => AcknowledgeKeeps(s, b, a);
      case Nack(_, _, _) => NackKeeps(s, b, a);
      case Timer(_, _) => TimerKeeps(s, b, a);
      case Enqueue(_) => EnqueueKeeps(s, b, a);
      case Pop => PopKeeps(s, b, a);
      case Revalidate(_, _) => RevalidateKeeps(s, b, a);
      case Release(_) => ReleaseKeeps(s, b, a);
      case Drain => DrainKeeps(s, b, a);
      case _ => FlushKeeps(s, b, a);
    }
  }

  lemma StartOwned(s: Setup, x: nat)
    ensures OwnedOnce(Start(s), x)
  {
    assert Bufs([]) == [];
  }

  lemma StartOk(s: Setup)
    ensures Inv(s, Start(s))
  {
    hide OwnedOnce, Count;
    forall x: nat ensures OwnedOnce(Start(s), x) {
      StartOwned(s, x);
    }
    assert Requests(Start(s)) == [];
  }

  /** The invariant holds after every schedule. */
  lemma {:induction false} RunOk(s: Setup, acts: seq<Action>)
    ensures Inv(s, Run(s, acts))
  {
    hide Inv, Step, Start;
    if acts == [] {
      StartOk(s);
    } else {
      RunOk(s, acts[..|acts| - 1]);
      StepKeeps(s, Run(s, acts[..|acts| - 1]), acts[|acts| - 1]);
    }
  }

  // --- what it means ---

  /** At any moment each buffer of the pool is in exactly one place: an entry, pendingFree, the free list, or the worker. */
  lemma BuffersPartitioned(s: Setup, acts: seq<Action>, x: nat)
    requires x < |Run(s, acts).q.arena.mem|
    ensures var b := Run(s, acts);
            Owners(b, x) <= 1 && (|b.q.arena.mem[x]| == s.slot ==> Owners(b, x) == 1)
  {
    RunOk(s, acts);
    SlotFixed(s, acts);
    assert OwnedOnce(Run(s, acts), x);
  }

  lemma {:induction false} SlotFixed(s: Setup, acts: seq<Action>)
    ensures Run(s, acts).q.arena.slot == s.slot
  {
    if acts != [] {
      var b, a := Run(s, acts[..|acts| - 1]), acts[|acts| - 1];
      SlotFixed(s, acts[..|acts| - 1]);
      if a.Drain? {
        PutAllKeeps(b.q.arena, b.q.pendingFree[..Min(if s.uring then b.mark else |b.q.pendingFree|, |b.q.pendingFree|)]);
      }
    }
  }

  /** Frames stored for sending, batches being built, and batches possibly still read by the kernel. */
  function Referenced(b: Box): seq<Ref> {
    b.loose + b.batch + b.newer + b.older
  }

  lemma BackedSomehow(s: Setup, b: Box, r: Ref)
    requires Inv(s, b) && r in Referenced(b) && r.key !in b.raced
    ensures exists n: nat :: Backed(b, r, n)
  {
    hide Partitioned, OneRequestEach, Ordered, Holding;
    if r in b.loose {
      var it :| it in b.q.items && it.key == r.key && it.data == r.data;
      var j :| 0 <= j < |b.q.items| && b.q.items[j] == it;
      assert Slices(b.q.items)[j] == r.data;
      assert Backed(b, r, 0);
    }
  }

  /**
   * Zero-copy lifetime: in every run, memory referenced for a frame that was not removed
   * between being stored and being queued is neither free nor in the worker's hands, and holds
   * exactly the payload its frame was sent with.
   */
  lemma KernelReadsTheFrame(s: Setup, acts: seq<Action>, r: Ref)
    requires r in Referenced(Run(s, acts)) && r.key !in Run(s, acts).raced
    ensures var b := Run(s, acts);
            && b.q.arena.Fits(r.data) && r.key in b.sent && b.q.arena.Read(r.data) == b.sent[r.key]
            && r.data.buf !in b.q.arena.free
            && (forall c :: c in b.copies ==> c.data.buf != r.data.buf)
  {
    hide Intact, OneRequestEach, Ordered;
    RunOk(s, acts);
    var b := Run(s, acts);
    BackedSomehow(s, b, r);
    var n :| Backed(b, r, n);
    var x := r.data.buf;
    assert OwnedOnce(b, x);
    InUse(b, r.data);
    forall c | c in b.copies ensures c.data.buf != x {
      var i :| 0 <= i < |b.copies| && b.copies[i] == c;
      assert Datas(b.copies)[i] == c.data;
      CountIn(Datas(b.copies), c.data);
      if r.data in Slices(b.q.items) {
        CountIn(Slices(b.q.items), r.data);
      } else {
        CountIn(b.q.pendingFree, r.data);
      }
    }
  }

  /** Retransmissions repeat the original payload: entries and worker copies never change content. */
  lemma ResendsAreFaithful(s: Setup, acts: seq<Action>)
    ensures var b := Run(s, acts);
            && (forall it :: it in b.q.items ==> Holding(b, it.key, it.data))
            && (forall c :: c in b.copies ==> Holding(b, c.key, c.data))
  {
    RunOk(s, acts);
  }

  /** A live frame is flagged exactly when one request for it is waiting or in the worker's hands; no key is requested twice. */
  lemma OneRequestPerFrame(s: Setup, acts: seq<Action>, k: Key)
    ensures var b := Run(s, acts);
            && multiset(Requests(b))[k] <= 1
            && (forall it :: it in b.q.items && it.key == k ==> (it.queued <==> multiset(Requests(b))[k] == 1))
  {
    RunOk(s, acts);
    var b := Run(s, acts);
    assert k in Requests(b) <==> multiset(Requests(b))[k] > 0;
    hide Requests;
  }

  // --- each stream's share ---

  lemma InvSized(s: Setup, b: Box)
    requires Inv(s, b)
    ensures Sized(b.q) && Unique(b.q.items)
  {
    hide Partitioned, Protected, OneRequestEach, Ordered;
  }

  /** A stream's share of the queue is the frames it sent that are still outstanding. */
  lemma ShareIsSent(s: Setup, b: Box, stream: nat, sn: nat)
    requires Inv(s, b) && Sized(b.q)
    ensures sn in Pending(b.q, stream) <==> Holds(b.q.items, (stream, sn))
    ensures sn in Pending(b.q, stream) ==> (stream, sn) in b.sent && Pending(b.q, stream)[sn] == b.sent[(stream, sn)]
  {
    hide Partitioned, Protected, OneRequestEach, Ordered, Pending;
    PendingOnly(b.q, stream, sn);
    var i := Pos(b.q.items, (stream, sn));
    if i < |b.q.items| {
      PendingIs(b.q, stream, i);
    }
  }

  predicate HasKey(items: seq<Item>, k: Key) {
    exists it :: it in items && it.key == k
  }

  lemma HoldsKey(items: seq<Item>, k: Key)
    ensures Holds(items, k) <==> HasKey(items, k)
  {
    var i := Pos(items, k);
    if i < |items| {
      assert items[i] in items;
    }
  }

  lemma TakeKeys(s: Setup, b: Box, a: Action, k: Key)
    requires Takes(s, b, a)
    ensures HasKey(Do(s, b, a).q.items, k) <==> HasKey(b.q.items, k)
  {
    hide Do, Store, RemoveAt;
    TakeIs(s, b, a);
    var i := Pos(b.q.items, b.hand[0]);
    var moved := b.q.items[i].(queued := false, sentAt := a.sample, retries := b.q.items[i].retries + 1);
    if HasKey(b.q.items, k) {
      var it :| it in b.q.items && it.key == k;
      MovedStays(b.q.items, i, moved, it);
    }
    if HasKey(Do(s, b, a).q.items, k) {
      var it :| it in RemoveAt(b.q.items, i) + [moved] && it.key == k;
      MovedFrom(b.q.items, i, it);
    }
  }

  lemma MovedFrom(items: seq<Item>, i: nat, it: Item)
    requires i < |items|
    ensures it in RemoveAt(items, i) ==> it in items
  {
  }

  lemma ReflaggedKeys(items: seq<Item>, was: seq<Item>, k: Key)
    requires Reflagged(items, was)
    ensures HasKey(items, k) <==> HasKey(was, k)
  {
    if HasKey(was, k) {
      var it :| it in was && it.key == k;
      var i :| 0 <= i < |was| && was[i] == it;
      assert items[i] in items;
    }
    if HasKey(items, k) {
      var it :| it in items && it.key == k;
      var i :| 0 <= i < |items| && items[i] == it;
      assert was[i] in was;
    }
  }

  /** Which keys are outstanding changes only by sending and by removal. */
  lemma KeysStep(s: Setup, b: Box, a: Action, k: Key)
    requires Inv(s, b)
    ensures HasKey(Step(s, b, a).q.items, k) <==>
              (a.Send? && Enabled(s, b, a) && a.k == k) ||
              (HasKey(b.q.items, k) && !(a.Acknowledge? && Enabled(s, b, a) && a.k == k))
  {
    hide Store, Partitioned, Protected, OneRequestEach, Ordered, Intact, LooseOk, PutAll;
    if Enabled(s, b, a) {
      if a.Acknowledge? {
        if Holds(b.q.items, a.k) {
          AckKeys(b.q, a.k, k);
        } else {
          HoldsKey(b.q.items, a.k);
        }
      } else if a.Timer? {
        DueFlags(b.q, a.rto, a.now);
        ReflaggedKeys(Due(b.q, a.rto, a.now).q.items, b.q.items, k);
      } else if a.Nack? {
        ReflaggedKeys(Request(b.q, a.k, a.minAge, a.now).q.items, b.q.items, k);
      } else if Takes(s, b, a) {
        TakeKeys(s, b, a, k);
      } else if a.Send? {
        SendKeys(s, b, a, k);
      }
    }
  }

  lemma AckKeys(q: Queue, gone: Key, k: Key)
    requires Unique(q.items) && Holds(q.items, gone)
    ensures HasKey(Remove(q, gone).items, k) <==> HasKey(q.items, k) && k != gone
  {
    hide RemoveAt;
    var i := Pos(q.items, gone);
    forall it ensures it in RemoveAt(q.items, i) <==> it in q.items && it.key != gone {
      RemoveAtKeeps(q.items, i, it);
    }
  }

  lemma SendKeys(s: Setup, b: Box, a: Action, k: Key)
    requires a.Send? && Enabled(s, b, a)
    ensures HasKey(Do(s, b, a).q.items, k) <==> HasKey(b.q.items, k) || a.k == k
  {
    hide Store;
    var items := Do(s, b, a).q.items;
    assert items[|b.q.items|] in items && items[|b.q.items|].key == a.k;
    forall it | it in b.q.items ensures it in items {
    }
  }

  lemma SentStep(s: Setup, b: Box, a: Action, k: Key)
    requires k in b.sent
    ensures k in Step(s, b, a).sent && Step(s, b, a).sent[k] == b.sent[k]
  {
    hide Store, PutAll;
  }

  /** What a step does to one stream's ledger: sending adds the frame, removal removes it, nothing else touches it. */
  function ShareAfter(s: Setup, b: Box, a: Action, stream: nat, u: Ledger.Unacked): Ledger.Unacked {
    if a.Send? && Enabled(s, b, a) && a.k.0 == stream then u[a.k.1 := a.payload]
    else if a.Acknowledge? && Enabled(s, b, a) && a.k.0 == stream then Ledger.Remove(u, a.k.1).rest
    else u
  }

  /** In every state, every step does exactly that to every stream's share of the queue. */
  lemma ShareStep(s: Setup, b: Box, a: Action, stream: nat)
    requires Inv(s, b)
    ensures Sized(b.q) && Sized(Step(s, b, a).q)
    ensures Pending(Step(s, b, a).q, stream) == ShareAfter(s, b, a, stream, Pending(b.q, stream))
  {
    hide Inv, Step, Pending, Sized, Unique, Enabled;
    var d := Step(s, b, a);
    StepKeeps(s, b, a);
    InvSized(s, b);
    InvSized(s, d);
    var u := Pending(b.q, stream);
    var t, w := Pending(d.q, stream), ShareAfter(s, b, a, stream, u);
    forall sn: nat ensures (sn in t <==> sn in w) && (sn in t ==> t[sn] == w[sn]) {
      var k: Key := (stream, sn);
      ShareIsSent(s, b, stream, sn);
      ShareIsSent(s, d, stream, sn);
      HoldsKey(b.q.items, k);
      HoldsKey(d.q.items, k);
      KeysStep(s, b, a, k);
      if k in b.sent {
        SentStep(s, b, a, k);
      }
      if a.Send? && Enabled(s, b, a) && a.k == k {
        SentNow(s, b, a);
      }
    }
    assert t == w;
  }

  lemma SentNow(s: Setup, b: Box, a: Action)
    requires a.Send? && Enabled(s, b, a)
    ensures a.k in Step(s, b, a).sent && Step(s, b, a).sent[a.k] == a.payload
  {
    hide Store;
  }

  /** Once acknowledged, a frame never returns, so its waiting request is discarded when revalidated. */
  lemma GoneForGood(s: Setup, b: Box, a: Action, k: Key)
    requires Inv(s, b) && k in b.sent && !Holds(b.q.items, k)
    ensures k in Step(s, b, a).sent && !Holds(Step(s, b, a).q.items, k)
  {
    hide Inv, Step, Enabled;
    HoldsKey(b.q.items, k);
    HoldsKey(Step(s, b, a).q.items, k);
    KeysStep(s, b, a, k);
    SentStep(s, b, a, k);
    FreshOnly(s, b, a);
  }

  lemma FreshOnly(s: Setup, b: Box, a: Action)
    ensures a.Send? && Enabled(s, b, a) ==> a.k !in b.sent
  {
  }

  lemma {:induction false} NeverResentOnceAcked(s: Setup, acts: seq<Action>, more: seq<Action>, k: Key)
    requires k in Run(s, acts).sent && !Holds(Run(s, acts).q.items, k)
    ensures k in Run(s, acts + more).sent && !Holds(Run(s, acts + more).q.items, k)
  {
    hide Step, Inv, Start;
    if more == [] {
      assert acts + more == acts;
    } else {
      var n := |more| - 1;
      NeverResentOnceAcked(s, acts, more[..n], k);
      RunOk(s, acts + more[..n]);
      assert (acts + more)[..|acts + more| - 1] == acts + more[..n];
      GoneForGood(s, Run(s, acts + more[..n]), more[n], k);
    }
  }

  /** In every run the timer's early exit misses no frame overdue by more than the clock skew; without skew it is exact. */
  lemma TimerMissesNothing(s: Setup, acts: seq<Action>, rto: int, now: int, k: Key)
    ensures var b := Run(s, acts);
            var asks := Due(b.q, rto, now).requests;
            && (k in asks ==> exists it :: it in b.q.items && it.key == k && Overdue(it, rto, now))
            && ((exists it :: it in b.q.items && it.key == k && Overdue(it, rto + s.skew, now)) ==> k in asks)
  {
    hide Partitioned, Protected, OneRequestEach, Intact, Due;
    RunOk(s, acts);
    var b := Run(s, acts);
    if k in Due(b.q, rto, now).requests {
      DueSound(b.q, rto, now, k);
    }
    if it :| it in b.q.items && it.key == k && Overdue(it, rto + s.skew, now) {
      var i :| 0 <= i < |b.q.items| && b.q.items[i] == it;
      DueComplete(b.q, b.pushed, s.skew, rto, now, i);
    }
  }

  lemma RecycledIsFree(a: Arena, p: seq<Slice>, data: Slice)
    requires data in p && a.Pooled(data)
    ensures data.buf in PutAll(a, p).free
  {
    CountIn(p, data);
    PutAllFrees(a, p, data.buf);
    assert multiset(PutAll(a, p).free)[data.buf] > 0;
  }

  /** A whole synchronous flush recycles everything that waits. */
  lemma SyncFlush(s: Setup, b: Box)
    requires !s.uring && b.phase.Building?
    ensures Step(s, Step(s, Step(s, b, Submit), Complete), Drain) ==
              b.(q := Queue(b.q.items, [], PutAll(b.q.arena, b.q.pendingFree)), batch := [], newer := [], older := [])
  {
    hide PutAll;
    var p := b.q.pendingFree;
    assert p[..|p|] == p;
    var c := Step(s, Step(s, b, Submit), Complete);
    assert c == b.(batch := [], newer := [], older := [], phase := Draining);
  }

  /** Removing a frame that is still in the list moves its slice to the end of pendingFree. */
  lemma RemoveRegistered(b: Box, r: Ref)
    requires Unique(b.q.items) && Registered(b, r)
    ensures Remove(b.q, r.key) == Queue(Remove(b.q, r.key).items, b.q.pendingFree + [r.data], b.q.arena)
  {
    var it :| it in b.q.items && it.key == r.key && it.data == r.data;
    var j :| 0 <= j < |b.q.items| && b.q.items[j] == it;
    PosIs(b.q.items, j);
  }

  /** One io_uring flush, the mark then covering everything that waits. */
  function UringFlush(s: Setup, b: Box): Box {
    Step(s, Step(s, Step(s, Step(s, b, Submit), Complete), Drain), Mark)
  }

  lemma UringFlushIs(s: Setup, b: Box)
    requires s.uring && b.phase.Building?
    ensures var d, n := UringFlush(s, b), Min(b.mark, |b.q.pendingFree|);
            && d == b.(q := d.q, batch := [], newer := [], older := d.older, mark := |d.q.pendingFree|)
            && d.q == Queue(b.q.items, b.q.pendingFree[n..], PutAll(b.q.arena, b.q.pendingFree[..n]))
  {
    hide PutAll;
    var c := Step(s, Step(s, b, Submit), Complete);
    assert c == b.(batch := [], newer := [], older := b.batch, phase := Draining);
  }

  /** Two io_uring flushes recycle whatever waited before the first. */
  lemma TwoFlushes(s: Setup, b: Box, data: Slice)
    requires s.uring && b.phase.Building? && data in b.q.pendingFree && b.q.arena.Pooled(data)
    ensures var d := UringFlush(s, UringFlush(s, b));
            d.phase.Building? && d.loose == b.loose && data.buf in d.q.arena.free
  {
    hide UringFlush, PutAll;
    var p, n := b.q.pendingFree, Min(b.mark, |b.q.pendingFree|);
    UringFlushIs(s, b);
    var c := UringFlush(s, b);
    UringFlushIs(s, c);
    PutAllKeeps(b.q.arena, p[..n]);
    assert p == p[..n] + p[n..];
    assert c.q.pendingFree[..c.mark] == p[n..];
    if data in p[n..] {
      RecycledIsFree(c.q.arena, p[n..], data);
    } else {
      RecycledIsFree(b.q.arena, p[..n], data);
      StaysFree(c.q.arena, p[n..], data.buf);
    }
  }

  lemma {:induction false} StaysFree(a: Arena, ss: seq<Slice>, x: nat)
    requires x in a.free
    ensures x in PutAll(a, ss).free
  {
    if ss != [] {
      StaysFree(a, ss[..|ss| - 1], x);
    }
  }

  /** The flushes it takes until what waits now has been recycled: one, or with io_uring two. */
  function Flushes(s: Setup, b: Box): Box {
    if s.uring then UringFlush(s, UringFlush(s, b)) else Step(s, Step(s, Step(s, b, Submit), Complete), Drain)
  }

  lemma FlushesRecycle(s: Setup, b: Box, data: Slice)
    requires b.phase.Building? && data in b.q.pendingFree && b.q.arena.Pooled(data)
    ensures var d := Flushes(s, b);
            d.phase.Building? && d.loose == b.loose && data.buf in d.q.arena.free
  {
    hide Step, PutAll, UringFlush;
    if s.uring {
      TwoFlushes(s, b, data);
    } else {
      SyncFlush(s, b);
      RecycledIsFree(b.q.arena, b.q.pendingFree, data);
    }
  }

  /**
   * That condition is needed: whenever a stored frame that is not queued yet is removed,
   * flushing before it is queued puts its buffer back into the pool, and the batch then
   * references free memory.
   */
  lemma RemovalBeforeQueueing(s: Setup, b: Box, i: nat)
    requires Unique(b.q.items) && b.phase.Building? && i < |b.loose| && Registered(b, b.loose[i])
    requires b.q.arena.Pooled(b.loose[i].data)
    ensures var r := b.loose[i];
            var d := Step(s, Flushes(s, Step(s, b, Acknowledge(r.key))), Attach(i));
            r in d.batch && r.data.buf in d.q.arena.free
  {
    hide PutAll, Remove, Flushes;
    var r := b.loose[i];
    RemoveRegistered(b, r);
    var b1 := Step(s, b, Acknowledge(r.key));
    assert b1 == b.(q := Remove(b.q, r.key), raced := b1.raced);
    FlushesRecycle(s, b1, r.data);
  }

  function Flushing(s: Setup): seq<Action> {
    if s.uring then [Submit, Complete, Drain, Mark, Submit, Complete, Drain, Mark] else [Submit, Complete, Drain]
  }

  /** The shortest such run: a frame is stored, removed, and queued after the flush that recycled its buffer. */
  function RaceRun(s: Setup, k: Key, payload: Bytes): seq<Action> {
    [Send(k, 0, payload, 0, 0), Acknowledge(k)] + Flushing(s) + [Attach(0)]
  }

  lemma RunSnoc(s: Setup, acts: seq<Action>, a: Action)
    ensures Run(s, acts + [a]) == Step(s, Run(s, acts), a)
  {
    assert (acts + [a])[..|acts|] == acts;
  }

  lemma RunFlushing(s: Setup, acts: seq<Action>)
    ensures Run(s, acts + Flushing(s)) == Flushes(s, Run(s, acts))
  {
    hide Step, Run;
    var f := Flushing(s);
    var a1, a2, a3 := acts + [Submit], acts + [Submit] + [Complete], acts + [Submit] + [Complete] + [Drain];
    RunSnoc(s, acts, Submit);
    RunSnoc(s, a1, Complete);
    RunSnoc(s, a2, Drain);
    if s.uring {
      var a4 := a3 + [Mark];
      RunSnoc(s, a3, Mark);
      RunSnoc(s, a4, Submit);
      RunSnoc(s, a4 + [Submit], Complete);
      RunSnoc(s, a4 + [Submit] + [Complete], Drain);
      RunSnoc(s, a4 + [Submit] + [Complete] + [Drain], Mark);
      assert acts + f == a4 + [Submit] + [Complete] + [Drain] + [Mark];
    } else {
      assert acts + f == a3;
    }
  }

  lemma StoredPooled(a: Arena, payload: Bytes)
    requires a.Sound() && |payload| <= a.slot
    ensures Store(a, payload).a.Pooled(Store(a, payload).s)
  {
  }

  lemma FirstSend(s: Setup, k: Key, payload: Bytes)
    requires |payload| <= s.slot
    ensures var b := Run(s, [Send(k, 0, payload, 0, 0)]);
            && Unique(b.q.items) && b.phase.Building? && |b.loose| == 1 && b.loose[0].key == k && Registered(b, b.loose[0])
            && b.q.arena.Pooled(b.loose[0].data)
  {
    hide Store, Do, Run;
    var b0, a := Start(s), Send(k, 0, payload, 0, 0);
    FirstRun(s, a);
    SendIs(s, b0, a);
    StoredPooled(b0.q.arena, payload);
    var b := Do(s, b0, a);
    assert |b.q.items| == 1 && b.q.items[0] in b.q.items;
    assert Registered(b, b.loose[0]);
  }

  lemma FirstRun(s: Setup, a: Action)
    requires Enabled(s, Start(s), a)
    ensures Run(s, [a]) == Do(s, Start(s), a)
  {
    hide Do, Enabled;
    assert [a][..0] == [];
  }

  /** For sendmmsg and io_uring alike, that run ends with a batch that references a free buffer. */
  lemma RaceIsReachable(s: Setup, k: Key, payload: Bytes)
    requires |payload| <= s.slot
    ensures var d := Run(s, RaceRun(s, k, payload));
            exists r :: r in d.batch && r.key == k && r.data.buf in d.q.arena.free
  {
    hide Step, Run, Flushes, LooseOk, Unique;
    var a := [Send(k, 0, payload, 0, 0)];
    FirstSend(s, k, payload);
    var b := Run(s, a);
    RemovalBeforeQueueing(s, b, 0);
    var a1 := a + [Acknowledge(k)];
    RunSnoc(s, a, Acknowledge(k));
    RunFlushing(s, a1);
    RunSnoc(s, a1 + Flushing(s), Attach(0));
    assert RaceRun(s, k, payload) == a1 + Flushing(s) + [Attach(0)];
  }
}
