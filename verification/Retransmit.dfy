/**
 * The retransmit queue as it is stored: a hash map for lookup by key, and an intrusive
 * doubly-linked list that keeps the same entries in the order they were last sent.
 */
module Retransmit {
  import opened Bytes
  import opened Arenas
  import opened Outstanding
  import Ledger

  class Entry {
    var it: Item
    var prev: Entry?
    var next: Entry?

    constructor (it: Item)
      ensures this.it == it && prev == null && next == null
    {
      this.it := it;
      prev, next := null, null;
    }
  }

  ghost function At(order: seq<Entry>, i: int): Entry? {
    if 0 <= i < |order| then order[i] else null
  }

  ghost predicate Distinct(order: seq<Entry>) {
    forall i, j :: 0 <= i < j < |order| ==> order[i] != order[j]
  }

  /** The entries of order are distinct and chained in that order between head and tail. */
  ghost predicate Chained(order: seq<Entry>, head: Entry?, tail: Entry?)
    reads (set e | e in order)`prev, (set e | e in order)`next
  {
    && Distinct(order)
    && head == At(order, 0) && tail == At(order, |order| - 1)
    && (forall i {:trigger order[i].prev} :: 0 <= i < |order| ==> order[i].prev == At(order, i - 1))
    && (forall i {:trigger order[i].next} :: 0 <= i < |order| ==> order[i].next == At(order, i + 1))
  }

  lemma Follow(order: seq<Entry>, head: Entry?, tail: Entry?, i: nat)
    requires Chained(order, head, tail)
    ensures head == At(order, 0)
    ensures i < |order| ==> order[i].next == At(order, i + 1)
    ensures i == |order| ==> At(order, i) == null
    ensures i < |order| ==> At(order, i) == order[i]
  {
  }

  lemma AtIs(order: seq<Entry>)
    ensures forall i {:trigger At(order, i)} :: At(order, i) == null <==> !(0 <= i < |order|)
    ensures forall i {:trigger At(order, i)} :: 0 <= i < |order| ==> At(order, i) == order[i] && order[i] in order
  {
  }

  lemma AtOne(order: seq<Entry>, i: int)
    ensures At(order, i) == null <==> !(0 <= i < |order|)
    ensures 0 <= i < |order| ==> At(order, i) == order[i] && order[i] in order
  {
  }

  lemma SnocAt(order: seq<Entry>, e: Entry)
    ensures forall i {:trigger At(order + [e], i)} :: At(order + [e], i) == if i == |order| then e else At(order, i)
    ensures Distinct(order) && e !in order ==> Distinct(order + [e])
  {
  }

  lemma CutAt(order: seq<Entry>, i: nat)
    requires i < |order|
    ensures var c := Cut(order, i);
            && |c| == |order| - 1
            && (forall j {:trigger At(c, j)} :: At(c, j) == At(order, if j < i then j else j + 1))
            && (forall j {:trigger c[j]} :: 0 <= j < |c| ==> c[j] == order[if j < i then j else j + 1])
            && (Distinct(order) ==> Distinct(c) && order[i] !in c)
  {
    var c := Cut(order, i);
    assert forall j :: 0 <= j < |c| ==> c[j] == order[if j < i then j else j + 1];
  }

  /** No other entry stands where the i-th does. */
  lemma Only(order: seq<Entry>, i: int)
    requires Distinct(order)
    ensures forall m :: 0 <= m < |order| && m != i ==> order[m] != At(order, i)
  {
  }

  ghost function Items(order: seq<Entry>): (r: seq<Item>)
    reads (set e | e in order)`it
    ensures |r| == |order| && forall i :: 0 <= i < |order| ==> r[i] == order[i].it
  {
    if order == [] then [] else [order[0].it] + Items(order[1..])
  }

  lemma ItemsCut(order: seq<Entry>, i: nat)
    requires i < |order|
    ensures Items(Cut(order, i)) == RemoveAt(Items(order), i)
    ensures forall x :: x in Cut(order, i) ==> x in order
  {
    hide Items;
  }

  lemma ItemsSnoc(order: seq<Entry>, e: Entry)
    ensures Items(order + [e]) == Items(order) + [e.it]
  {
    hide Items;
  }

  /** The map and the list hold the same entries. */
  ghost predicate Indexed(entries: map<Key, Entry>, order: seq<Entry>, items: seq<Item>) {
    && |items| == |order| && Unique(items)
    && (forall i :: 0 <= i < |order| ==> items[i].key in entries && entries[items[i].key] == order[i])
    && (forall k :: k in entries ==> Holds(items, k))
  }

  lemma Lookup(entries: map<Key, Entry>, order: seq<Entry>, items: seq<Item>, k: Key)
    requires Indexed(entries, order, items)
    ensures |items| == |order| && Unique(items)
    ensures k in entries <==> Holds(items, k)
    ensures k in entries ==> entries[k] == order[Pos(items, k)]
  {
  }

  lemma IndexedSet(entries: map<Key, Entry>, order: seq<Entry>, items: seq<Item>, i: nat, it: Item)
    requires Indexed(entries, order, items) && i < |items| && it.key == items[i].key
    ensures Indexed(entries, order, items[i := it])
  {
    forall k | k in entries ensures Holds(items[i := it], k) {
      assert items[i := it][Pos(items, k)].key == k;
    }
  }

  lemma CutHolds(items: seq<Item>, i: nat, x: Key)
    requires Unique(items) && i < |items| && Holds(items, x) && x != items[i].key
    ensures Holds(RemoveAt(items, i), x)
  {
    var j := Pos(items, x);
    assert RemoveAt(items, i)[if j < i then j else j - 1].key == x;
  }

  lemma CutSame(entries: map<Key, Entry>, order: seq<Entry>, items: seq<Item>, i: nat, j: nat)
    requires Indexed(entries, order, items) && i < |items| && j < |items| - 1
    ensures |RemoveAt(items, i)| == |Cut(order, i)| == |items| - 1
    ensures var it := RemoveAt(items, i)[j];
            it.key in entries && it.key != items[i].key && entries[it.key] == Cut(order, i)[j]
  {
    var m := if j < i then j else j + 1;
    assert RemoveAt(items, i)[j] == items[m] && Cut(order, i)[j] == order[m];
    hide Holds;
  }

  lemma CutSizes(order: seq<Entry>, items: seq<Item>, i: nat)
    requires |order| == |items| && i < |items|
    ensures |RemoveAt(items, i)| == |Cut(order, i)| == |items| - 1
  {
  }

  lemma IndexedCut(entries: map<Key, Entry>, order: seq<Entry>, items: seq<Item>, k: Key)
    requires Indexed(entries, order, items) && k in entries
    ensures var i := Pos(items, k);
            Indexed(entries - {k}, Cut(order, i), RemoveAt(items, i))
  {
    hide Unique, RemoveAt, Cut, Holds;
    Lookup(entries, order, items, k);
    KeyAt(items, k);
    var i := Pos(items, k);
    var r, o := RemoveAt(items, i), Cut(order, i);
    RemoveAtKeeps(items, i, items[i]);
    CutSizes(order, items, i);
    forall j | 0 <= j < |r| ensures r[j].key in entries - {k} && (entries - {k})[r[j].key] == o[j] {
      CutSame(entries, order, items, i, j);
    }
    forall x | x in entries - {k} ensures Holds(r, x) {
      CutHolds(items, i, x);
    }
  }

  lemma KeyAt(items: seq<Item>, k: Key)
    requires Holds(items, k)
    ensures Pos(items, k) < |items| && items[Pos(items, k)].key == k
  {
  }

  lemma IndexedSnoc(entries: map<Key, Entry>, order: seq<Entry>, items: seq<Item>, e: Entry, it: Item)
    requires Indexed(entries, order, items) && it.key !in entries
    ensures Indexed(entries[it.key := e], order + [e], items + [it])
  {
    forall x | x in entries[it.key := e] ensures Holds(items + [it], x) {
      var j := if x == it.key then |items| else Pos(items, x);
      assert (items + [it])[j].key == x;
    }
  }

  ghost function Cut(order: seq<Entry>, i: nat): seq<Entry>
    requires i < |order|
  {
    order[..i] + order[i + 1..]
  }

  class RetransmitQueue {
    var entries: map<Key, Entry>
    var head: Entry?
    var tail: Entry?
    var freeEntries: seq<Entry>
    const arena: RetransmitArena
    var pendingFree: seq<Slice>
    var ackedThrough: map<nat, nat>
    ghost var order: seq<Entry>
    ghost var nodes: set<Entry>     // every entry struct the queue owns, listed or pooled

    ghost function View(): Queue
      reads this`order, this`pendingFree, arena, (set e | e in order)`it
    {
      Queue(Items(order), pendingFree, arena.View())
    }

    /** The pool of entry structs shares nothing with the list. */
    ghost predicate PoolOk()
      reads this`order, this`nodes, this`freeEntries
    {
      && (forall e :: e in order ==> e in nodes)
      && (forall i :: 0 <= i < |freeEntries| ==> freeEntries[i] in nodes && freeEntries[i] !in order)
      && (forall i, j :: 0 <= i < j < |freeEntries| ==> freeEntries[i] != freeEntries[j])
    }

    ghost predicate Valid()
      reads this`entries, this`head, this`tail, this`freeEntries, this`pendingFree, this`order, this`nodes
      reads arena, set e | e in order
    {
      PoolOk() && Chained(order, head, tail) && Indexed(entries, order, Items(order)) && Sized(View())
    }

    constructor (maxPayload: nat)
      ensures Valid() && fresh(arena) && nodes == {}
      ensures View() == Queue([], [], Arena(maxPayload, [], [])) && ackedThrough == map[]
    {
      arena := new RetransmitArena(maxPayload);
      entries, ackedThrough := map[], map[];
      head, tail := null, null;
      freeEntries, pendingFree, order, nodes := [], [], [], {};
    }

    // --- the list ---

    method PushTail(e: Entry)
      requires Chained(order, head, tail) && e !in order
      modifies this`head, this`tail, this`order, e`next, e`prev, (set x | x in order)`next
      ensures order == old(order) + [e] && Chained(order, head, tail)
      ensures Items(order) == old(Items(order)) + [e.it]
    {
      hide At, Distinct, Items;
      ItemsSnoc(order, e);
      ghost var was := order;
      AtIs(was);
      SnocAt(was, e);
      Only(was, |was| - 1);
      e.next := null;
      e.prev := tail;
      if tail != null {
        tail.next := e;
      } else {
        head := e;
      }
      tail := e;
      order := order + [e];
    }

    method Unlink(e: Entry, ghost i: nat)
      requires Chained(order, head, tail) && i < |order| && order[i] == e
      modifies this`head, this`tail, this`order, (set x | x in order)`next, (set x | x in order)`prev
      ensures order == Cut(old(order), i) && Chained(order, head, tail) && e !in order
    {
      hide At, Distinct, Cut;
      ghost var was := order;
      AtOne(was, i - 1);
      AtOne(was, i + 1);
      CutAt(was, i);
      Only(was, i - 1);
      Only(was, i);
      Only(was, i + 1);
      if e.prev != null {
        e.prev.next := e.next;
      } else {
        head := e.next;
      }
      if e.next != null {
        e.next.prev := e.prev;
      } else {
        tail := e.prev;
      }
      e.prev, e.next := null, null;
      order := Cut(order, i);
    }

    // --- entries ---

    method GetEntry(it: Item) returns (e: Entry)
      requires PoolOk()
      modifies this`freeEntries, this`nodes, freeEntries
      ensures PoolOk() && e in nodes && e !in order && e !in freeEntries && e.it == it
      ensures e in old(freeEntries) || fresh(e)
      ensures fresh(nodes - old(nodes)) && old(nodes) <= nodes
      ensures forall x :: x in order ==> old(allocated(x)) && unchanged(x)
    {
      var n := |freeEntries|;
      if n > 0 {
        e := freeEntries[n - 1];
        freeEntries := freeEntries[..n - 1];
        e.it := it;
      } else {
        e := new Entry(it);
        nodes := nodes + {e};
      }
    }

    method RemoveLocked(k: Key, e: Entry)
      requires Valid() && k in entries && entries[k] == e
      modifies this`head, this`tail, this`order, this`entries, this`freeEntries, this`pendingFree, nodes
      ensures Valid() && View() == Remove(old(View()), k)
      ensures entries == old(entries) - {k}
    {
      hide Chained, Indexed, Items, Pos, RemoveAt, Cut, Sized;
      ghost var i, items := Pos(Items(order), k), Items(order);
      Lookup(entries, order, items, k);
      IndexedCut(entries, order, items, k);
      RemoveKeeps(View(), k);
      ItemsCut(order, i);
      Unlink(e, i);
      pendingFree := pendingFree + [e.it.data];
      freeEntries := freeEntries + [e];
      entries := entries - {k};
    }

    /** Puts an entry for the item into the map and at the end of the list. */
    method Link(it: Item)
      requires PoolOk() && Chained(order, head, tail) && Indexed(entries, order, Items(order)) && it.key !in entries
      modifies this`entries, this`head, this`tail, this`order, this`freeEntries, this`nodes, nodes
      ensures PoolOk() && Chained(order, head, tail) && Indexed(entries, order, Items(order))
      ensures Items(order) == old(Items(order)) + [it] && fresh(nodes - old(nodes))
    {
      hide Chained, Indexed, Items;
      var e := GetEntry(it);
      IndexedSnoc(entries, order, Items(order), e, it);
      entries := entries[it.key := e];
      PushTail(e);
    }

    method Add(k: Key, ftype: nat, payload: Bytes, now: int) returns (data: Slice)
      requires Valid() && k !in entries
      modifies this, arena, nodes
      ensures Valid() && View() == Outstanding.Add(old(View()), k, ftype, payload, now)
      ensures View().items != [] && data == View().items[|View().items| - 1].data
      ensures ackedThrough == old(ackedThrough) && fresh(nodes - old(nodes))
    {
      hide Chained, Indexed, Items, Sized, Store, PoolOk;
      AddKeeps(View(), k, ftype, payload, now);
      data := arena.TakeCopy(payload);
      Link(Item(k, ftype, data, now, 0, false));
    }

    // --- acknowledgement ---

    method AckMany(stream: nat, seqs: seq<nat>, now: int) returns (freed: nat, sample: int)
      requires Valid()
      modifies this`head, this`tail, this`order, this`entries, this`freeEntries, this`pendingFree, nodes
      ensures Valid() && Acked(View(), freed, sample) == AckList(old(View()), stream, seqs, now)
    {
      hide Valid, View, AckStep;
      freed, sample := 0, 0;
      for n := 0 to |seqs|
        invariant Valid()
        invariant Acked(View(), freed, sample) == AckList(old(View()), stream, seqs[..n], now)
      {
        assert seqs[..n + 1][..n] == seqs[..n];
        freed, sample := AckKey((stream, seqs[n]), now, freed, sample);
      }
      assert seqs[..|seqs|] == seqs;
    }

    /** One iteration of an acknowledgement sweep. */
    method AckKey(k: Key, now: int, freed0: nat, sample0: int) returns (freed: nat, sample: int)
      requires Valid()
      modifies this`head, this`tail, this`order, this`entries, this`freeEntries, this`pendingFree, nodes
      ensures Valid() && Acked(View(), freed, sample) == AckStep(Acked(old(View()), freed0, sample0), k, now)
    {
      hide Chained, Items, Sized, Remove;
      freed, sample := freed0, sample0;
      Lookup(entries, order, Items(order), k);
      if k in entries {
        var e := entries[k];
        freed := freed + e.it.data.len;
        if e.it.retries == 0 {
          var age := now - e.it.sentAt;
          if sample == 0 || age < sample {
            sample := age;
          }
        }
        RemoveLocked(k, e);
      }
    }

    method AckOne(k: Key)
      requires Valid()
      modifies this`head, this`tail, this`order, this`entries, this`freeEntries, this`pendingFree, nodes
      ensures Valid() && View() == Remove(old(View()), k)
    {
      hide Chained, Items, Sized;
      Lookup(entries, order, Items(order), k);
      if k in entries {
        RemoveLocked(k, entries[k]);
      }
    }

    method AckCumulative(stream: nat, cum: nat, now: int) returns (freed: nat, sample: int)
      requires Valid()
      modifies this, nodes
      ensures Valid() && nodes == old(nodes)
      ensures var through := if stream in old(ackedThrough) then old(ackedThrough)[stream] else 0;
              && Acked(View(), freed, sample) == AckBelow(old(View()), through, stream, cum, now)
              && ackedThrough == if Ledger.Accepted(through, cum) then old(ackedThrough)[stream := cum] else old(ackedThrough)
    {
      hide Valid, View, AckStep;
      freed, sample := 0, 0;
      var from := if stream in ackedThrough then ackedThrough[stream] else 0;
      if cum <= from || cum - from > Ledger.MAX_CUM_ADVANCE {
        return;
      }
      var sn := from;
      while sn < cum
        invariant from <= sn <= cum && Valid() && nodes == old(nodes) && ackedThrough == old(ackedThrough)
        invariant Acked(View(), freed, sample) == AckRange(old(View()), stream, from, sn, now)
      {
        freed, sample := AckKey((stream, sn), now, freed, sample);
        sn := sn + 1;
      }
      ackedThrough := ackedThrough[stream := cum];
    }

    /** Removes a stream's entries in whatever order the map yields them; keys is that order. */
    method PurgeStream(stream: nat) returns (ghost keys: seq<Key>)
      requires Valid()
      modifies this, nodes
      ensures Valid() && View() == RemoveAll(old(View()), keys)
      ensures forall k :: k in keys <==> k in old(entries) && k.0 == stream
      ensures ackedThrough == old(ackedThrough) - {stream}
    {
      hide Valid, View, Remove;
      keys := [];
      var todo := set k | k in entries && k.0 == stream;
      while todo != {}
        invariant Valid() && View() == RemoveAll(old(View()), keys)
        invariant forall k :: k in todo <==> k in entries && k.0 == stream
        invariant forall k :: k in keys <==> k in old(entries) && k.0 == stream && k !in todo
        invariant nodes == old(nodes) && ackedThrough == old(ackedThrough)
      {
        var k :| k in todo;
        assert (keys + [k])[..|keys|] == keys;
        RemoveLocked(k, entries[k]);
        keys := keys + [k];
        todo := todo - {k};
      }
      ackedThrough := ackedThrough - {stream};
    }

    // --- recycling ---

    method DrainPendingFree()
      requires Valid()
      modifies this`pendingFree, arena
      ensures Valid()
      ensures View() == Queue(old(View()).items, [], PutAll(old(View()).arena, old(pendingFree)))
    {
      hide Chained, Indexed, Items;
      ghost var a := arena.View();
      var bufs := pendingFree;
      PutAllKeeps(a, bufs);
      for i := 0 to |bufs|
        invariant arena.View() == PutAll(a, bufs[..i])
      {
        assert bufs[..i + 1][..i] == bufs[..i];
        arena.GiveBack(bufs[i]);
      }
      assert bufs[..|bufs|] == bufs;
      pendingFree := [];
    }

    method DrainPendingFreeFirst(n: nat)
      requires Valid()
      modifies this`pendingFree, arena
      ensures Valid()
      ensures var m := Min(n, |old(pendingFree)|);
              View() == Queue(old(View()).items, old(pendingFree)[m..], PutAll(old(View()).arena, old(pendingFree)[..m]))
    {
      hide Chained, Indexed, Items;
      ghost var a := arena.View();
      var bufs := pendingFree;
      var m := if n > |bufs| then |bufs| else n;
      PutAllKeeps(a, bufs[..m]);
      for i := 0 to m
        invariant arena.View() == PutAll(a, bufs[..i])
      {
        assert bufs[..i + 1][..i] == bufs[..i];
        arena.GiveBack(bufs[i]);
      }
      pendingFree := bufs[m..];
    }

    // --- resending ---

    method SetItem(e: Entry, it: Item, ghost i: nat)
      requires Valid() && i < |order| && order[i] == e && it.key == e.it.key && it.data == e.it.data
      modifies e`it
      ensures Valid() && View() == old(View()).(items := old(View()).items[i := it])
    {
      hide At, Items, Unique, Holds;
      ghost var items := Items(order);
      IndexedSet(entries, order, items, i, it);
      e.it := it;
      assert Items(order) == items[i := it];
    }

    method RequestForResend(k: Key, minAge: int, now: int) returns (ok: bool)
      requires Valid()
      modifies nodes`it
      ensures Valid() && Requested(View(), ok) == Request(old(View()), k, minAge, now)
    {
      hide Chained, Items, Indexed, Sized;
      ghost var i := Pos(Items(order), k);
      Lookup(entries, order, Items(order), k);
      if k !in entries {
        return false;
      }
      var e := entries[k];
      if e.it.queued || (minAge > 0 && now - e.it.sentAt < minAge) {
        return false;
      }
      SetItem(e, e.it.(queued := true), i);
      return true;
    }

    method PeekForResend(k: Key) returns (ok: bool, ftype: nat, len: nat)
      requires Valid()
      ensures ok <==> Holds(View().items, k) && View().items[Pos(View().items, k)].queued
      ensures ok ==> var it := View().items[Pos(View().items, k)]; ftype == it.ftype && len == it.data.len
    {
      ok, ftype, len := false, 0, 0;
      Lookup(entries, order, Items(order), k);
      if k in entries && entries[k].it.queued {
        ok, ftype, len := true, entries[k].it.ftype, entries[k].it.data.len;
      }
    }

    /** Moves a listed entry to the tail. */
    method MoveToTail(k: Key, e: Entry)
      requires Valid() && k in entries && entries[k] == e
      modifies this`head, this`tail, this`order, nodes`prev, nodes`next
      ensures Valid()
      ensures old(Holds(View().items, k))
      ensures var items, i := old(View()).items, Pos(old(View()).items, k);
              View() == old(View()).(items := RemoveAt(items, i) + [items[i]])
    {
      hide Chained, Indexed, Items, Pos, RemoveAt, Cut, Sized;
      ghost var i, items := Pos(Items(order), k), Items(order);
      Lookup(entries, order, items, k);
      IndexedCut(entries, order, items, k);
      IndexedSnoc(entries - {k}, Cut(order, i), RemoveAt(items, i), e, items[i]);
      assert (entries - {k})[k := e] == entries;
      MoveKeeps(View(), i);
      ItemsCut(order, i);
      Unlink(e, i);
      PushTail(e);
    }

    method TakeForResend(k: Key, now: int) returns (ok: bool, copy: Item)
      requires Valid()
      modifies this`head, this`tail, this`order, arena, nodes
      ensures Valid() && old(Sized(View()))
      ensures var t := Take(old(View()), k, now);
              ok == t.Taken? && View() == (if t.Taken? then t.q else old(View())) && (ok ==> copy == t.copy)
    {
      hide Chained, Indexed, Items, Store, RemoveAt;
      ok, copy := false, Item(k, 0, Slice(0, 0), 0, 0, false);
      ghost var q, i := View(), Pos(Items(order), k);
      Lookup(entries, order, Items(order), k);
      if k !in entries || !entries[k].it.queued {
        return;
      }
      TakeKeeps(q, k, now);
      var e := entries[k];
      var it := e.it.(queued := false, sentAt := now, retries := e.it.retries + 1);
      SetPos(q.items, i, it);
      SetItem(e, it, i);
      MoveToTail(k, e);
      var data := arena.TakeCopy(arena.mem[e.it.data.buf][..e.it.data.len]);
      ok, copy := true, e.it.(data := data);
    }

    method ReleaseResendCopy(data: Slice)
      requires Valid()
      modifies arena
      ensures Valid() && View() == old(View()).(arena := Put(old(View()).arena, data))
    {
      hide Chained, Indexed, Items;
      arena.GiveBack(data);
    }

    /** Walks from the oldest entry, stops at the first that is not due, and flags what it passes. */
    method DueScan(rto: int, now: int) returns (requests: seq<Key>)
      requires Valid()
      modifies nodes`it
      ensures Valid() && Scan(View(), requests) == Due(old(View()), rto, now)
    {
      hide Chained, Indexed, Items, Sized, At, DueUpto, DuePrefix;
      ghost var q, n: nat := View(), 0;
      DueUptoStart(q);
      Follow(order, head, tail, 0);
      requests := [];
      var e := head;
      while e != null
        invariant Valid() && n <= |order| && e == At(order, n) && order == old(order)
        invariant n <= DuePrefix(q.items, rto, now) && Scan(View(), requests) == DueUpto(q, n)
        decreases |order| - n
      {
        Follow(order, head, tail, n);
        DueUptoStep(q, n);
        if now - e.it.sentAt < rto {
          break;
        }
        if !e.it.queued {
          requests := requests + [e.it.key];
          SetItem(e, e.it.(queued := true), n);
        }
        Follow(order, head, tail, n);
        e := e.next;
        n := n + 1;
      }
      Follow(order, head, tail, n);
    }
  }
}
