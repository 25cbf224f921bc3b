/**
 * The frames a connection has sent and not seen acknowledged, as a value: the
 * send-order list, the buffers waiting to be recycled, and the arena.
 */
module Outstanding {
  import opened Bytes
  import opened Arenas
  import Ledger

  type Key = (nat, nat)   // stream, sequence number

  datatype Item = Item(key: Key, ftype: nat, data: Slice, sentAt: int, retries: nat, queued: bool)

  datatype Queue = Queue(items: seq<Item>, pendingFree: seq<Slice>, arena: Arena)

  predicate Unique(items: seq<Item>) {
    forall i, j :: 0 <= i < j < |items| ==> items[i].key != items[j].key
  }

  /** Where the frame with this key stands in the list; the list's length if it is not there. */
  function Pos(items: seq<Item>, k: Key): (i: nat)
    ensures i <= |items|
    ensures i < |items| ==> items[i].key == k
    ensures forall j :: 0 <= j < i ==> items[j].key != k
  {
    if items == [] || items[0].key == k then 0 else 1 + Pos(items[1..], k)
  }

  lemma PosIs(items: seq<Item>, i: nat)
    requires Unique(items) && i < |items|
    ensures Pos(items, items[i].key) == i
  {
  }

  lemma SetPos(items: seq<Item>, i: nat, it: Item)
    requires Unique(items) && i < |items| && it.key == items[i].key
    ensures Pos(items[i := it], it.key) == i
    ensures RemoveAt(items[i := it], i) == RemoveAt(items, i)
  {
    PosIs(items[i := it], i);
  }

  predicate Holds(items: seq<Item>, k: Key) {
    Pos(items, k) < |items|
  }

  function RemoveAt(items: seq<Item>, i: nat): seq<Item>
    requires i < |items|
  {
    items[..i] + items[i + 1..]
  }

  // --- operations ---

  function Add(q: Queue, k: Key, ftype: nat, payload: Bytes, now: int): Queue
    requires q.arena.Sound()
  {
    var g := Store(q.arena, payload);
    Queue(q.items + [Item(k, ftype, g.s, now, 0, false)], q.pendingFree, g.a)
  }

  function Remove(q: Queue, k: Key): Queue {
    var i := Pos(q.items, k);
    if i == |q.items| then q
    else q.(items := RemoveAt(q.items, i), pendingFree := q.pendingFree + [q.items[i].data])
  }

  function RemoveAll(q: Queue, ks: seq<Key>): Queue {
    if ks == [] then q else Remove(RemoveAll(q, ks[..|ks| - 1]), ks[|ks| - 1])
  }

  datatype Acked = Acked(q: Queue, freed: nat, sample: int)

  /** Removes one acknowledged frame; a frame sent only once may give a round-trip sample. */
  function AckStep(a: Acked, k: Key, now: int): Acked {
    var i := Pos(a.q.items, k);
    if i == |a.q.items| then a
    else
      var it := a.q.items[i];
      var age := now - it.sentAt;
      Acked(Remove(a.q, k), a.freed + it.data.len,
            if it.retries == 0 && (a.sample == 0 || age < a.sample) then age else a.sample)
  }

  function AckList(q: Queue, stream: nat, seqs: seq<nat>, now: int): Acked {
    if seqs == [] then Acked(q, 0, 0)
    else AckStep(AckList(q, stream, seqs[..|seqs| - 1], now), (stream, seqs[|seqs| - 1]), now)
  }

  function AckRange(q: Queue, stream: nat, from: nat, upto: nat, now: int): Acked
    decreases upto - from
  {
    if upto <= from then Acked(q, 0, 0)
    else AckStep(AckRange(q, stream, from, upto - 1, now), (stream, upto - 1), now)
  }

  function AckBelow(q: Queue, through: nat, stream: nat, cum: nat, now: int): Acked {
    if Ledger.Accepted(through, cum) then AckRange(q, stream, through, cum, now) else Acked(q, 0, 0)
  }

  /** A frame not yet queued and old enough is flagged for resending. */
  predicate MayRequest(it: Item, minAge: int, now: int) {
    !it.queued && !(minAge > 0 && now - it.sentAt < minAge)
  }

  function Flag(q: Queue, i: nat): Queue
    requires i < |q.items|
  {
    q.(items := q.items[i := q.items[i].(queued := true)])
  }

  datatype Requested = Requested(q: Queue, ok: bool)

  function Request(q: Queue, k: Key, minAge: int, now: int): Requested {
    var i := Pos(q.items, k);
    if i < |q.items| && MayRequest(q.items[i], minAge, now) then Requested(Flag(q, i), true) else Requested(q, false)
  }

  datatype Taken = NotTaken | Taken(q: Queue, copy: Item)

  /** Revalidates a request: a live, flagged frame moves to the tail and is copied out. */
  function Take(q: Queue, k: Key, now: int): Taken
    requires q.arena.Sound() && (forall i :: 0 <= i < |q.items| ==> q.arena.Fits(q.items[i].data))
  {
    var i := Pos(q.items, k);
    if i == |q.items| || !q.items[i].queued then NotTaken
    else
      var it := q.items[i].(queued := false, sentAt := now, retries := q.items[i].retries + 1);
      var g := Store(q.arena, q.arena.Read(it.data));
      Taken(Queue(RemoveAt(q.items, i) + [it], q.pendingFree, g.a), it.(data := g.s))
  }

  // --- the timer's scan ---

  /** How many frames from the head are at least rto old: the scan stops at the first that is not. */
  function DuePrefix(items: seq<Item>, rto: int, now: int): (n: nat)
    ensures n <= |items|
    ensures forall i :: 0 <= i < n ==> now - items[i].sentAt >= rto
    ensures n < |items| ==> now - items[n].sentAt < rto
  {
    if items == [] || now - items[0].sentAt < rto then 0 else 1 + DuePrefix(items[1..], rto, now)
  }

  function FlagAll(items: seq<Item>): seq<Item> {
    seq(|items|, i requires 0 <= i < |items| => items[i].(queued := true))
  }

  /** The keys of the frames not yet flagged, in list order. */
  function Unflagged(items: seq<Item>): seq<Key> {
    if items == [] then []
    else
      var n := |items| - 1;
      Unflagged(items[..n]) + (if items[n].queued then [] else [items[n].key])
  }

  datatype Scan = Scan(q: Queue, requests: seq<Key>)

  function DueUpto(q: Queue, n: nat): Scan
    requires n <= |q.items|
  {
    Scan(q.(items := FlagAll(q.items[..n]) + q.items[n..]), Unflagged(q.items[..n]))
  }

  function Due(q: Queue, rto: int, now: int): Scan {
    DueUpto(q, DuePrefix(q.items, rto, now))
  }

  lemma DueUptoStart(q: Queue)
    ensures DueUpto(q, 0) == Scan(q, [])
  {
  }

  lemma DueUptoStep(q: Queue, n: nat)
    requires n < |q.items|
    ensures var s, it := DueUpto(q, n), q.items[n];
            && |s.q.items| == |q.items| && s.q.items[n] == it
            && DueUpto(q, n + 1) == if it.queued then s else
                 Scan(q.(items := s.q.items[n := it.(queued := true)]), s.requests + [it.key])
  {
    var it, head, next := q.items[n], q.items[..n], q.items[..n + 1];
    assert next[..n] == head && next[n] == it;
    var flagged := it.(queued := true);
    assert FlagAll(next) == FlagAll(head) + [flagged];
    assert q.items[n..] == [it] + q.items[n + 1..];
    var items := FlagAll(head) + q.items[n..];
    assert items[n] == it;
    assert items[n := flagged] == FlagAll(next) + q.items[n + 1..];
    if it.queued {
      assert items[n := flagged] == items;
    }
  }

  // --- the scan against the whole list ---

  predicate Overdue(it: Item, rto: int, now: int) {
    !it.queued && now - it.sentAt >= rto
  }

  lemma UnflaggedSnoc(items: seq<Item>)
    requires items != []
    ensures var n := |items| - 1;
            Unflagged(items) == Unflagged(items[..n]) + (if items[n].queued then [] else [items[n].key])
  {
  }

  predicate Unasked(items: seq<Item>, k: Key) {
    exists it :: it in items && it.key == k && !it.queued
  }

  lemma UnaskedSnoc(items: seq<Item>, k: Key)
    requires items != []
    ensures var n := |items| - 1;
            Unasked(items, k) <==> Unasked(items[..n], k) || (items[n].key == k && !items[n].queued)
    ensures Unique(items) ==> Unique(items[..|items| - 1]) && !(Unasked(items[..|items| - 1], k) && items[|items| - 1].key == k)
  {
    var n := |items| - 1;
    assert items == items[..n] + [items[n]];
    if Unasked(items[..n], k) {
      var it :| it in items[..n] && it.key == k && !it.queued;
      assert it in items;
    }
  }

  lemma {:induction false} UnflaggedIs(items: seq<Item>, k: Key)
    requires Unique(items)
    ensures k in Unflagged(items) <==> Unasked(items, k)
    ensures multiset(Unflagged(items))[k] <= 1
  {
    hide Unique, Unasked;
    if items == [] {
      NoneUnasked(k);
    } else {
      hide Unflagged;
      var n := |items| - 1;
      UnaskedSnoc(items, k);
      UnflaggedIs(items[..n], k);
      UnflaggedSnoc(items);
      assert k in Unflagged(items[..n]) <==> multiset(Unflagged(items[..n]))[k] > 0;
    }
  }

  lemma NoneUnasked(k: Key)
    ensures !Unasked([], k)
  {
  }

  /** No frame the scan asks for is too young, and none is asked for twice. */
  lemma DueSound(q: Queue, rto: int, now: int, k: Key)
    requires Unique(q.items)
    requires k in Due(q, rto, now).requests
    ensures exists it :: it in q.items && it.key == k && Overdue(it, rto, now)
    ensures multiset(Due(q, rto, now).requests)[k] == 1
  {
    var n := DuePrefix(q.items, rto, now);
    UnflaggedIs(q.items[..n], k);
  }

  /**
   * The list is in push order: `pushed` never decreases along it, and each frame's clock
   * sample was read at most `skew` before it was pushed.
   */
  predicate InOrder(items: seq<Item>, pushed: map<Key, int>, skew: nat) {
    && (forall i :: 0 <= i < |items| ==>
          items[i].key in pushed && items[i].sentAt <= pushed[items[i].key] <= items[i].sentAt + skew)
    && (forall i, j :: 0 <= i < j < |items| && items[i].key in pushed && items[j].key in pushed ==>
          pushed[items[i].key] <= pushed[items[j].key])
  }

  /** Stopping early misses no frame older than rto by more than the skew. */
  lemma DueComplete(q: Queue, pushed: map<Key, int>, skew: nat, rto: int, now: int, i: nat)
    requires Unique(q.items) && InOrder(q.items, pushed, skew)
    requires i < |q.items| && Overdue(q.items[i], rto + skew, now)
    ensures q.items[i].key in Due(q, rto, now).requests
  {
    var n := DuePrefix(q.items, rto, now);
    if n <= i {
      assert false;
    }
    assert q.items[i] in q.items[..n];
    UnflaggedIs(q.items[..n], q.items[i].key);
  }

  /** With exact clock samples the early exit returns the overdue frames and no others. */
  lemma DueExact(q: Queue, pushed: map<Key, int>, rto: int, now: int, k: Key)
    requires Unique(q.items) && InOrder(q.items, pushed, 0)
    ensures k in Due(q, rto, now).requests <==> exists it :: it in q.items && it.key == k && Overdue(it, rto, now)
  {
    if k in Due(q, rto, now).requests {
      DueSound(q, rto, now, k);
    }
    if it :| it in q.items && it.key == k && Overdue(it, rto, now) {
      var i :| 0 <= i < |q.items| && q.items[i] == it;
      DueComplete(q, pushed, 0, rto, now, i);
    }
  }

  // --- one stream's share of the queue ---

  predicate Sized(q: Queue) {
    && q.arena.Sound()
    && (forall i :: 0 <= i < |q.items| ==> q.arena.Fits(q.items[i].data))
  }

  lemma AddKeeps(q: Queue, k: Key, ftype: nat, payload: Bytes, now: int)
    requires Sized(q)
    ensures q.arena.Sound() && Sized(Add(q, k, ftype, payload, now))
  {
    forall i | 0 <= i < |q.items| ensures Store(q.arena, payload).a.Fits(q.items[i].data) {
      StoreTakes(q.arena, payload, q.items[i].data.buf);
    }
  }

  lemma TakeKeeps(q: Queue, k: Key, now: int)
    requires Sized(q)
    ensures Take(q, k, now).Taken? ==> Sized(Take(q, k, now).q)
  {
    var i := Pos(q.items, k);
    if i < |q.items| {
      var payload := q.arena.Read(q.items[i].data);
      forall j | 0 <= j < |q.items| ensures Store(q.arena, payload).a.Fits(q.items[j].data) {
        StoreTakes(q.arena, payload, q.items[j].data.buf);
      }
    }
  }

  lemma MoveKeeps(q: Queue, i: nat)
    requires Sized(q) && i < |q.items|
    ensures Sized(q.(items := RemoveAt(q.items, i) + [q.items[i]]))
  {
  }

  /** The unacknowledged frames of one stream, by sequence number. */
  function Pending(q: Queue, stream: nat): Ledger.Unacked
    requires Sized(q)
  {
    map it | it in q.items && it.key.0 == stream :: it.key.1 := q.arena.Read(q.items[Pos(q.items, it.key)].data)
  }

  lemma PendingIs(q: Queue, stream: nat, i: nat)
    requires Sized(q) && Unique(q.items) && i < |q.items| && q.items[i].key.0 == stream
    ensures q.items[i].key.1 in Pending(q, stream)
    ensures Pending(q, stream)[q.items[i].key.1] == q.arena.Read(q.items[i].data)
  {
    PosIs(q.items, i);
  }

  lemma PendingOnly(q: Queue, stream: nat, sn: nat)
    requires Sized(q)
    ensures sn in Pending(q, stream) <==> Holds(q.items, (stream, sn))
  {
    var i := Pos(q.items, (stream, sn));
    if i < |q.items| {
      assert q.items[i] in q.items;
    }
  }

  lemma RemoveAtKeeps(items: seq<Item>, i: nat, it: Item)
    requires Unique(items) && i < |items|
    ensures Unique(RemoveAt(items, i))
    ensures it in RemoveAt(items, i) <==> it in items && it.key != items[i].key
  {
    var r := RemoveAt(items, i);
    if it in items && it.key != items[i].key {
      var j :| 0 <= j < |items| && items[j] == it;
      assert r[if j < i then j else j - 1] == it;
    }
    if it in r {
      var j :| 0 <= j < |r| && r[j] == it;
      assert it == items[if j < i then j else j + 1];
    }
  }

  lemma RemoveKeeps(q: Queue, k: Key)
    requires Sized(q) && Unique(q.items)
    ensures Sized(Remove(q, k)) && Unique(Remove(q, k).items) && Remove(q, k).arena == q.arena
    ensures !Holds(Remove(q, k).items, k)
    ensures forall it :: it in Remove(q, k).items <==> it in q.items && it.key != k
  {
    var i, r := Pos(q.items, k), Remove(q, k).items;
    if i < |q.items| {
      hide RemoveAt, Unique;
      forall it ensures it in r <==> it in q.items && it.key != k {
        RemoveAtKeeps(q.items, i, it);
      }
      RemoveAtKeeps(q.items, i, q.items[i]);
      forall j | 0 <= j < |r| ensures q.arena.Fits(r[j].data) {
        assert r[j] in r;
      }
      assert !Holds(r, k);
    }
  }

  lemma RemovePendingAt(q: Queue, k: Key, stream: nat, sn: nat)
    requires Sized(q) && Unique(q.items)
    ensures var r := Remove(q, k);
            && Sized(r)
            && (sn in Pending(r, stream) <==> sn in Pending(q, stream) && (stream, sn) != k)
            && (sn in Pending(r, stream) ==> Pending(r, stream)[sn] == Pending(q, stream)[sn])
  {
    hide Remove, Pending;
    var r := Remove(q, k);
    RemoveKeeps(q, k);
    PendingOnly(q, stream, sn);
    PendingOnly(r, stream, sn);
    var i, j := Pos(r.items, (stream, sn)), Pos(q.items, (stream, sn));
    if i < |r.items| {
      PendingIs(r, stream, i);
      assert r.items[i] in r.items;
      var m :| 0 <= m < |q.items| && q.items[m] == r.items[i];
      PendingIs(q, stream, m);
    } else if j < |q.items| {
      assert q.items[j] in q.items;
    }
  }

  /** Removing a frame is a removal from its own stream's ledger, and changes no other stream's. */
  lemma RemovePending(q: Queue, k: Key, stream: nat)
    requires Sized(q) && Unique(q.items)
    ensures Sized(Remove(q, k))
    ensures Pending(Remove(q, k), stream) ==
              if stream == k.0 then Ledger.Remove(Pending(q, stream), k.1).rest else Pending(q, stream)
  {
    hide Remove, Pending;
    RemoveKeeps(q, k);
    forall sn: nat ensures sn in Pending(Remove(q, k), stream) <==> sn in Pending(q, stream) && (stream, sn) != k {
      RemovePendingAt(q, k, stream, sn);
    }
    forall sn | sn in Pending(Remove(q, k), stream)
      ensures Pending(Remove(q, k), stream)[sn] == Pending(q, stream)[sn]
    {
      RemovePendingAt(q, k, stream, sn);
    }
    assert Pending(Remove(q, k), stream).Keys ==
      if stream == k.0 then Pending(q, stream).Keys - {k.1} else Pending(q, stream).Keys;
  }

  /** Purging a stream leaves it nothing, and every other stream what it had. */
  lemma {:induction false} PurgePending(q: Queue, ks: seq<Key>, stream: nat)
    requires Sized(q) && Unique(q.items) && (forall k :: k in ks ==> k.0 == stream)
    ensures var r := RemoveAll(q, ks);
            && Sized(r) && Unique(r.items)
            && (forall other: nat :: other != stream ==> Pending(r, other) == Pending(q, other))
            && ((forall it :: it in q.items && it.key.0 == stream ==> it.key in ks) ==> Pending(r, stream) == map[])
    ensures forall it :: it in RemoveAll(q, ks).items <==> it in q.items && it.key !in ks
  {
    hide Remove, Pending;
    if ks != [] {
      var n := |ks| - 1;
      var p := RemoveAll(q, ks[..n]);
      PurgePending(q, ks[..n], stream);
      RemoveKeeps(p, ks[n]);
      assert ks == ks[..n] + [ks[n]];
      forall other: nat | other != stream ensures Pending(RemoveAll(q, ks), other) == Pending(q, other) {
        RemovePending(p, ks[n], other);
      }
    }
    var r := RemoveAll(q, ks);
    if forall it :: it in q.items && it.key.0 == stream ==> it.key in ks {
      forall sn: nat ensures sn !in Pending(r, stream) {
        PendingOnly(r, stream, sn);
      }
    }
  }

  /** The acknowledged part of a queue, related to the ledger of the stream it belongs to. */
  ghost predicate Matches(q: Queue, a: Acked, stream: nat, s: Ledger.Swept)
    requires Sized(q)
  {
    && Sized(a.q) && Unique(a.q.items) && a.q.arena == q.arena
    && Pending(a.q, stream) == s.rest && a.freed == s.freed
    && (forall other: nat :: other != stream ==> Pending(a.q, other) == Pending(q, other))
  }

  lemma AckStepMatches(q: Queue, a: Acked, stream: nat, s: Ledger.Swept, sn: nat, now: int)
    requires Sized(q) && Matches(q, a, stream, s)
    ensures var r := Ledger.Remove(s.rest, sn);
            Matches(q, AckStep(a, (stream, sn), now), stream, Ledger.Swept(r.rest, s.freed + r.freed))
  {
    hide Remove, Pending;
    var k := (stream, sn);
    RemoveKeeps(a.q, k);
    forall other: nat ensures Pending(Remove(a.q, k), other) ==
      if other == stream then Ledger.Remove(Pending(a.q, stream), sn).rest else Pending(a.q, other)
    {
      RemovePending(a.q, k, other);
    }
    PendingOnly(a.q, stream, sn);
    var i := Pos(a.q.items, k);
    if i < |a.q.items| {
      PendingIs(a.q, stream, i);
    }
  }

  /** Nothing acknowledged, nothing changed. */
  lemma NothingMatches(q: Queue, stream: nat)
    requires Sized(q) && Unique(q.items)
    ensures Matches(q, Acked(q, 0, 0), stream, Ledger.Swept(Pending(q, stream), 0))
  {
    hide Pending;
  }

  lemma AckListUnfold(q: Queue, stream: nat, seqs: seq<nat>, now: int)
    requires seqs != []
    ensures var n := |seqs| - 1;
            AckList(q, stream, seqs, now) == AckStep(AckList(q, stream, seqs[..n], now), (stream, seqs[n]), now)
  {
    hide AckStep;
  }

  /** A selective acknowledgement does to the stream's frames what the stream's own ledger says, and frees as much. */
  lemma {:induction false} AckListMatches(q: Queue, stream: nat, seqs: seq<nat>, now: int)
    requires Sized(q) && Unique(q.items)
    ensures Matches(q, AckList(q, stream, seqs, now), stream, Ledger.SweepList(Pending(q, stream), seqs))
  {
    hide Matches, AckStep, Pending, Ledger.Remove;
    NothingMatches(q, stream);
    if seqs != [] {
      hide AckList, Ledger.SweepList;
      var n := |seqs| - 1;
      var a, s := AckList(q, stream, seqs[..n], now), Ledger.SweepList(Pending(q, stream), seqs[..n]);
      AckListMatches(q, stream, seqs[..n], now);
      AckStepMatches(q, a, stream, s, seqs[n], now);
      Ledger.SweepListSnoc(Pending(q, stream), seqs[..n], seqs[n]);
      assert seqs == seqs[..n] + [seqs[n]];
      AckListUnfold(q, stream, seqs, now);
    }
  }

  lemma AckRangeUnfold(q: Queue, stream: nat, from: nat, upto: nat, now: int)
    requires from <= upto
    ensures AckRange(q, stream, from, upto + 1, now) == AckStep(AckRange(q, stream, from, upto, now), (stream, upto), now)
  {
    hide AckStep;
  }

  lemma {:induction false} AckRangeMatches(q: Queue, stream: nat, from: nat, upto: nat, now: int)
    requires Sized(q) && Unique(q.items)
    ensures Matches(q, AckRange(q, stream, from, upto, now), stream, Ledger.SweepRange(Pending(q, stream), from, upto))
    decreases upto - from
  {
    hide Matches, AckStep, Pending, Ledger.Remove;
    if upto <= from {
      NothingMatches(q, stream);
    } else {
      hide AckRange, Ledger.SweepRange;
      var m: nat := upto - 1;
      var a, s := AckRange(q, stream, from, m, now), Ledger.SweepRange(Pending(q, stream), from, m);
      AckRangeMatches(q, stream, from, m, now);
      AckStepMatches(q, a, stream, s, m, now);
      Ledger.SweepRangeSnoc(Pending(q, stream), from, m);
      AckRangeUnfold(q, stream, from, m, now);
    }
  }

  /** A cumulative acknowledgement likewise. */
  lemma AckBelowMatches(q: Queue, through: nat, stream: nat, cum: nat, now: int)
    requires Sized(q) && Unique(q.items)
    ensures var l := Ledger.AckCumulative(Pending(q, stream), through, cum);
            Matches(q, AckBelow(q, through, stream, cum, now), stream, Ledger.Swept(l.rest, l.freed))
  {
    AckRangeMatches(q, stream, through, cum, now);
  }

  // --- round-trip samples ---

  /**
   * A sample is the age of a frame that was removed and had been sent once.  When clocks
   * separate every send from now, it is the least such age, and absent only if there is none.
   */
  ghost predicate Sampled(q: Queue, a: Acked, now: int) {
    && (forall it :: it in a.q.items ==> it in q.items)
    && (a.sample != 0 ==> exists it :: it in q.items && it !in a.q.items && it.retries == 0 && a.sample == now - it.sentAt)
    && ((forall it :: it in q.items ==> it.sentAt < now) ==>
          forall it :: it in q.items && it !in a.q.items && it.retries == 0 ==> 0 < a.sample <= now - it.sentAt)
  }

  lemma AckStepSampled(q: Queue, a: Acked, k: Key, now: int)
    requires Sized(a.q) && Unique(a.q.items) && Sampled(q, a, now)
    ensures Sized(AckStep(a, k, now).q) && Unique(AckStep(a, k, now).q.items)
    ensures Sampled(q, AckStep(a, k, now), now)
  {
    hide Remove;
    RemoveKeeps(a.q, k);
    var i, b := Pos(a.q.items, k), AckStep(a, k, now);
    if i < |a.q.items| {
      var it := a.q.items[i];
      assert it in a.q.items && it !in b.q.items;
      forall x | x in q.items && x !in b.q.items ensures x == it || x !in a.q.items {
        if x in a.q.items {
          var j :| 0 <= j < |a.q.items| && a.q.items[j] == x;
          PosIs(a.q.items, j);
        }
      }
    }
  }

  /** Karn's rule for a selective acknowledgement: only frames never resent are timed, and the least age wins. */
  lemma {:induction false} AckListSampled(q: Queue, stream: nat, seqs: seq<nat>, now: int)
    requires Sized(q) && Unique(q.items)
    ensures Sampled(q, AckList(q, stream, seqs, now), now)
    ensures Sized(AckList(q, stream, seqs, now).q) && Unique(AckList(q, stream, seqs, now).q.items)
  {
    if seqs != [] {
      var n := |seqs| - 1;
      AckListSampled(q, stream, seqs[..n], now);
      AckStepSampled(q, AckList(q, stream, seqs[..n], now), (stream, seqs[n]), now);
    }
  }

  /** And for a cumulative one. */
  lemma {:induction false} AckRangeSampled(q: Queue, stream: nat, from: nat, upto: nat, now: int)
    requires Sized(q) && Unique(q.items)
    ensures Sampled(q, AckRange(q, stream, from, upto, now), now)
    ensures Sized(AckRange(q, stream, from, upto, now).q) && Unique(AckRange(q, stream, from, upto, now).q.items)
    decreases upto - from
  {
    if from < upto {
      AckRangeSampled(q, stream, from, upto - 1, now);
      AckStepSampled(q, AckRange(q, stream, from, upto - 1, now), (stream, upto - 1), now);
    }
  }
}
