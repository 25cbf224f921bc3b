/** What a received ACK does: two sweeps of the retransmit queue, one round-trip sample, and the stream's credit. */
module AckPath {
  import opened Bytes
  import opened Arenas
  import opened Outstanding
  import opened Retransmit
  import opened Rto
  import opened StreamWriters
  import Ledger
  import Sender

  /** The cumulative sweep, then the selective one; each reads the clock for itself. */
  function AckBoth(q: Queue, through: nat, stream: nat, cum: nat, seqs: seq<nat>, cumNow: int, listNow: int): (Acked, Acked) {
    var a := AckBelow(q, through, stream, cum, cumNow);
    (a, AckList(a.q, stream, seqs, listNow))
  }

  /** Where the watermark stands after a cumulative ACK. */
  function Through(through: nat, cum: nat): nat {
    if Ledger.Accepted(through, cum) then cum else through
  }

  /** The smaller of two samples, where 0 means none. */
  function Better(a: int, b: int): int {
    if a == 0 || (b > 0 && b < a) then b else a
  }

  /**
   * The connection's queue and the stream's own ledger agree: an ACK frees the same frames
   * and the same bytes in both, moves the same watermark, and touches no other stream.
   */
  lemma AckMatchesStream(q: Queue, s: Sender.SState, stream: nat, cum: nat, seqs: seq<nat>, cumNow: int, listNow: int)
    requires Sized(q) && Unique(q.items) && Pending(q, stream) == s.unacked
    ensures var (a, b) := AckBoth(q, s.ackedThrough, stream, cum, seqs, cumNow, listNow);
            var t := Sender.HandleAck(s, cum, seqs);
            && Sized(b.q) && Pending(b.q, stream) == t.unacked
            && t == s.(unacked := t.unacked, ackedThrough := Through(s.ackedThrough, cum),
                       ackedBytes := s.ackedBytes + a.freed + b.freed)
            && (forall other: nat :: other != stream ==> Pending(b.q, other) == Pending(q, other))
  {
    hide Pending, AckBelow, AckList, Ledger.SweepRange, Ledger.SweepList;
    AckBelowMatches(q, s.ackedThrough, stream, cum, cumNow);
    var a := AckBelow(q, s.ackedThrough, stream, cum, cumNow);
    AckListMatches(a.q, stream, seqs, listNow);
  }

  /**
   * Karn's rule for the whole ACK: a sample is the age, at one of its two clock readings, of a frame it
   * removed that was sent only once; when clocks separate every send from the ACK it is the least such age.
   */
  lemma AckSampleIsKarn(q: Queue, through: nat, stream: nat, cum: nat, seqs: seq<nat>, cumNow: int, listNow: int)
    requires Sized(q) && Unique(q.items)
    ensures var (a, b) := AckBoth(q, through, stream, cum, seqs, cumNow, listNow);
            var sample := Better(a.sample, b.sample);
            sample != 0 ==> exists it :: it in q.items && it !in b.q.items && it.retries == 0 &&
                                         (sample == cumNow - it.sentAt || sample == listNow - it.sentAt)
    ensures var (a, b) := AckBoth(q, through, stream, cum, seqs, cumNow, listNow);
            var sample := Better(a.sample, b.sample);
            (forall it :: it in q.items ==> it.sentAt < cumNow && it.sentAt < listNow) ==>
              forall it :: it in q.items && it !in b.q.items && it.retries == 0 ==>
                             0 < sample <= (if it in a.q.items then listNow else cumNow) - it.sentAt
  {
    var (a, b) := AckBoth(q, through, stream, cum, seqs, cumNow, listNow);
    AckRangeSampled(q, stream, through, cum, cumNow);
    AckListSampled(a.q, stream, seqs, listNow);
    hide AckRange, AckList;
    if a.sample != 0 {
      var it :| it in q.items && it !in a.q.items && it.retries == 0 && a.sample == cumNow - it.sentAt;
      assert it !in b.q.items;
    }
    if b.sample != 0 {
      var it :| it in a.q.items && it !in b.q.items && it.retries == 0 && b.sample == listNow - it.sentAt;
      assert it in q.items;
    }
  }

  /** A frame added, never resent and acknowledged is timed: the sample is its age, and its payload is freed. */
  lemma FreshIsTimed(q: Queue, k: Key, ftype: nat, payload: Bytes, sent: int, now: int)
    requires Sized(q) && !Holds(q.items, k) && sent < now
    ensures var a := AckList(Add(q, k, ftype, payload, sent), k.0, [k.1], now); a.sample == now - sent && a.freed == |payload|
  {
    hide Store;
    var items := Add(q, k, ftype, payload, sent).items;
    LastPos(q.items, k, items[|q.items|]);
    assert [k.1][..0] == [];
  }

  lemma LastPos(items: seq<Item>, k: Key, it: Item)
    requires !Holds(items, k) && it.key == k
    ensures Pos(items + [it], k) == |items|
  {
    var all := items + [it];
    assert all[|items|].key == k;
    assert forall j :: 0 <= j < |items| ==> all[j] == items[j] && items[j].key != k;
  }

  /** Once it was resent, its acknowledgement is ambiguous and gives no sample. */
  lemma ResentIsNotTimed(q: Queue, k: Key, at: int, now: int)
    requires Sized(q) && Unique(q.items) && Take(q, k, at).Taken?
    ensures AckList(Take(q, k, at).q, k.0, [k.1], now).sample == 0
  {
    hide Store;
    assert [k.1][..0] == [];
  }

  ghost function MarkOf(marks: map<nat, nat>, stream: nat): nat {
    if stream in marks then marks[stream] else 0
  }

  /** The writer's share of the queue is what the queue holds for its stream. */
  ghost predicate Shares(q: RetransmitQueue, w: StreamWriter, stream: nat)
    reads q, q.arena, set e | e in q.order
    reads w, w.Owned()
  {
    && q.Valid() && w.Valid()
    && Pending(q.View(), stream) == w.unacked && MarkOf(q.ackedThrough, stream) == w.ackedThrough
  }

  /** Both sweeps, the smaller of their samples, and the freed bytes. */
  method Sweep(q: RetransmitQueue, e: Estimator, stream: nat, cum: nat, seqs: seq<nat>, cumNow: int, listNow: int)
    returns (freed: nat)
    requires q.Valid()
    modifies q, q.nodes, e
    ensures q.Valid()
    ensures var through := MarkOf(old(q.ackedThrough), stream);
            var (a, b) := AckBoth(old(q.View()), through, stream, cum, seqs, cumNow, listNow);
            && q.View() == b.q && freed == a.freed + b.freed
            && MarkOf(q.ackedThrough, stream) == Through(through, cum)
            && (forall other: nat :: other != stream ==> MarkOf(q.ackedThrough, other) == MarkOf(old(q.ackedThrough), other))
            && e.View() == Update(old(e.View()), e.floor, Better(a.sample, b.sample))
  {
    hide RetransmitQueue.Valid, RetransmitQueue.View, AckBelow, AckList;
    var freedCum, sampleCum := q.AckCumulative(stream, cum, cumNow);
    var freedList, sampleList := q.AckMany(stream, seqs, listNow);
    var sample := sampleCum;
    if sample == 0 || (sampleList > 0 && sampleList < sample) {
      sample := sampleList;
    }
    if sample > 0 {
      e.UpdateRTO(sample);
    }
    freed := freedCum + freedList;
  }

  lemma ValidQueue(q: RetransmitQueue)
    requires q.Valid()
    ensures Sized(q.View()) && Unique(q.View().items)
  {
  }

  lemma Apart(q: RetransmitQueue, e: Estimator, w: StreamWriter)
    ensures q as object !in w.Owned() && e as object !in w.Owned()
    ensures forall x :: x in q.nodes ==> x as object !in w.Owned()
  {
  }

  lemma SharesParts(q: RetransmitQueue, w: StreamWriter, stream: nat)
    requires Shares(q, w, stream)
    ensures q.Valid() && w.Valid() && Sized(q.View()) && Unique(q.View().items)
    ensures Pending(q.View(), stream) == w.View().unacked && MarkOf(q.ackedThrough, stream) == w.View().ackedThrough
  {
    ValidQueue(q);
    w.Facts();
  }

  /** An ACK for a stream that is known: the writer is credited, and its share stays what the queue holds. */
  method HandleAck(q: RetransmitQueue, e: Estimator, w: StreamWriter, stream: nat, cum: nat, seqs: seq<nat>,
                   cumNow: int, listNow: int)
    requires Shares(q, w, stream)
    modifies q, q.nodes, e, w`ackedBytes, w`unacked, w`ackedThrough
    ensures Shares(q, w, stream) && w.View() == Sender.HandleAck(old(w.View()), cum, seqs)
    ensures old(Sized(q.View())) && Sized(q.View())
    ensures forall other: nat :: other != stream ==>
              Pending(q.View(), other) == old(Pending(q.View(), other)) &&
              MarkOf(q.ackedThrough, other) == old(MarkOf(q.ackedThrough, other))
  {
    hide RetransmitQueue.Valid, RetransmitQueue.View, StreamWriter.View, StreamWriter.Valid,
         Pending, Sender.HandleAck, AckBelow, AckList, Sized, Unique, Update;
    SharesParts(q, w, stream);
    Apart(q, e, w);
    ghost var before, s := q.View(), w.View();
    AckMatchesStream(before, s, stream, cum, seqs, cumNow, listNow);
    var freed := Sweep(q, e, stream, cum, seqs, cumNow, listNow);
    ghost var t := Sender.HandleAck(s, cum, seqs);
    assert w.Valid() && w.View() == s;
    w.Facts();
    ValidQueue(q);
    w.CreditAcked(freed, t.unacked, t.ackedThrough);
    w.Facts();
  }
}
