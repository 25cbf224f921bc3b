/**
 * The sending half of a connection as a step machine: the retransmit queue, the batch
 * under construction and the batches the kernel may still be reading, and the resend
 * worker with its requests.  Acknowledgements, purges, timer scans and NACKs may fall
 * between any two steps of a flush.
 */
module Outbox {
  import opened Bytes
  import opened Arenas
  import opened Outstanding

  /** A frame's payload by reference: an iovec of a batch, or the worker's private copy. */
  datatype Ref = Ref(key: Key, data: Slice)

  datatype Phase = Building | Sending | Draining | Marking

  datatype Box = Box(
    q: Queue,
    sent: map<Key, Bytes>,   // every frame ever added, with its payload
    pushed: map<Key, int>,   // when it last went to the tail of the list
    clock: int,
    asked: seq<Key>,         // flagged by a NACK or the timer, not yet handed to the worker
    work: seq<Key>,          // the worker's queue
    hand: seq<Key>,          // popped by the worker, not yet revalidated
    copies: seq<Ref>,        // payload copies the worker owns
    loose: seq<Ref>,         // stored by a sender that has not queued them yet
    raced: set<Key>,         // removed between being stored and being queued
    batch: seq<Ref>,         // being built
    newer: seq<Ref>,         // handed to the kernel by the flush in progress
    older: seq<Ref>,         // handed over by the previous flush, completion not yet awaited
    mark: nat,
    phase: Phase)

  /**
   * uring: two slot sets and asynchronous sends.  skew bounds the wait between reading the
   * clock and taking the lock.
   */
  datatype Setup = Setup(slot: nat, uring: bool, skew: nat)

  datatype Action =
    | Send(k: Key, ftype: nat, payload: Bytes, sample: int, now: int)
    | Attach(i: nat)
    | Acknowledge(k: Key)
    | Nack(k: Key, minAge: int, now: int)
    | Timer(rto: int, now: int)
    | Enqueue(i: nat)
    | Pop
    | Revalidate(sample: int, now: int)
    | Release(i: nat)
    | Submit
    | Complete
    | Drain
    | Mark

  function Start(s: Setup): Box {
    Box(Queue([], [], Arena(s.slot, [], [])), map[], map[], 0, [], [], [], [], [], {}, [], [], [], 0, Building)
  }

  predicate Stamped(s: Setup, b: Box, sample: int, now: int) {
    b.clock <= now && sample <= now <= sample + s.skew
  }

  predicate Enabled(s: Setup, b: Box, a: Action) {
    match a
    case Send(k, _, _, sample, now) => k !in b.sent && Stamped(s, b, sample, now) && Sized(b.q)
    case Attach(i) => i < |b.loose| && b.phase.Building?
    case Enqueue(i) => i < |b.asked|
    case Pop => b.hand == [] && b.work != []
    case Revalidate(sample, now) => b.hand != [] && Stamped(s, b, sample, now) && Sized(b.q)
    case Release(i) => i < |b.copies|
    case Submit => b.phase.Building?
    case Complete => b.phase.Sending?
    case Drain => b.phase.Draining?
    case Mark => b.phase.Marking?
    case _ => true
  }

  /** The frame is stored, and no batch references it yet. */
  predicate IsLoose(b: Box, k: Key) {
    exists i :: 0 <= i < |b.loose| && b.loose[i].key == k
  }

  function Settle(b: Box, k: Key, now: int, t: Taken): Box {
    match t
    case NotTaken => b
    case Taken(q, copy) => b.(q := q, copies := b.copies + [Ref(k, copy.data)], pushed := b.pushed[k := now], clock := now)
  }

  function DrainFirst(q: Queue, n: nat): Queue {
    var m := Min(n, |q.pendingFree|);
    Queue(q.items, q.pendingFree[m..], PutAll(q.arena, q.pendingFree[..m]))
  }

  function Do(s: Setup, b: Box, a: Action): Box
    requires Enabled(s, b, a)
  {
    match a
    case Send(k, ftype, payload, sample, now) =>
      var q := Add(b.q, k, ftype, payload, sample);
      b.(q := q, sent := b.sent[k := payload], pushed := b.pushed[k := now], clock := now,
         loose := b.loose + [Ref(k, q.items[|q.items| - 1].data)])
    case Attach(i) => b.(loose := b.loose[..i] + b.loose[i + 1..], batch := b.batch + [b.loose[i]])
    case Acknowledge(k) => b.(q := Remove(b.q, k), raced := if IsLoose(b, k) then b.raced + {k} else b.raced)
    case Nack(k, minAge, now) =>
      var r := Request(b.q, k, minAge, now);
      if r.ok then b.(q := r.q, asked := b.asked + [k]) else b
    case Timer(rto, now) =>
      var r := Due(b.q, rto, now);
      b.(q := r.q, asked := b.asked + r.requests)
    case Enqueue(i) => b.(asked := b.asked[..i] + b.asked[i + 1..], work := b.work + [b.asked[i]])
    case Pop => b.(work := b.work[1..], hand := [b.work[0]])
    case Revalidate(sample, now) => Settle(b, b.hand[0], now, Take(b.q, b.hand[0], sample)).(hand := b.hand[1..])
    case Release(i) =>
      b.(q := b.q.(arena := Put(b.q.arena, b.copies[i].data)), copies := b.copies[..i] + b.copies[i + 1..])
    case Submit => b.(newer := b.batch, batch := [], phase := Sending)
    case Complete => b.(older := if s.uring then b.newer else [], newer := [], phase := Draining)
    case Drain =>
      b.(q := DrainFirst(b.q, if s.uring then b.mark else |b.q.pendingFree|),
         phase := if s.uring then Marking else Building)
    case Mark => b.(mark := |b.q.pendingFree|, phase := Building)
  }

  function Step(s: Setup, b: Box, a: Action): Box {
    if Enabled(s, b, a) then Do(s, b, a) else b
  }

  function Run(s: Setup, acts: seq<Action>): Box {
    if acts == [] then Start(s) else Step(s, Run(s, acts[..|acts| - 1]), acts[|acts| - 1])
  }

  // --- who owns a buffer ---

  function Slices(items: seq<Item>): seq<Slice> {
    seq(|items|, i requires 0 <= i < |items| => items[i].data)
  }

  function Datas(refs: seq<Ref>): seq<Slice> {
    seq(|refs|, i requires 0 <= i < |refs| => refs[i].data)
  }

  function Count(ss: seq<Slice>, x: nat): nat {
    multiset(Bufs(ss))[x]
  }

  /** How many times buffer x is held: by live entries, awaiting recycling, free, or by the worker. */
  function Owners(b: Box, x: nat): nat {
    Count(Slices(b.q.items), x) + Count(b.q.pendingFree, x) + multiset(b.q.arena.free)[x] + Count(Datas(b.copies), x)
  }

  /** Every buffer has at most one owner, and a pooled buffer exactly one. */
  predicate OwnedOnce(b: Box, x: nat) {
    if x < |b.q.arena.mem| then Owners(b, x) <= 1 && (|b.q.arena.mem[x]| == b.q.arena.slot ==> Owners(b, x) == 1)
    else Owners(b, x) == 0
  }

  ghost predicate Partitioned(b: Box) {
    forall x: nat :: OwnedOnce(b, x)
  }

  // --- what the buffers hold ---

  /** The slice still holds the payload its frame was sent with. */
  predicate Holding(b: Box, k: Key, data: Slice) {
    b.q.arena.Fits(data) && k in b.sent && b.q.arena.Read(data) == b.sent[k]
  }

  predicate Intact(b: Box) {
    && b.q.arena.Sound()
    && (forall i :: 0 <= i < |b.q.items| ==> Holding(b, b.q.items[i].key, b.q.items[i].data))
    && (forall i :: 0 <= i < |b.copies| ==> Holding(b, b.copies[i].key, b.copies[i].data))
  }

  /** Referenced memory is live, or waits for recycling at or after position n. */
  predicate Backed(b: Box, r: Ref, n: nat) {
    && n <= |b.q.pendingFree|
    && Holding(b, r.key, r.data)
    && (r.data in Slices(b.q.items) || r.data in b.q.pendingFree[n..])
  }

  predicate PhaseOk(s: Setup, b: Box) {
    && (b.batch != [] ==> b.phase.Building?)
    && (b.newer != [] ==> b.phase.Sending?)
    && (!s.uring ==> b.older == [] && b.mark == 0)
    && (b.phase.Marking? ==> s.uring)
    && (!b.phase.Marking? ==> b.mark <= |b.q.pendingFree|)
  }

  /** Backed, unless the frame was removed before it was queued. */
  predicate BackedIf(b: Box, r: Ref, n: nat) {
    r.key !in b.raced ==> Backed(b, r, n)
  }

  predicate Protected(s: Setup, b: Box) {
    && PhaseOk(s, b)
    && (forall i :: 0 <= i < |b.batch| ==> BackedIf(b, b.batch[i], b.mark))
    && (forall i :: 0 <= i < |b.newer| ==> BackedIf(b, b.newer[i], b.mark))
    && (forall i :: 0 <= i < |b.older| ==> BackedIf(b, b.older[i], if b.phase.Draining? then b.mark else 0))
  }

  /** A stored frame that no batch references yet is still outstanding. */
  predicate Registered(b: Box, r: Ref) {
    exists it :: it in b.q.items && it.key == r.key && it.data == r.data
  }

  predicate LooseOk(b: Box) {
    forall i :: 0 <= i < |b.loose| ==> b.loose[i].key in b.raced || Registered(b, b.loose[i])
  }

  // --- requests ---

  function Requests(b: Box): seq<Key> {
    b.asked + b.work + b.hand
  }

  /** No key is requested twice; a live frame is flagged exactly when a request for it is on its way. */
  ghost predicate OneRequestEach(b: Box) {
    && (forall k :: multiset(Requests(b))[k] <= 1)
    && (forall k :: k in Requests(b) ==> k in b.sent)
    && (forall i :: 0 <= i < |b.q.items| ==> (b.q.items[i].queued <==> b.q.items[i].key in Requests(b)))
  }

  predicate Ordered(s: Setup, b: Box) {
    && InOrder(b.q.items, b.pushed, s.skew)
    && (forall i :: 0 <= i < |b.q.items| && b.q.items[i].key in b.pushed ==> b.pushed[b.q.items[i].key] <= b.clock)
  }

  ghost predicate Inv(s: Setup, b: Box) {
    && Unique(b.q.items)
    && Intact(b) && Partitioned(b) && Protected(s, b) && LooseOk(b)
    && OneRequestEach(b)
    && Ordered(s, b)
  }
}
