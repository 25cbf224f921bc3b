/**
 * How frames are gathered into a send batch: one message per frame, or several full-size
 * frames packed into one message for the kernel to segment; batches kept to one pacing
 * class and flushed once their wire charge reaches the burst.
 */
module Batching {
  import opened Bytes
  import opened Pacing

  datatype Class = Critical | Recovery | Bulk

  /** Pacing is off when there is no limit. */
  datatype Limit = Unpaced | Paced(burst: nat, accounting: Accounting)

  datatype Setup = Setup(batchSize: nat, gsoSize: nat, gsoMax: nat, limit: Limit) {
    predicate Valid() {
      batchSize > 0 && gsoSize > 0 && gsoMax > 0 && (limit.Paced? ==> limit.burst > 0)
    }
  }

  datatype Datagram = Datagram(bytes: Bytes, pace: Class)

  type Message = seq<Datagram>

  /** Closed messages, and the one still being packed if it is not empty. */
  datatype Batch = Batch(msgs: seq<Message>, pack: Message, wire: nat, datagrams: nat, pace: Class)

  const EMPTY := Batch([], [], 0, 0, Bulk)

  datatype Flush = Flush(msgs: seq<Message>, wire: nat, pace: Class)

  datatype Out = Out(b: Batch, flushed: seq<Flush>)

  function Charge(s: Setup, d: Datagram): nat {
    if s.limit.Paced? then Cost(s.limit.accounting, |d.bytes|) else 0
  }

  function Rank(c: Class): nat {
    match c case Critical => 0 case Recovery => 1 case Bulk => 2
  }

  function Account(s: Setup, b: Batch, d: Datagram): Batch {
    if s.limit.Unpaced? then b
    else
      b.(pace := if b.datagrams == 0 || Rank(d.pace) > Rank(b.pace) then d.pace else b.pace,
         wire := b.wire + Charge(s, d), datagrams := b.datagrams + 1)
  }

  predicate Full(s: Setup, b: Batch) {
    s.limit.Paced? && b.wire >= s.limit.burst
  }

  function ClosePack(b: Batch): Batch {
    if b.pack == [] then b else b.(msgs := b.msgs + [b.pack], pack := [])
  }

  function FlushAll(b: Batch): Out {
    var c := ClosePack(b);
    Out(EMPTY, if c.msgs == [] then [] else [Flush(c.msgs, c.wire, c.pace)])
  }

  function FlushIf(b: Batch, c: bool): Out {
    if c then FlushAll(b) else Out(b, [])
  }

  /** A batch of another class is sent first. */
  predicate MustSplit(s: Setup, b: Batch, pace: Class) {
    s.limit.Paced? && b.datagrams > 0 && b.pace != pace
  }

  /** A slot for a frame in a message of its own. */
  function Acquire(s: Setup, b: Batch, pace: Class): Out {
    var c := ClosePack(b);
    FlushIf(c, MustSplit(s, c, pace) || |c.msgs| >= s.batchSize)
  }

  function Commit(s: Setup, b: Batch, d: Datagram): Out {
    var added := Account(s, b.(msgs := b.msgs + [[d]]), d);
    FlushIf(added, |added.msgs| >= s.batchSize || Full(s, added))
  }

  function QueueSingle(s: Setup, b: Batch, d: Datagram): Out {
    var a := Acquire(s, b, d.pace);
    var z := Commit(s, a.b, d);
    Out(z.b, a.flushed + z.flushed)
  }

  /** Makes room in the open message for one more bulk frame. */
  function MakeRoom(s: Setup, b: Batch): Out {
    FlushIf(b, MustSplit(s, b, Bulk) || (b.pack == [] && |b.msgs| >= s.batchSize))
  }

  function PackFrame(s: Setup, b: Batch, d: Datagram): Out {
    var added := Account(s, b.(pack := b.pack + [d]), d);
    if |added.pack| >= s.gsoMax || |d.bytes| < s.gsoSize || Full(s, added)
    then
      var closed := ClosePack(added);
      FlushIf(closed, |closed.msgs| >= s.batchSize || Full(s, closed))
    else Out(added, [])
  }

  /** A bulk frame packed behind others into a message that the kernel will segment. */
  function QueuePacked(s: Setup, b: Batch, d: Datagram): Out {
    var a := MakeRoom(s, b);
    var z := PackFrame(s, a.b, d);
    Out(z.b, a.flushed + z.flushed)
  }

  // --- runs ---

  datatype Op = Single(d: Datagram) | Packed(bytes: Bytes) | FlushNow

  function Apply(s: Setup, b: Batch, op: Op): Out {
    match op
    case Single(d) => QueueSingle(s, b, d)
    case Packed(bytes) => QueuePacked(s, b, Datagram(bytes, Bulk))
    case FlushNow => FlushAll(b)
  }

  function Run(s: Setup, ops: seq<Op>): Out {
    if ops == [] then Out(EMPTY, [])
    else
      var a := Run(s, ops[..|ops| - 1]);
      var z := Apply(s, a.b, ops[|ops| - 1]);
      Out(z.b, a.flushed + z.flushed)
  }

  /** Frames fit a datagram, and packing is used only where the kernel segments. */
  predicate OpOk(s: Setup, op: Op) {
    match op
    case Single(d) => 0 < |d.bytes| <= s.gsoSize
    case Packed(bytes) => 0 < |bytes| <= s.gsoSize && s.gsoMax >= 2
    case FlushNow => true
  }

  predicate OpsOk(s: Setup, ops: seq<Op>) {
    forall i :: 0 <= i < |ops| ==> OpOk(s, ops[i])
  }

  // --- when a batch leaves ---

  function ClassOf(op: Op): Class
    requires !op.FlushNow?
  {
    if op.Single? then op.d.pace else Bulk
  }

  /** The batch has as many messages as fit, or its charge has reached the burst. */
  predicate Complete(s: Setup, f: Flush) {
    |f.msgs| >= s.batchSize || (s.limit.Paced? && f.wire >= s.limit.burst)
  }

  /** What queueing a frame flushes is complete, or must make way for a frame of another class. */
  lemma FlushedForCause(s: Setup, b: Batch, op: Op, f: Flush)
    requires !op.FlushNow? && f in Apply(s, b, op).flushed
    ensures Complete(s, f) || (s.limit.Paced? && f.pace != ClassOf(op))
  {
    hide Cost;
  }

  function Packs(frames: seq<Bytes>): seq<Op> {
    seq(|frames|, i requires 0 <= i < |frames| => Packed(frames[i]))
  }

  function Grams(frames: seq<Bytes>): Message {
    seq(|frames|, i requires 0 <= i < |frames| => Datagram(frames[i], Bulk))
  }

  /** Full-size bulk frames in a row, up to the most the kernel segments and short of the burst, travel in one message. */
  lemma {:induction false} PackTogether(s: Setup, frames: seq<Bytes>)
    requires s.Valid() && 1 < s.gsoMax && 1 < s.batchSize && |frames| <= s.gsoMax
    requires forall i :: 0 <= i < |frames| ==> |frames[i]| == s.gsoSize
    requires s.limit.Paced? ==> |frames| * Cost(s.limit.accounting, s.gsoSize) < s.limit.burst
    ensures var o := Run(s, Packs(frames));
            && o.flushed == [] && o.b.pace.Bulk?
            && o.b.wire == (if s.limit.Paced? then |frames| * Cost(s.limit.accounting, s.gsoSize) else 0)
            && (if |frames| < s.gsoMax then o.b.msgs == [] && o.b.pack == Grams(frames)
                else o.b.msgs == [Grams(frames)] && o.b.pack == [])
  {
    hide Cost;
    if frames != [] {
      var n := |frames| - 1;
      assert Packs(frames)[..n] == Packs(frames[..n]);
      assert Grams(frames) == Grams(frames[..n]) + [Datagram(frames[n], Bulk)];
      if s.limit.Paced? {
        var cost := Cost(s.limit.accounting, s.gsoSize);
        assert |frames| * cost == n * cost + cost;
      }
      PackTogether(s, frames[..n]);
    }
  }

  // --- what a batch keeps ---

  /** Every segment but the last has exactly the segment size. */
  predicate MessageOk(s: Setup, m: Message) {
    && 0 < |m| <= s.gsoMax
    && (forall i :: 0 <= i < |m| ==> 0 < |m[i].bytes| <= s.gsoSize)
    && (forall i :: 0 <= i < |m| - 1 ==> |m[i].bytes| == s.gsoSize)
  }

  predicate PackOk(s: Setup, m: Message) {
    (m != [] ==> |m| < s.gsoMax) && (forall i :: 0 <= i < |m| ==> |m[i].bytes| == s.gsoSize)
  }

  function Join(msgs: seq<Message>): seq<Datagram> {
    if msgs == [] then [] else Join(msgs[..|msgs| - 1]) + msgs[|msgs| - 1]
  }

  function Frames(b: Batch): seq<Datagram> {
    Join(b.msgs) + b.pack
  }

  function Charges(s: Setup, ds: seq<Datagram>): nat {
    if ds == [] then 0 else Charges(s, ds[..|ds| - 1]) + Charge(s, ds[|ds| - 1])
  }

  predicate Homogeneous(ds: seq<Datagram>, pace: Class) {
    forall i :: 0 <= i < |ds| ==> ds[i].pace == pace
  }

  /** The counters describe the frames in the batch, which under pacing are all of one class. */
  predicate Accounted(s: Setup, b: Batch) {
    if s.limit.Paced?
    then b.datagrams == |Frames(b)| && b.wire == Charges(s, Frames(b)) && Homogeneous(Frames(b), b.pace)
    else b.datagrams == 0 && b.wire == 0
  }

  predicate Shaped(s: Setup, b: Batch) {
    && (forall i :: 0 <= i < |b.msgs| ==> MessageOk(s, b.msgs[i]))
    && PackOk(s, b.pack)
  }

  /** Between calls there is a free slot, and the charge is short of the burst. */
  predicate BatchOk(s: Setup, b: Batch) {
    && Shaped(s, b) && Accounted(s, b)
    && |b.msgs| < s.batchSize
    && (s.limit.Paced? ==> b.wire < s.limit.burst)
  }

  /** The largest wire charge of a frame. */
  function MaxCost(s: Setup): nat {
    if s.limit.Paced? then Cost(s.limit.accounting, s.gsoSize) else 0
  }

  /** What is true of every batch handed to the pacer and the kernel. */
  predicate FlushOk(s: Setup, f: Flush) {
    && 0 < |f.msgs| <= s.batchSize
    && (forall i :: 0 <= i < |f.msgs| ==> MessageOk(s, f.msgs[i]))
    && (s.limit.Paced? ==>
          && f.wire == Charges(s, Join(f.msgs)) && Homogeneous(Join(f.msgs), f.pace)
          && f.wire <= s.limit.burst - 1 + MaxCost(s))
  }

  predicate FlushesOk(s: Setup, fs: seq<Flush>) {
    forall i :: 0 <= i < |fs| ==> FlushOk(s, fs[i])
  }

  function Sent(fs: seq<Flush>): seq<Datagram> {
    if fs == [] then [] else Sent(fs[..|fs| - 1]) + Join(fs[|fs| - 1].msgs)
  }

  /** A batch that may be one frame over: what a flush accepts. */
  predicate Flushable(s: Setup, b: Batch) {
    && Shaped(s, b) && Accounted(s, b)
    && |ClosePack(b).msgs| <= s.batchSize
    && (s.limit.Paced? ==> b.wire <= s.limit.burst - 1 + MaxCost(s))
  }

  lemma JoinSnoc(msgs: seq<Message>, m: Message)
    ensures Join(msgs + [m]) == Join(msgs) + m
  {
    assert (msgs + [m])[..|msgs|] == msgs;
  }

  lemma ChargesSnoc(s: Setup, ds: seq<Datagram>, d: Datagram)
    ensures Charges(s, ds + [d]) == Charges(s, ds) + Charge(s, d)
  {
    assert (ds + [d])[..|ds|] == ds;
  }

  lemma ChargeBound(s: Setup, d: Datagram)
    requires |d.bytes| <= s.gsoSize
    ensures Charge(s, d) <= MaxCost(s)
  {
  }

  lemma PackIsMessage(s: Setup, m: Message)
    requires s.Valid() && PackOk(s, m) && m != []
    ensures MessageOk(s, m)
  {
  }

  lemma NoPackOk(s: Setup)
    ensures PackOk(s, [])
  {
  }

  lemma FramesClosed(b: Batch)
    ensures Frames(ClosePack(b)) == Frames(b) == Join(ClosePack(b).msgs) && ClosePack(b).pack == []
  {
    JoinSnoc(b.msgs, b.pack);
    hide Join;
  }

  lemma CloseShaped(s: Setup, b: Batch)
    requires s.Valid() && Shaped(s, b)
    ensures Shaped(s, ClosePack(b))
  {
    hide MessageOk, PackOk;
    NoPackOk(s);
    if b.pack != [] {
      PackIsMessage(s, b.pack);
    }
  }

  lemma CloseKeeps(s: Setup, b: Batch)
    requires s.Valid() && Shaped(s, b) && Accounted(s, b)
    ensures Shaped(s, ClosePack(b)) && Accounted(s, ClosePack(b)) && Frames(ClosePack(b)) == Frames(b)
    ensures ClosePack(b).pack == []
  {
    hide Frames, Join, Shaped, Charges, Homogeneous, ClosePack;
    FramesClosed(b);
    CloseShaped(s, b);
    CloseIs(b);
  }

  lemma FlushKeeps(s: Setup, b: Batch)
    requires s.Valid() && Flushable(s, b)
    ensures var o := FlushAll(b);
            o.b == EMPTY && BatchOk(s, o.b) && FlushesOk(s, o.flushed) && Sent(o.flushed) == Frames(b)
  {
    hide Frames, Join, Charges, Homogeneous, MessageOk, PackOk, ClosePack, Sent, BatchOk, Cost;
    CloseKeeps(s, b);
    CloseIs(b);
    FramesClosed(b);
    EmptyFrames(s);
    var c := ClosePack(b);
    SentOne(Flush(c.msgs, c.wire, c.pace));
    NoneSent();
    NoneJoined();
  }

  lemma NoneJoined()
    ensures Join([]) == []
  {
  }

  lemma SentOne(f: Flush)
    ensures Sent([f]) == Join(f.msgs)
  {
    hide Join;
    NoneSent();
    SentSnoc([], f);
    assert [] + [f] == [f] && [] + Join(f.msgs) == Join(f.msgs);
  }

  /** A batch that a frame of this class can join without a further flush. */
  predicate Ready(s: Setup, b: Batch, pace: Class) {
    BatchOk(s, b) && !MustSplit(s, b, pace)
  }

  lemma AcquireKeeps(s: Setup, b: Batch, pace: Class)
    requires s.Valid() && BatchOk(s, b)
    ensures var o := Acquire(s, b, pace);
            Ready(s, o.b, pace) && o.b.pack == [] && FlushesOk(s, o.flushed) && Sent(o.flushed) + Frames(o.b) == Frames(b)
  {
    hide Accounted, Frames, Shaped, FlushAll, FlushOk, Sent, ClosePack;
    CloseKeeps(s, b);
    CloseIs(b);
    CloseIs(ClosePack(b));
    FlushKeeps(s, ClosePack(b));
    EmptyFrames(s);
    NoneSent();
  }

  lemma EmptyFrames(s: Setup)
    requires s.Valid()
    ensures Frames(EMPTY) == [] && BatchOk(s, EMPTY)
  {
  }

  lemma PaceSnoc(ds: seq<Datagram>, pace: Class, d: Datagram)
    requires Homogeneous(ds, pace) && (ds == [] || pace == d.pace)
    ensures Homogeneous(ds + [d], d.pace)
  {
  }

  lemma FramesSame(b: Batch, t: Batch)
    requires t.msgs == b.msgs && t.pack == b.pack
    ensures Frames(t) == Frames(b)
  {
    hide Join;
  }

  lemma AccountKeeps(s: Setup, b: Batch, d: Datagram, t: Batch)
    requires Accounted(s, b) && !MustSplit(s, b, d.pace)
    requires t == b.(msgs := t.msgs, pack := t.pack) && Frames(t) == Frames(b) + [d]
    ensures Accounted(s, Account(s, t, d)) && Frames(Account(s, t, d)) == Frames(b) + [d]
  {
    hide Frames, Charges, Homogeneous, Charge, Rank;
    var ds := Frames(b);
    ChargesSnoc(s, ds, d);
    FramesSame(t, Account(s, t, d));
    if s.limit.Paced? {
      assert ds == [] <==> b.datagrams == 0;
      PaceSnoc(ds, b.pace, d);
      assert Account(s, t, d).pace == d.pace;
    }
  }

  lemma SingleOk(s: Setup, d: Datagram)
    requires s.Valid() && 0 < |d.bytes| <= s.gsoSize
    ensures MessageOk(s, [d])
  {
  }

  lemma CommitShapes(s: Setup, b: Batch, d: Datagram)
    requires s.Valid() && Shaped(s, b) && b.pack == [] && 0 < |d.bytes| <= s.gsoSize
    ensures var t := b.(msgs := b.msgs + [[d]]);
            Frames(t) == Frames(b) + [d] && Shaped(s, t)
  {
    hide Join, MessageOk, PackOk;
    JoinSnoc(b.msgs, [d]);
    SingleOk(s, d);
  }

  lemma CommitKeeps(s: Setup, b: Batch, d: Datagram)
    requires s.Valid() && Ready(s, b, d.pace) && b.pack == [] && 0 < |d.bytes| <= s.gsoSize
    ensures var o := Commit(s, b, d);
            BatchOk(s, o.b) && FlushesOk(s, o.flushed) && Sent(o.flushed) + Frames(o.b) == Frames(b) + [d]
  {
    hide Accounted, Frames, Shaped, Charge, MaxCost, Account, FlushAll, FlushOk, Sent, ClosePack;
    var t := b.(msgs := b.msgs + [[d]]);
    CommitShapes(s, b, d);
    AccountKeeps(s, b, d, t);
    AccountSame(s, t, d);
    ChargeBound(s, d);
    var added := Account(s, t, d);
    CloseIs(added);
    ShapedSame(s, t, added);
    FlushKeeps(s, added);
    EmptyFrames(s);
    NoneSent();
  }

  lemma SentSnoc(fs: seq<Flush>, f: Flush)
    ensures Sent(fs + [f]) == Sent(fs) + Join(f.msgs)
  {
    assert (fs + [f])[..|fs|] == fs;
  }

  lemma {:induction false} SentJoins(a: seq<Flush>, b: seq<Flush>)
    ensures Sent(a + b) == Sent(a) + Sent(b)
  {
    hide Join, Sent;
    if b == [] {
      assert a + b == a;
      assert Sent([]) == [] by {
        NoneSent();
      }
    } else {
      var n := |b| - 1;
      SentJoins(a, b[..n]);
      SentSnoc(b[..n], b[n]);
      SentSnoc(a + b[..n], b[n]);
      assert b == b[..n] + [b[n]];
      assert a + b == a + b[..n] + [b[n]];
      Assoc(Sent(a), Sent(b[..n]), Join(b[n].msgs));
    }
  }

  lemma NoneSent()
    ensures Sent([]) == []
  {
  }

  lemma Assoc(x: seq<Datagram>, y: seq<Datagram>, z: seq<Datagram>)
    ensures (x + y) + z == x + (y + z)
  {
  }

  /** Two steps that each keep the order keep it together. */
  lemma Chain(x: seq<Datagram>, p: seq<Datagram>, q: seq<Datagram>, y: seq<Datagram>, w: seq<Datagram>, d: seq<Datagram>)
    requires x + p == q && y + w == p + d
    ensures (x + y) + w == q + d
  {
    Assoc(x, y, w);
    Assoc(x, p, d);
  }

  lemma MakeRoomKeeps(s: Setup, b: Batch)
    requires s.Valid() && BatchOk(s, b)
    ensures var o := MakeRoom(s, b);
            Ready(s, o.b, Bulk) && FlushesOk(s, o.flushed) && Sent(o.flushed) + Frames(o.b) == Frames(b)
  {
    hide Accounted, Frames, Shaped, FlushAll, FlushOk, Sent, ClosePack;
    CloseIs(b);
    FlushKeeps(s, b);
    EmptyFrames(s);
    NoneSent();
  }

  /** The open message with one more frame is a proper message; it stays open-ended if the frame is full-size and room is left. */
  lemma PackShapes(s: Setup, b: Batch, d: Datagram)
    requires s.Valid() && Shaped(s, b) && 0 < |d.bytes| <= s.gsoSize && s.gsoMax >= 2
    ensures var t := b.(pack := b.pack + [d]);
            && Frames(t) == Frames(b) + [d]
            && Shaped(s, ClosePack(t)) && Frames(ClosePack(t)) == Frames(t)
            && (|d.bytes| == s.gsoSize && |t.pack| < s.gsoMax ==> Shaped(s, t))
  {
    var t := b.(pack := b.pack + [d]);
    Assoc(Join(b.msgs), b.pack, [d]);
    JoinSnoc(b.msgs, t.pack);
    assert MessageOk(s, t.pack);
    assert ClosePack(t).pack == [];
    hide Join;
  }

  lemma AccountSame(s: Setup, b: Batch, d: Datagram)
    ensures var a := Account(s, b, d);
            a == b.(wire := a.wire, datagrams := a.datagrams, pace := a.pace) && a.wire <= b.wire + Charge(s, d)
    ensures ClosePack(Account(s, b, d)) == Account(s, ClosePack(b), d)
  {
  }

  lemma PackKeeps(s: Setup, b: Batch, d: Datagram)
    requires s.Valid() && Ready(s, b, Bulk) && d.pace == Bulk && 0 < |d.bytes| <= s.gsoSize && s.gsoMax >= 2
    ensures var o := PackFrame(s, b, d);
            BatchOk(s, o.b) && FlushesOk(s, o.flushed) && Sent(o.flushed) + Frames(o.b) == Frames(b) + [d]
  {
    hide Accounted, Frames, Shaped, Charge, MaxCost, Account, FlushAll, FlushOk, Sent, ClosePack;
    var t := b.(pack := b.pack + [d]);
    PackShapes(s, b, d);
    AccountKeeps(s, b, d, t);
    AccountSame(s, t, d);
    AccountSame(s, ClosePack(t), d);
    CloseIs(t);
    AccountKeeps(s, b, d, ClosePack(t));
    ChargeBound(s, d);
    var added, closed := Account(s, t, d), ClosePack(Account(s, t, d));
    CloseIs(added);
    CloseIs(closed);
    ShapedSame(s, t, added);
    ShapedSame(s, ClosePack(t), closed);
    FlushKeeps(s, closed);
    EmptyFrames(s);
    NoneSent();
  }

  lemma CloseIs(b: Batch)
    ensures var c := ClosePack(b);
            c == b.(msgs := c.msgs, pack := []) && |c.msgs| == |b.msgs| + (if b.pack == [] then 0 else 1)
  {
  }

  lemma ShapedSame(s: Setup, b: Batch, t: Batch)
    requires t.msgs == b.msgs && t.pack == b.pack
    ensures Shaped(s, t) == Shaped(s, b) && Frames(t) == Frames(b)
  {
  }

  function Queued(op: Op): seq<Datagram> {
    match op
    case Single(d) => [d]
    case Packed(bytes) => [Datagram(bytes, Bulk)]
    case FlushNow => []
  }

  /** Every call keeps the batch in shape, flushes only proper batches, and keeps all frames in order. */
  lemma ApplyKeeps(s: Setup, b: Batch, op: Op)
    requires s.Valid() && BatchOk(s, b) && OpOk(s, op)
    ensures var o := Apply(s, b, op);
            BatchOk(s, o.b) && FlushesOk(s, o.flushed) && Sent(o.flushed) + Frames(o.b) == Frames(b) + Queued(op)
  {
    hide BatchOk, Frames, FlushesOk, Commit, Acquire, MakeRoom, PackFrame, Ready, Sent, FlushAll;
    match op
    case Single(d) => {
      var a := Acquire(s, b, d.pace);
      AcquireKeeps(s, b, d.pace);
      CommitKeeps(s, a.b, d);
      var z := Commit(s, a.b, d);
      Together(s, a.flushed, z.flushed);
      Chain(Sent(a.flushed), Frames(a.b), Frames(b), Sent(z.flushed), Frames(z.b), [d]);
    }
    case Packed(bytes) => {
      var d, a := Datagram(bytes, Bulk), MakeRoom(s, b);
      MakeRoomKeeps(s, b);
      PackKeeps(s, a.b, d);
      var z := PackFrame(s, a.b, d);
      Together(s, a.flushed, z.flushed);
      Chain(Sent(a.flushed), Frames(a.b), Frames(b), Sent(z.flushed), Frames(z.b), [d]);
    }
    case FlushNow => {
      OkFlushable(s, b);
      FlushKeeps(s, b);
      EmptyFrames(s);
    }
  }

  lemma OkFlushable(s: Setup, b: Batch)
    requires BatchOk(s, b)
    ensures Flushable(s, b)
  {
  }

  lemma Together(s: Setup, a: seq<Flush>, b: seq<Flush>)
    requires FlushesOk(s, a) && FlushesOk(s, b)
    ensures FlushesOk(s, a + b) && Sent(a + b) == Sent(a) + Sent(b)
  {
    SentJoins(a, b);
  }

  function QueuedBy(ops: seq<Op>): seq<Datagram> {
    if ops == [] then [] else QueuedBy(ops[..|ops| - 1]) + Queued(ops[|ops| - 1])
  }

  /** Over every run: each flushed batch is homogeneous, exactly accounted and at most burst - 1 + the largest
      cost; and what was flushed followed by what is pending is what was queued, in order. */
  lemma {:induction false} RunKeeps(s: Setup, ops: seq<Op>)
    requires s.Valid() && OpsOk(s, ops)
    ensures var o := Run(s, ops);
            BatchOk(s, o.b) && FlushesOk(s, o.flushed) && Sent(o.flushed) + Frames(o.b) == QueuedBy(ops)
  {
    if ops == [] {
      EmptyFrames(s);
    } else {
      hide BatchOk, Frames, FlushesOk, Apply, Sent;
      var n := |ops| - 1;
      var a := Run(s, ops[..n]);
      RunKeeps(s, ops[..n]);
      ApplyKeeps(s, a.b, ops[n]);
      var z := Apply(s, a.b, ops[n]);
      Together(s, a.flushed, z.flushed);
      Chain(Sent(a.flushed), Frames(a.b), QueuedBy(ops[..n]), Sent(z.flushed), Frames(z.b), Queued(ops[n]));
    }
  }

  // --- segmentation ---

  /** The kernel cuts a message into datagrams of the segment size; the last may be shorter. */
  function Cut(b: Bytes, size: nat): seq<Bytes>
    requires size > 0
    decreases |b|
  {
    if b == [] then []
    else if |b| <= size then [b]
    else [b[..size]] + Cut(b[size..], size)
  }

  /** A message's bytes on the socket: its frames back to back. */
  function Gather(m: Message): Bytes {
    if m == [] then [] else m[0].bytes + Gather(m[1..])
  }

  function Payloads(m: Message): seq<Bytes> {
    seq(|m|, i requires 0 <= i < |m| => m[i].bytes)
  }

  /** Segmentation recovers exactly the frames that were packed. */
  lemma {:induction false} CutExact(s: Setup, m: Message)
    requires s.Valid() && MessageOk(s, m)
    ensures Cut(Gather(m), s.gsoSize) == Payloads(m)
  {
    var rest := m[1..];
    if rest == [] {
      assert Gather(m) == m[0].bytes;
    } else {
      assert |m[0].bytes| == s.gsoSize;
      assert MessageOk(s, rest);
      CutExact(s, rest);
      assert |Gather(rest)| > 0 by {
        assert |rest[0].bytes| > 0;
      }
      assert Gather(m)[..s.gsoSize] == m[0].bytes && Gather(m)[s.gsoSize..] == Gather(rest);
      assert Payloads(m) == [m[0].bytes] + Payloads(rest);
    }
  }
}
