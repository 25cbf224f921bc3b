/** The send batch as the connection stores it: message slots, counters, and the index of the open message. */
module SendBatches {
  import opened Bytes
  import opened Pacing
  import opened Batching

  class SendBatch {
    const s: Setup
    const slots: array<Message>
    var sendN: nat
    var packIdx: int             // the slot being packed, or -1
    var packFrames: nat
    var sendWireBytes: nat
    var sendDatagrams: nat
    var sendPace: Class
    var flushed: seq<Flush>      // batches handed to the pacer and the kernel so far

    ghost predicate Valid()
      reads this, slots
    {
      && s.Valid() && slots.Length == s.batchSize && sendN <= s.batchSize
      && (packIdx == -1 || (packIdx == sendN - 1 && slots[packIdx] != [] && |slots[packIdx]| == packFrames))
    }

    ghost function View(): Batch
      reads this, slots
      requires Valid()
    {
      if packIdx < 0 then Batch(slots[..sendN], [], sendWireBytes, sendDatagrams, sendPace)
      else Batch(slots[..packIdx], slots[packIdx], sendWireBytes, sendDatagrams, sendPace)
    }

    constructor (s: Setup)
      requires s.Valid()
      ensures Valid() && View() == EMPTY && flushed == [] && this.s == s && fresh(slots)
    {
      this.s := s;
      slots := new Message[s.batchSize](_ => []);
      sendN, packIdx, packFrames := 0, -1, 0;
      sendWireBytes, sendDatagrams, sendPace := 0, 0, Bulk;
      flushed := [];
    }

    method AccountDatagram(d: Datagram)
      requires Valid()
      modifies this`sendWireBytes, this`sendDatagrams, this`sendPace
      ensures Valid() && View() == Account(s, old(View()), d)
    {
      if s.limit.Unpaced? {
        return;
      }
      if sendDatagrams == 0 {
        sendPace := d.pace;
      } else if Rank(d.pace) > Rank(sendPace) {
        sendPace := d.pace;
      }
      sendWireBytes := sendWireBytes + Cost(s.limit.accounting, |d.bytes|);
      sendDatagrams := sendDatagrams + 1;
    }

    method PacingBatchFull() returns (full: bool)
      requires Valid()
      ensures full == Full(s, View())
    {
      full := s.limit.Paced? && sendWireBytes >= s.limit.burst;
    }

    method ClosePackLocked()
      requires Valid()
      modifies this`packIdx
      ensures Valid() && View() == ClosePack(old(View())) && packIdx == -1
    {
      if packIdx < 0 {
        return;
      }
      assert slots[..sendN] == slots[..packIdx] + [slots[packIdx]];
      packIdx := -1;
    }

    method FlushSendLocked()
      requires Valid()
      modifies this
      ensures Valid() && packIdx == -1 && sendN == 0
      ensures var o := FlushAll(old(View()));
              View() == o.b && flushed == old(flushed) + o.flushed
    {
      ClosePackLocked();
      if sendN > 0 {
        flushed := flushed + [Flush(slots[..sendN], sendWireBytes, sendPace)];
      }
      sendN := 0;
      sendWireBytes, sendDatagrams, sendPace := 0, 0, Bulk;
    }

    method AcquireSendSlot(pace: Class) returns (idx: nat)
      requires Valid()
      modifies this
      ensures Valid() && packIdx == -1 && idx == sendN < slots.Length
      ensures var o := Acquire(s, old(View()), pace);
              View() == o.b && flushed == old(flushed) + o.flushed
    {
      ClosePackLocked();
      if s.limit.Paced? && sendDatagrams > 0 && sendPace != pace {
        FlushSendLocked();
      }
      if sendN >= s.batchSize {
        FlushSendLocked();
      }
      idx := sendN;
    }

    method CommitSendSlot(idx: nat, d: Datagram)
      requires Valid() && packIdx == -1 && idx == sendN < slots.Length
      modifies this, slots
      ensures Valid()
      ensures var o := Commit(s, old(View()), d);
              View() == o.b && flushed == old(flushed) + o.flushed
    {
      ghost var b := View();
      slots[idx] := [d];
      sendN := idx + 1;
      assert slots[..sendN] == b.msgs + [[d]];
      AccountDatagram(d);
      var full := PacingBatchFull();
      if sendN >= s.batchSize || full {
        FlushSendLocked();
      }
    }

    method QueueFrame(d: Datagram)
      requires Valid()
      modifies this, slots
      ensures Valid()
      ensures var o := QueueSingle(s, old(View()), d);
              View() == o.b && flushed == old(flushed) + o.flushed
    {
      hide Acquire, Commit;
      var idx := AcquireSendSlot(d.pace);
      CommitSendSlot(idx, d);
    }

    method MakeRoomLocked()
      requires Valid()
      modifies this
      ensures Valid() && (packIdx < 0 ==> sendN < s.batchSize)
      ensures var o := MakeRoom(s, old(View()));
              View() == o.b && flushed == old(flushed) + o.flushed
    {
      if s.limit.Paced? && sendDatagrams > 0 && sendPace != Bulk {
        FlushSendLocked();
      }
      if packIdx < 0 {
        if sendN >= s.batchSize {
          FlushSendLocked();
        }
      }
    }

    method QueueFrameGSOLocked(bytes: Bytes)
      requires Valid()
      modifies this, slots
      ensures Valid()
      ensures var o := QueuePacked(s, old(View()), Datagram(bytes, Bulk));
              View() == o.b && flushed == old(flushed) + o.flushed
    {
      hide MakeRoom, PackFrame;
      MakeRoomLocked();
      PackFrameLocked(Datagram(bytes, Bulk));
    }

    method PackFrameLocked(d: Datagram)
      requires Valid() && (packIdx < 0 ==> sendN < s.batchSize)
      modifies this, slots
      ensures Valid()
      ensures var o := PackFrame(s, old(View()), d);
              View() == o.b && flushed == old(flushed) + o.flushed
    {
      hide FlushAll, Account;
      ghost var b := View();
      PlaceFrame(d);
      AccountDatagram(d);
      AccountSame(s, b.(pack := b.pack + [d]), d);
      var full := PacingBatchFull();
      if packFrames >= s.gsoMax || |d.bytes| < s.gsoSize || full {
        ClosePackLocked();
        if sendN >= s.batchSize || full {
          FlushSendLocked();
        }
      }
    }

    /** Writes a frame behind the open message, opening one in the next slot if there is none. */
    method PlaceFrame(d: Datagram)
      requires Valid() && (packIdx < 0 ==> sendN < s.batchSize)
      modifies this`packIdx, this`sendN, this`packFrames, slots
      ensures Valid() && packIdx == sendN - 1
      ensures View() == old(View()).(pack := old(View()).pack + [d])
    {
      ghost var b := View();
      if packIdx < 0 {
        packIdx := sendN;
        sendN := sendN + 1;
        packFrames := 0;
        slots[packIdx] := [];
      }
      slots[packIdx] := slots[packIdx] + [d];
      packFrames := packFrames + 1;
      assert slots[..packIdx] == b.msgs;
    }
  }
}
