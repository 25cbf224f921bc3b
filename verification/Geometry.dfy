/**
 * Which DATA frames a parity frame covers.  Column groups take every G-th
 * sequence number of a block of G*G, row groups take G consecutive ones.
 * The definitions follow the lanes of the sender, one step of G at a time;
 * `StaticKeys` shows that the receiver's closed formulas say the same.
 */
module Geometry {
  import opened Bytes

  const FEC_META_LEN := 4
  const INITIAL_STREAM_WINDOW := 256 * 1024

  /** The part of the connection configuration that both ends must share. */
  datatype Config = Config(group: nat, twoD: bool, maxPayload: nat, bufSize: int) {
    predicate Valid() {
      && (group == 0 || 2 <= group <= 32)
      && 12 <= maxPayload
      && DataCap() < 0x1_0000
    }

    /** Data bytes per DATA frame. */
    function DataCap(): int {
      if group > 0 then maxPayload - FEC_META_LEN else maxPayload
    }

    /** Ceiling of the receive ring. */
    function MaxBuf(): int {
      if bufSize < 2 * maxPayload then 2 * maxPayload else bufSize
    }

    /** Ring size and credit a stream starts with. */
    function InitialWindow(): int {
      Max(Min(INITIAL_STREAM_WINDOW, bufSize), 2 * maxPayload)
    }

    function Stride(row: bool): nat {
      if row then 1 else group
    }

    /** The column lane of sn, which is also its index within its row. */
    function Lane(sn: nat): (l: nat)
      ensures l <= sn && (group > 0 ==> l < group)
    {
      if group == 0 || sn < group then sn else Lane(sn - group)
    }

    /** Index of sn within its column group: a lane counts to G and starts over. */
    function ColIdx(sn: nat): (i: nat)
      ensures group > 0 ==> i < group
    {
      if group == 0 || sn < group then 0
      else
        var i := ColIdx(sn - group);
        if i + 1 == group then 0 else i + 1
    }

    /** First member of the column group of sn. */
    function ColBase(sn: nat): nat {
      if group == 0 || sn < group || ColIdx(sn) == 0 then sn else ColBase(sn - group)
    }

    /** First member of the group that holds sn. */
    function BaseOf(row: bool, sn: nat): nat {
      if row then sn - Lane(sn) else ColBase(sn)
    }

    /** Position of sn inside its group. */
    function IdxOf(row: bool, sn: nat): (i: nat)
      ensures group > 0 ==> i < group
    {
      if row then Lane(sn) else ColIdx(sn)
    }

    predicate IsBase(row: bool, base: nat) {
      group > 0 && IdxOf(row, base) == 0
    }

    /** The i-th member of a group. */
    function Member(row: bool, base: nat, i: nat): (m: nat)
      ensures base <= m
    {
      if i == 0 then base else Member(row, base, i - 1) + Stride(row)
    }
  }

  lemma {:induction false} RowMember(c: Config, base: nat, i: nat)
    ensures c.Member(true, base, i) == base + i
  {
    if i > 0 {
      RowMember(c, base, i - 1);
    }
  }

  lemma {:induction false} LaneShift(c: Config, base: nat, i: nat)
    requires c.group > 0 && c.Lane(base) == 0 && i < c.group
    ensures c.Lane(base + i) == i
  {
    if base >= c.group {
      LaneShift(c, base - c.group, i);
      assert base + i - c.group == (base - c.group) + i;
    }
  }

  lemma {:induction false} RowStart(c: Config, sn: nat)
    requires c.group > 0
    ensures c.Lane(sn - c.Lane(sn)) == 0
  {
    if sn >= c.group {
      var l := c.Lane(sn - c.group);
      RowStart(c, sn - c.group);
      LaneStep(c, sn - c.group - l);
      assert sn - c.Lane(sn) == (sn - c.group - l) + c.group;
    }
  }

  lemma LaneStep(c: Config, sn: nat)
    requires c.group > 0
    ensures c.Lane(sn + c.group) == c.Lane(sn)
  {
    assert sn + c.group - c.group == sn;
  }

  lemma {:induction false} ColumnStart(c: Config, sn: nat)
    requires c.group > 0
    ensures c.ColIdx(c.ColBase(sn)) == 0
    ensures c.Member(false, c.ColBase(sn), c.ColIdx(sn)) == sn
  {
    if sn >= c.group && c.ColIdx(sn) != 0 {
      ColumnStart(c, sn - c.group);
    }
  }

  /** Every sequence number sits at its own index of its own group. */
  lemma SeqIsMember(c: Config, row: bool, sn: nat)
    requires c.group > 0
    ensures c.IsBase(row, c.BaseOf(row, sn))
    ensures c.IdxOf(row, sn) < c.group
    ensures c.Member(row, c.BaseOf(row, sn), c.IdxOf(row, sn)) == sn
  {
    if row {
      RowStart(c, sn);
      RowMember(c, sn - c.Lane(sn), c.Lane(sn));
    } else {
      ColumnStart(c, sn);
    }
  }

  /** Conversely, the i-th member of a group is assigned to that group at index i. */
  lemma {:induction false} MemberOfGroup(c: Config, row: bool, base: nat, i: nat)
    requires c.IsBase(row, base) && i < c.group
    ensures c.BaseOf(row, c.Member(row, base, i)) == base
    ensures c.IdxOf(row, c.Member(row, base, i)) == i
  {
    if row {
      RowMember(c, base, i);
      LaneShift(c, base, i);
    } else if i > 0 {
      MemberOfGroup(c, row, base, i - 1);
      var m := c.Member(row, base, i - 1);
      assert m + c.group - c.group == m;
    }
  }

  lemma {:induction false} MemberOrder(c: Config, row: bool, base: nat, i: nat, j: nat)
    requires c.group > 0 && i < j
    ensures c.Member(row, base, i) < c.Member(row, base, j)
  {
    if i + 1 < j {
      MemberOrder(c, row, base, i, j - 1);
    }
  }

  /** How many of a group's first k members lie below n. */
  function Below(c: Config, row: bool, base: nat, n: nat, k: nat): (b: nat)
    ensures b <= k
  {
    if k == 0 then 0
    else if c.Member(row, base, k - 1) < n then k
    else Below(c, row, base, n, k - 1)
  }

  /** The members below n are the first ones. */
  lemma {:induction false} BelowIff(c: Config, row: bool, base: nat, n: nat, k: nat, i: nat)
    requires c.group > 0 && i < k
    ensures i < Below(c, row, base, n, k) <==> c.Member(row, base, i) < n
  {
    if c.Member(row, base, k - 1) < n {
      if i < k - 1 {
        MemberOrder(c, row, base, i, k - 1);
      }
    } else if i < k - 1 {
      BelowIff(c, row, base, n, k - 1, i);
    } else {
      assert Below(c, row, base, n, k - 1) <= k - 1;
    }
  }

  /** Below is the only number with that property. */
  lemma BelowUnique(c: Config, row: bool, base: nat, n: nat, k: nat, b: nat)
    requires c.group > 0 && b <= k
    requires b == 0 || c.Member(row, base, b - 1) < n
    requires b == k || n <= c.Member(row, base, b)
    ensures Below(c, row, base, n, k) == b
  {
    if b < k {
      BelowIff(c, row, base, n, k, b);
    }
    if 0 < b {
      BelowIff(c, row, base, n, k, b - 1);
    }
  }

  /** Passing one more sequence number adds a member to its own group only. */
  lemma BelowStep(c: Config, row: bool, base: nat, n: nat)
    requires c.IsBase(row, base)
    ensures Below(c, row, base, n + 1, c.group) ==
            Below(c, row, base, n, c.group) + (if base == c.BaseOf(row, n) then 1 else 0)
    ensures base == c.BaseOf(row, n) ==> Below(c, row, base, n, c.group) == c.IdxOf(row, n)
  {
    hide c.Member, c.BaseOf, c.IdxOf, Below;
    SeqIsMember(c, row, n);
    var g := c.group;
    var b := Below(c, row, base, n, g);
    if 0 < b {
      BelowIff(c, row, base, n, g, b - 1);
    }
    if b < g {
      BelowIff(c, row, base, n, g, b);
    }
    if base == c.BaseOf(row, n) {
      var i := c.IdxOf(row, n);
      BelowIff(c, row, base, n, g, i);
      if 0 < i {
        MemberOrder(c, row, base, i - 1, i);
        BelowIff(c, row, base, n, g, i - 1);
      }
      assert b == i;
      if i + 1 < g {
        MemberOrder(c, row, base, i, i + 1);
      }
      BelowUnique(c, row, base, n + 1, g, i + 1);
    } else {
      if b < g {
        MemberOfGroup(c, row, base, b);
        assert c.Member(row, base, b) != n;
      }
      BelowUnique(c, row, base, n + 1, g, b);
    }
  }

  /** Two members of one column group always lie in different rows. */
  lemma ColumnMeetsRowOnce(c: Config, a: nat, b: nat)
    requires c.group > 0 && a != b
    requires c.BaseOf(false, a) == c.BaseOf(false, b)
    ensures c.BaseOf(true, a) != c.BaseOf(true, b)
  {
    LaneOfBase(c, a);
    LaneOfBase(c, b);
  }

  lemma {:induction false} LaneOfBase(c: Config, sn: nat)
    requires c.group > 0
    ensures c.Lane(c.ColBase(sn)) == c.Lane(sn)
  {
    if sn >= c.group && c.ColIdx(sn) != 0 {
      LaneOfBase(c, sn - c.group);
    }
  }

  // --- what a parity carries ---

  function Chunk(sent: seq<Bytes>, s: nat): Bytes {
    if s < |sent| then sent[s] else []
  }

  /** XOR of the data of a group's first k members. */
  function GroupData(c: Config, sent: seq<Bytes>, row: bool, base: nat, k: nat): Bytes {
    if k == 0 then []
    else PadXor(GroupData(c, sent, row, base, k - 1), Chunk(sent, c.Member(row, base, k - 1)))
  }

  /** XOR of the lengths of a group's first k members. */
  function GroupLen(c: Config, sent: seq<Bytes>, row: bool, base: nat, k: nat): nat {
    if k == 0 then 0
    else NatXor(GroupLen(c, sent, row, base, k - 1), |Chunk(sent, c.Member(row, base, k - 1))|)
  }

  /** Sending more frames does not change a group that was already complete up to k. */
  lemma {:induction false} GroupGrow(c: Config, s: seq<Bytes>, t: seq<Bytes>, row: bool, base: nat, k: nat)
    requires s <= t && c.group > 0
    requires k == 0 || c.Member(row, base, k - 1) < |s|
    ensures GroupData(c, t, row, base, k) == GroupData(c, s, row, base, k)
    ensures GroupLen(c, t, row, base, k) == GroupLen(c, s, row, base, k)
  {
    if k > 0 {
      if k > 1 {
        MemberOrder(c, row, base, k - 2, k - 1);
      }
      GroupGrow(c, s, t, row, base, k - 1);
    }
  }

  /** A parity is as long as the longest member it covers. */
  lemma {:induction false} GroupDataCovers(c: Config, sent: seq<Bytes>, row: bool, base: nat, k: nat, i: nat)
    requires i <= k
    ensures |GroupData(c, sent, row, base, i)| <= |GroupData(c, sent, row, base, k)|
    ensures i < k ==> |Chunk(sent, c.Member(row, base, i))| <= |GroupData(c, sent, row, base, k)|
  {
    if i < k {
      GroupDataCovers(c, sent, row, base, k - 1, i);
    }
  }
}
