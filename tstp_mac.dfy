/**
 * The transmit schedule of the TSTP MAC (include/machine/common/tstp_mac.h):
 * the list of buffers waiting to be sent, the choice of the next one, and
 * the removal of buffers a neighbour is already forwarding.
 */
module TstpMac {
  import opened Wrappers
  import Tstp

  /** The metadata of a scheduled buffer that the MAC reads or writes. */
  datatype Buffer = Buffer(id: bv16, expiry: int, size: nat, isMicroframe: bool, trusted: bool, isNew: bool)

  // ---------------------------------------------------------------- schedule filters

  /** The buffers that have not expired at time now, in their order. */
  function Unexpired(s: seq<Buffer>, now: int): (r: seq<Buffer>)
    ensures |r| <= |s|
  {
    if s == [] then []
    else
      var last := s[|s| - 1];
      Unexpired(s[..|s| - 1], now) + (if last.expiry > now then [last] else [])
  }

  /** The buffers whose id differs from id, in their order. */
  function WithoutId(s: seq<Buffer>, id: bv16): (r: seq<Buffer>)
    ensures |r| <= |s|
  {
    if s == [] then []
    else
      var last := s[|s| - 1];
      WithoutId(s[..|s| - 1], id) + (if last.id != id then [last] else [])
  }

  /** A buffer is kept exactly when it was scheduled and has not expired. */
  lemma {:induction false} UnexpiredMembers(s: seq<Buffer>, now: int)
    ensures forall b :: b in Unexpired(s, now) <==> b in s && b.expiry > now
  {
    if s != [] {
      var init := s[..|s| - 1];
      UnexpiredMembers(init, now);
      assert s == init + [s[|s| - 1]];
    }
  }

  /** Pruning keeps the order: pruning a concatenation concatenates the pruned parts. */
  lemma {:induction false} UnexpiredAppend(a: seq<Buffer>, b: seq<Buffer>, now: int)
    ensures Unexpired(a + b, now) == Unexpired(a, now) + Unexpired(b, now)
  {
    if b != [] {
      var init := b[..|b| - 1];
      var last := b[|b| - 1];
      assert (a + b)[..|a + b| - 1] == a + init;
      UnexpiredAppend(a, init, now);
      var tail := if last.expiry > now then [last] else [];
      assert Unexpired(a, now) + Unexpired(init, now) + tail == Unexpired(a, now) + (Unexpired(init, now) + tail);
    } else {
      assert a + b == a;
    }
  }

  /** A schedule in which nothing has expired is left as it is. */
  lemma {:induction false} UnexpiredNoneExpired(s: seq<Buffer>, now: int)
    requires forall i :: 0 <= i < |s| ==> s[i].expiry > now
    ensures Unexpired(s, now) == s
  {
    if s != [] {
      UnexpiredNoneExpired(s[..|s| - 1], now);
    }
  }

  /** A buffer survives the same-id removal exactly when it was scheduled under another id. */
  lemma {:induction false} WithoutIdMembers(s: seq<Buffer>, id: bv16)
    ensures forall b :: b in WithoutId(s, id) <==> b in s && b.id != id
  {
    if s != [] {
      var init := s[..|s| - 1];
      WithoutIdMembers(init, id);
      assert s == init + [s[|s| - 1]];
    }
  }

  /** The same-id removal keeps the order of the other buffers. */
  lemma {:induction false} WithoutIdAppend(a: seq<Buffer>, b: seq<Buffer>, id: bv16)
    ensures WithoutId(a + b, id) == WithoutId(a, id) + WithoutId(b, id)
  {
    if b != [] {
      var init := b[..|b| - 1];
      var last := b[|b| - 1];
      assert (a + b)[..|a + b| - 1] == a + init;
      WithoutIdAppend(a, init, id);
      var tail := if last.id != id then [last] else [];
      assert WithoutId(a, id) + WithoutId(init, id) + tail == WithoutId(a, id) + (WithoutId(init, id) + tail);
    } else {
      assert a + b == a;
    }
  }

  // ---------------------------------------------------------------- the pending buffer

  /**
   * Index k holds the buffer update_tx_schedule picks: one of least expiry,
   * and the last of those, since a later buffer replaces the pick on a tie.
   */
  ghost predicate IsPending(s: seq<Buffer>, k: nat) {
    && k < |s|
    && (forall j :: 0 <= j < |s| ==> s[k].expiry <= s[j].expiry)
    && (forall j :: k < j < |s| ==> s[k].expiry < s[j].expiry)
  }

  /** At most one index is the pending one. */
  lemma PendingUnique(s: seq<Buffer>, k1: nat, k2: nat)
    requires IsPending(s, k1) && IsPending(s, k2)
    ensures k1 == k2
  {
    assert s[k1].expiry <= s[k2].expiry;
    assert s[k2].expiry <= s[k1].expiry;
  }

  /**
   * With id() as it is written, a received microframe can clear only ids in
   * 0xF00..0xFFF when its count's low nibble is 0, and only ids of 0x1000 or
   * more otherwise: every buffer with a marshalled 12-bit id below 0xF00 is
   * kept, and so is every 12-bit id when the count's low nibble is not 0.
   */
  lemma {:induction false} RemovalAsWritten(s: seq<Buffer>, word: bv16, idl: bv8)
    ensures forall b :: b in s && b.id < 0xf00 ==> b in WithoutId(s, Tstp.IdOfAsWritten(word, idl))
    ensures Tstp.CountOf(word) & 0xf != 0 ==>
      forall b :: b in s && b.id < 0x1000 ==> b in WithoutId(s, Tstp.IdOfAsWritten(word, idl))
  {
    var id := Tstp.IdOfAsWritten(word, idl);
    WithoutIdMembers(s, id);
    AtLeastMiddle(id);
    if Tstp.CountOf(word) & 0xf != 0 {
      AtLeastHigh(id);
    }
  }

  lemma AtLeastMiddle(r: bv16)
    requires r & 0x0f00 == 0x0f00
    ensures r >= 0xf00
  {
  }

  lemma AtLeastHigh(r: bv16)
    requires r >> 12 != 0
    ensures r >= 0x1000
  {
  }

  // ---------------------------------------------------------------- marshal

  /**
   * marshal: the buffer gets a random 12-bit id and is marked as a new,
   * untrusted data frame; nothing else about it changes.
   */
  function Marshal(b: Buffer, random: bv32): (r: Buffer)
    ensures r.id < 0x1000 && r.id as bv32 == random & 0xfff
    ensures !r.isMicroframe && !r.trusted && r.isNew
    ensures r.expiry == b.expiry && r.size == b.size
  {
    MarshalId(random);
    b.(id := (random & 0xfff) as bv16, isMicroframe := false, trusted := false, isNew := true)
  }

  lemma MarshalId(random: bv32)
    ensures (random & 0xfff) < 0x1000
  {
  }

  // ---------------------------------------------------------------- the MAC

  /**
   * The MAC's schedule state: the buffers waiting to be sent, the index of
   * the one chosen to go next, and the two receive-state flags.
   */
  class Mac {
    var txSchedule: seq<Buffer>
    var txPending: Option<nat>
    var inRxMf: bool
    var inRxData: bool

    /** The pending index, when there is one, names a scheduled buffer. */
    predicate Valid()
      reads this
    {
      txPending.Some? ==> txPending.value < |txSchedule|
    }

    /** The constructor epilogue runs update_tx_schedule on the empty schedule. */
    constructor (nowUs: int)
      ensures txSchedule == [] && txPending.None? && !inRxMf && !inRxData
      ensures Valid()
    {
      txSchedule := [];
      txPending := None;
      inRxMf := false;
      inRxData := false;
      new;
      UpdateTxSchedule(nowUs);
    }

    /**
     * update_tx_schedule at time nowUs: leave both receive states, drop
     * every buffer whose expiry is not after nowUs and pick the pending one
     * among those left, or none when none is left.
     */
    method UpdateTxSchedule(nowUs: int)
      modifies this
      ensures txSchedule == Unexpired(old(txSchedule), nowUs)
      ensures txPending.None? <==> txSchedule == []
      ensures txPending.Some? ==> IsPending(txSchedule, txPending.value)
      ensures !inRxMf && !inRxData
      ensures Valid()
    {
      inRxData := false;
      inRxMf := false;
      var pending: Option<nat> := None;
      var kept: seq<Buffer> := [];
      var i := 0;
      while i < |txSchedule|
        invariant 0 <= i <= |txSchedule|
        invariant kept == Unexpired(txSchedule[..i], nowUs)
        invariant pending.None? <==> kept == []
        invariant pending.Some? ==> IsPending(kept, pending.value)
      {
        var b := txSchedule[i];
        assert txSchedule[..i + 1][..i] == txSchedule[..i];
        if b.expiry <= nowUs {
          // dropped
        } else if pending.None? || kept[pending.value].expiry >= b.expiry {
          kept := kept + [b];
          pending := Some(|kept| - 1);
        } else {
          kept := kept + [b];
        }
        i := i + 1;
      }
      assert txSchedule[..i] == txSchedule;
      txSchedule := kept;
      txPending := pending;
    }

    /**
     * pre_notify for a received frame of the given size, where mf is the
     * frame read as a microframe. While receiving microframes, a frame of
     * microframe size is accepted and every scheduled buffer whose id equals
     * mf's id(), as the getter computes it, is removed; while receiving
     * data, a frame of any other size is accepted.
     */
    method PreNotify(size: nat, mf: Tstp.Microframe) returns (accepted: bool)
      requires inRxMf || inRxData
      modifies this
      ensures accepted == if inRxMf then size == Tstp.MICROFRAME_SIZE else size != Tstp.MICROFRAME_SIZE
      ensures txSchedule == if inRxMf && size == Tstp.MICROFRAME_SIZE then WithoutId(old(txSchedule), mf.Id()) else old(txSchedule)
      ensures txPending == old(txPending) && inRxMf == old(inRxMf) && inRxData == old(inRxData)
    {
      if inRxMf {
        if size == Tstp.MICROFRAME_SIZE {
          var id := mf.Id();
          RemoveScheduled(id);
          accepted := true;
        } else {
          accepted := false;
        }
      } else {
        accepted := size != Tstp.MICROFRAME_SIZE;
      }
    }

    /** The loop of pre_notify that deletes the scheduled buffers with the given id. */
    method RemoveScheduled(id: bv16)
      modifies this`txSchedule
      ensures txSchedule == WithoutId(old(txSchedule), id)
    {
      var kept: seq<Buffer> := [];
      var i := 0;
      while i < |txSchedule|
        invariant 0 <= i <= |txSchedule|
        invariant kept == WithoutId(txSchedule[..i], id)
      {
        assert txSchedule[..i + 1][..i] == txSchedule[..i];
        if txSchedule[i].id != id {
          kept := kept + [txSchedule[i]];
        }
        i := i + 1;
      }
      assert txSchedule[..i] == txSchedule;
      txSchedule := kept;
    }

    /** send: append the buffer to the schedule and return its size. */
    method Send(b: Buffer) returns (n: int)
      modifies this`txSchedule
      ensures txSchedule == old(txSchedule) + [b]
      ensures n == b.size
      ensures old(Valid()) ==> Valid()
    {
      txSchedule := txSchedule + [b];
      n := b.size;
    }
  }
}
