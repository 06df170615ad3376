/**
 * The bookkeeping of the CC2538 IEEE 802.15.4 NIC mediator
 * (include/machine/cortex/cc2538.h, src/machine/cortex/cc2538.cc): the MAC
 * timer's tick conversions, the channel register, the read-and-clear
 * interrupt flags, the interrupt-to-device table and the receive ring.
 */
module Cc2538 {
  import opened Wrappers

  // ---------------------------------------------------------------- MAC timer

  /** Timer::CLOCK, the MAC timer's 32 MHz tick rate. */
  const CLOCK: nat := 32 * 1000 * 1000

  /** Time_Stamp is an unsigned long long: its arithmetic is taken modulo 2^64. */
  const TWO_64: nat := 0x1_0000_0000_0000_0000

  /** Timer::us2count: the microseconds, as a 64-bit time stamp, times CLOCK over a million. */
  function Us2Count(us: nat): (r: nat)
    ensures r < TWO_64
    ensures us * 32000000 < TWO_64 ==> r == us * 32
  {
    Us2CountExact(us);
    ((us % TWO_64) * CLOCK) % TWO_64 / 1000000
  }

  lemma Us2CountExact(us: nat)
    ensures us * 32000000 < TWO_64 ==> ((us % TWO_64) * CLOCK) % TWO_64 / 1000000 == us * 32
  {
    if us * 32000000 < TWO_64 {
      assert us % TWO_64 == us;
      assert (us * CLOCK) % TWO_64 == us * 32000000;
      assert (us * 32000000) / 1000000 == us * 32;
    }
  }

  /** Timer::count2us: the 64-bit time stamp times a million, modulo 2^64, over CLOCK. */
  function Count2Us(ts: nat): (r: nat)
    requires ts < TWO_64
    ensures ts * 1000000 < TWO_64 ==> r == ts / 32
  {
    Count2UsExact(ts);
    (ts * 1000000) % TWO_64 / CLOCK
  }

  lemma Count2UsExact(ts: nat)
    ensures ts * 1000000 < TWO_64 ==> (ts * 1000000) % TWO_64 / CLOCK == ts / 32
  {
    if ts * 1000000 < TWO_64 {
      assert (ts * 1000000) % TWO_64 == ts * 1000000;
      assert (ts * 1000000) / 32000000 == ts / 32;
    }
  }

  /**
   * Converting microseconds to ticks and back gives the microseconds, as
   * long as neither product leaves 64 bits: below about 6.7 days of ticks.
   */
  lemma CountRoundTrip(us: nat)
    requires us * 32000000 < TWO_64
    ensures Us2Count(us) == us * CLOCK / 1000000
    ensures Count2Us(Us2Count(us)) == us
  {
    assert (us * 32) / 32 == us;
  }

  /**
   * count2us multiplies before it divides, so a time stamp of
   * ceil(2^64 / 1000000) ticks, about 6.7 days, reads as 0 microseconds.
   */
  lemma Count2UsWraps()
    ensures Count2Us(18446744073710) == 0
    ensures 18446744073710 / 32 == 576460752303
  {
  }

  // ---------------------------------------------------------------- the radio's registers

  /** The bits of RFIRQF0 and RFIRQF1 the driver tests. */
  const INT_RXPKTDONE: bv32 := 1 << 6
  const INT_FIFOP: bv32 := 1 << 2
  const INT_TXDONE: bv32 := 1 << 1

  /** The FREQCTRL value for an IEEE 802.15.4 channel 11..26: 11 + 5 (c - 11). */
  function FreqCtrl(c: nat): (r: nat)
    requires 10 < c < 27
    ensures 11 <= r <= 86 && r % 5 == 1
    ensures (r - 11) / 5 + 11 == c
  {
    11 + 5 * (c - 11)
  }

  /** Distinct channels get distinct frequencies, one every 5 MHz. */
  lemma FreqCtrlStep(c: nat)
    requires 10 < c < 26
    ensures FreqCtrl(c + 1) == FreqCtrl(c) + 5
  {
  }

  /** The word with the given flag bits cleared. */
  function Clear(w: bv32, flag: bv32): (r: bv32)
    ensures r & flag == 0
    ensures r & !flag == w & !flag
  {
    ClearFlag(w, flag);
    ClearRest(w, flag);
    w & !flag
  }

  lemma ClearFlag(w: bv32, flag: bv32)
    ensures (w & !flag) & flag == 0
  {
  }

  lemma ClearRest(w: bv32, flag: bv32)
    ensures (w & !flag) & !flag == w & !flag
  {
  }

  /**
   * The radio registers the driver reads and writes (CC2538RF): the two
   * interrupt flag registers, the error flags and FREQCTRL.
   */
  class Rf {
    var rfirqf0: bv32
    var rfirqf1: bv32
    var rferrf: bv32
    var freqctrl: nat

    constructor ()
      ensures rfirqf0 == 0 && rfirqf1 == 0 && rferrf == 0 && freqctrl == 11
    {
      rfirqf0 := 0;
      rfirqf1 := 0;
      rferrf := 0;
      freqctrl := 11;
    }

    /** tx_done: whether TXDONE was set; it is cleared and no other bit is touched. */
    method TxDone() returns (ret: bool)
      modifies this`rfirqf1
      ensures ret == (old(rfirqf1) & INT_TXDONE != 0)
      ensures rfirqf1 & INT_TXDONE == 0
      ensures rfirqf1 & !INT_TXDONE == old(rfirqf1) & !INT_TXDONE
    {
      ret := rfirqf1 & INT_TXDONE != 0;
      if ret {
        rfirqf1 := Clear(rfirqf1, INT_TXDONE);
      } else {
        ClearIdle(rfirqf1, INT_TXDONE);
      }
    }

    /** rx_done: whether RXPKTDONE was set; it is cleared and no other bit is touched. */
    method RxDone() returns (ret: bool)
      modifies this`rfirqf0
      ensures ret == (old(rfirqf0) & INT_RXPKTDONE != 0)
      ensures rfirqf0 & INT_RXPKTDONE == 0
      ensures rfirqf0 & !INT_RXPKTDONE == old(rfirqf0) & !INT_RXPKTDONE
    {
      ret := rfirqf0 & INT_RXPKTDONE != 0;
      if ret {
        rfirqf0 := Clear(rfirqf0, INT_RXPKTDONE);
      } else {
        ClearIdle(rfirqf0, INT_RXPKTDONE);
      }
    }

    /** CC2538RF::channel: FREQCTRL gets the frequency of a channel in 11..26. */
    method SetChannel(c: nat)
      requires 10 < c < 27
      modifies this`freqctrl
      ensures freqctrl == FreqCtrl(c)
    {
      freqctrl := 11 + 5 * (c - 11);
    }
  }

  /** A word whose flag is clear keeps nothing but clear bits under the flag. */
  lemma ClearIdle(w: bv32, flag: bv32)
    requires w & flag == 0
    ensures w & !flag == w
  {
  }

  // ---------------------------------------------------------------- interrupt dispatch

  /** An entry of the _devices table: the device (the unit it serves, or null) and its interrupt. */
  datatype Device = Device(device: Option<nat>, interrupt: nat)

  /** The device of the last table entry with the given interrupt, or null when none has it. */
  function LastMatch(devices: seq<Device>, interrupt: nat): Option<nat>
  {
    if devices == [] then None
    else if devices[|devices| - 1].interrupt == interrupt then devices[|devices| - 1].device
    else LastMatch(devices[..|devices| - 1], interrupt)
  }

  /** The lookup answers with an entry that has the interrupt and that no later entry has, or null when no entry has it. */
  lemma {:induction false} LastMatchSpec(devices: seq<Device>, interrupt: nat)
    ensures (forall i :: 0 <= i < |devices| ==> devices[i].interrupt != interrupt) ==> LastMatch(devices, interrupt) == None
    ensures forall i :: 0 <= i < |devices| && devices[i].interrupt == interrupt &&
                        (forall j :: i < j < |devices| ==> devices[j].interrupt != interrupt) ==>
                        LastMatch(devices, interrupt) == devices[i].device
  {
    if devices != [] {
      LastMatchSpec(devices[..|devices| - 1], interrupt);
    }
  }

  /** get_by_interrupt: walk the whole table, remembering the device of each matching entry. */
  method GetByInterrupt(devices: seq<Device>, interrupt: nat) returns (tmp: Option<nat>)
    ensures tmp == LastMatch(devices, interrupt)
  {
    tmp := None;
    var i := 0;
    while i < |devices|
      invariant 0 <= i <= |devices|
      invariant tmp == LastMatch(devices[..i], interrupt)
    {
      assert devices[..i + 1][..i] == devices[..i];
      if devices[i].interrupt == interrupt {
        tmp := devices[i].device;
      }
      i := i + 1;
    }
    assert devices[..i] == devices;
  }

  // ---------------------------------------------------------------- receive ring

  /** A receive buffer as the ring sees it: its lock and the size of the frame it holds. */
  datatype Slot = Slot(locked: bool, size: nat)

  /** The NIC statistics counters the driver updates. */
  datatype Statistics = Statistics(rxPackets: nat, rxBytes: nat, txPackets: nat, txBytes: nat)

  /** A freshly constructed Statistics. */
  const DEFAULT_STATISTICS := Statistics(0, 0, 0, 0)

  /** The cursor step ++idx %= RX_BUFS: the next slot, wrapping to 0 after the last. */
  function Next(n: nat, i: nat): (r: nat)
    requires i < n
    ensures r == if i + 1 == n then 0 else i + 1
  {
    (i + 1) % n
  }

  /** The ring index reached from start after k cursor steps. */
  function At(n: nat, start: nat, k: nat): (r: nat)
    requires start < n
    ensures r < n
  {
    if k == 0 then start else Next(n, At(n, start, k - 1))
  }

  /** Within one turn, k steps from start land on start + k, less n once past the end. */
  lemma {:induction false} AtClosed(n: nat, start: nat, k: nat)
    requires start < n && k <= n
    ensures At(n, start, k) == if start + k < n then start + k else start + k - n
  {
    if k > 0 {
      AtClosed(n, start, k - 1);
    }
  }

  /** The first of the offsets from..|ring|-1 after start whose slot is unlocked, if any. */
  function FirstUnlocked(ring: seq<Slot>, start: nat, from: nat): (r: Option<nat>)
    requires start < |ring|
    decreases |ring| - from
  {
    if from >= |ring| then None
    else if !ring[At(|ring|, start, from)].locked then Some(from)
    else FirstUnlocked(ring, start, from + 1)
  }

  /**
   * The scan's choice is the unlocked slot fewest steps after start, and
   * there is none exactly when every slot is locked.
   */
  lemma {:induction false} FirstUnlockedSpec(ring: seq<Slot>, start: nat, from: nat)
    requires start < |ring|
    decreases |ring| - from
    ensures FirstUnlocked(ring, start, from).Some? ==>
      var k := FirstUnlocked(ring, start, from).value;
      && from <= k < |ring| && !ring[At(|ring|, start, k)].locked
      && forall j :: from <= j < k ==> ring[At(|ring|, start, j)].locked
    ensures FirstUnlocked(ring, start, from).None? <==>
      forall j :: from <= j < |ring| ==> ring[At(|ring|, start, j)].locked
  {
    if from < |ring| && ring[At(|ring|, start, from)].locked {
      FirstUnlockedSpec(ring, start, from + 1);
    }
  }

  /** The first of the offsets from..|ring|-1 after start whose slot is unlocked and holds a frame, if any. */
  function FirstReady(ring: seq<Slot>, start: nat, from: nat): (r: Option<nat>)
    requires start < |ring|
    decreases |ring| - from
  {
    if from >= |ring| then None
    else if Ready(ring[At(|ring|, start, from)]) then Some(from)
    else FirstReady(ring, start, from + 1)
  }

  predicate Ready(s: Slot) {
    !s.locked && s.size > 0
  }

  /** receive's choice is the ready slot fewest steps after start, and there is one whenever some slot is ready. */
  lemma {:induction false} FirstReadySpec(ring: seq<Slot>, start: nat, from: nat)
    requires start < |ring|
    decreases |ring| - from
    ensures FirstReady(ring, start, from).Some? ==>
      var k := FirstReady(ring, start, from).value;
      && from <= k < |ring| && Ready(ring[At(|ring|, start, k)])
      && forall j :: from <= j < k ==> !Ready(ring[At(|ring|, start, j)])
    ensures FirstReady(ring, start, from).None? <==>
      forall j :: from <= j < |ring| ==> !Ready(ring[At(|ring|, start, j)])
  {
    if from < |ring| && !Ready(ring[At(|ring|, start, from)]) {
      FirstReadySpec(ring, start, from + 1);
    } else if from < |ring| {
      var j := from;
      assert from <= j < |ring| && Ready(ring[At(|ring|, start, j)]);
      assert FirstReady(ring, start, from) == Some(from);
    }
  }

  /** A slot is ready in the ring exactly when a scan from any start can reach it. */
  lemma FirstReadyExists(ring: seq<Slot>, start: nat, i: nat)
    requires |ring| > 0 && start < |ring| && i < |ring| && Ready(ring[i])
    ensures FirstReady(ring, start, 0).Some?
  {
    FirstReadySpec(ring, start, 0);
    var k := if i >= start then i - start else i + |ring| - start;
    AtClosed(|ring|, start, k);
    assert Ready(ring[At(|ring|, start, k)]);
  }

  /**
   * The slot handle_int fills once it holds the lock: the frame's size is
   * stored; when the MAC's pre_notify rejects the frame it is emptied and
   * unlocked. An accepted frame that post_notify takes (a microframe: the
   * MAC frees it and answers true) is emptied and unlocked by that free;
   * otherwise it is unlocked (left for receive) unless a waiting observer
   * kept it. So receive() can take the frame exactly when the MAC kept it,
   * nobody was notified and the copy was not empty, and a slot left locked
   * holds the frame for the observer.
   */
  function Filled(frameSize: nat, preNotify: bool, notified: bool, postNotify: bool): (r: Slot)
    ensures Ready(r) <==> preNotify && !postNotify && !notified && frameSize > 0
    ensures r.locked ==> notified && r.size == frameSize
    ensures r.size > 0 <==> preNotify && !postNotify && frameSize > 0
  {
    if !preNotify || postNotify then Slot(false, 0)
    else Slot(notified, frameSize)
  }

  /**
   * The CC2538 NIC: its channel, its statistics, the receive ring and the
   * two ring cursors, and the radio whose registers it drives.
   */
  class Nic {
    var channel: nat
    var statistics: Statistics
    const rxBufs: array<Slot>
    var rxCurConsume: nat
    var rxCurProduce: nat
    const rf: Rf

    /** The cursors stay inside the ring, which has RX_BUFS > 0 slots. */
    predicate Valid()
      reads this
    {
      rxBufs.Length > 0 && rxCurConsume < rxBufs.Length && rxCurProduce < rxBufs.Length
    }

    /** A NIC with the given number of empty, unlocked receive buffers. */
    constructor (rxBufCount: nat, radio: Rf)
      requires rxBufCount > 0
      modifies radio
      ensures Valid() && fresh(rxBufs) && rf == radio
      ensures rxBufs.Length == rxBufCount && forall i :: 0 <= i < rxBufCount ==> rxBufs[i] == Slot(false, 0)
      ensures statistics == DEFAULT_STATISTICS && rxCurConsume == 0 && rxCurProduce == 0
      ensures channel == 13 && radio.freqctrl == FreqCtrl(13) == 21
      ensures radio.rfirqf0 == old(radio.rfirqf0) && radio.rfirqf1 == old(radio.rfirqf1) && radio.rferrf == old(radio.rferrf)
    {
      channel := 0;
      statistics := DEFAULT_STATISTICS;
      rxBufs := new Slot[rxBufCount](_ => Slot(false, 0));
      rxCurConsume := 0;
      rxCurProduce := 0;
      rf := radio;
      new;
      SetChannel(13);
      Reset();
    }

    /**
     * channel(c): a channel of 11..26 becomes the NIC's channel and is
     * programmed into the radio; any other leaves everything as it was.
     */
    method SetChannel(c: nat)
      modifies this`channel, rf`freqctrl
      ensures 10 < c < 27 ==> channel == c && rf.freqctrl == FreqCtrl(c)
      ensures !(10 < c < 27) ==> channel == old(channel) && rf.freqctrl == old(rf.freqctrl)
    {
      if 10 < c < 27 {
        channel := c;
        rf.SetChannel(channel);
      }
    }

    /** reset: the default statistics. */
    method Reset()
      modifies this`statistics
      ensures statistics == DEFAULT_STATISTICS
    {
      statistics := DEFAULT_STATISTICS;
    }

    /**
     * send(buf), where sent is what the MAC's send answers: a nonzero size
     * counts one more packet and that many more bytes; zero counts nothing.
     */
    method Send(sent: nat) returns (size: nat)
      modifies this`statistics
      ensures size == sent
      ensures statistics == if sent != 0
        then old(statistics).(txPackets := old(statistics).txPackets + 1, txBytes := old(statistics).txBytes + sent)
        else old(statistics)
    {
      size := sent;
      if size != 0 {
        statistics := statistics.(txPackets := statistics.txPackets + 1, txBytes := statistics.txBytes + size);
      }
    }

    /** Buffer::lock as a test-and-set: it succeeds, and locks, only when the buffer was unlocked. */
    method Lock(i: nat) returns (ok: bool)
      requires i < rxBufs.Length
      modifies rxBufs
      ensures ok == !old(rxBufs[i].locked)
      ensures ok ==> rxBufs[..] == old(rxBufs[..])[i := old(rxBufs[i]).(locked := true)]
      ensures !ok ==> unchanged(rxBufs)
    {
      ok := !rxBufs[i].locked;
      if ok {
        rxBufs[i] := rxBufs[i].(locked := true);
      }
    }

    /**
     * free(buf) for ring slot i: one more packet and its size more bytes
     * received; the buffer is emptied and unlocked.
     */
    method Free(i: nat)
      requires i < rxBufs.Length
      modifies this`statistics, rxBufs
      ensures statistics == old(statistics).(rxPackets := old(statistics).rxPackets + 1,
                                              rxBytes := old(statistics).rxBytes + old(rxBufs[i].size))
      ensures rxBufs[..] == old(rxBufs[..])[i := Slot(false, 0)]
    {
      statistics := statistics.(rxPackets := statistics.rxPackets + 1, rxBytes := statistics.rxBytes + rxBufs[i].size);
      rxBufs[i] := Slot(false, 0);
    }

    /**
     * The ring scan of handle_int: try at most RX_BUFS slots from the
     * produce cursor, wrapping, and take the first whose lock succeeds;
     * the produce cursor moves to the slot after the last one tried.
     */
    method ScanForBuffer() returns (buf: Option<nat>)
      requires Valid()
      modifies this`rxCurProduce, rxBufs
      ensures Valid()
      ensures var n := rxBufs.Length;
        var first := FirstUnlocked(old(rxBufs[..]), old(rxCurProduce), 0);
        && (first.None? ==> buf.None? && rxBufs[..] == old(rxBufs[..]) && rxCurProduce == (old(rxCurProduce) + 1) % n)
        && (first.Some? ==>
              var idx := At(n, old(rxCurProduce), first.value);
              && buf == Some(idx)
              && rxBufs[..] == old(rxBufs[..])[idx := old(rxBufs[idx]).(locked := true)]
              && rxCurProduce == (idx + 1) % n)
    {
      ghost var ring := rxBufs[..];
      ghost var start := rxCurProduce;
      var n := rxBufs.Length;
      buf := None;
      var idx := rxCurProduce;
      var count := n;
      ghost var k: nat := 0;
      while count > 0
        invariant 0 <= count <= n && k == n - count
        invariant idx == At(n, start, k)
        invariant buf.None? ==> rxBufs[..] == ring && FirstUnlocked(ring, start, 0) == FirstUnlocked(ring, start, k)
        invariant rxCurProduce == start
      {
        var ok := Lock(idx);
        if ok {
          buf := Some(idx);
          break;
        }
        idx := (idx + 1) % n;
        k := k + 1;
        count := count - 1;
      }
      if buf.None? {
        AtClosed(n, start, n);
      }
      rxCurProduce := (idx + 1) % n;
    }

    /**
     * handle_int, with the answers of the parts outside the ring passed in:
     * filterOk for the radio's frame filter, frameSize for the size the
     * frame copy reports, and preNotify, notified and postNotify for the
     * MAC's and the observers' answers; post_notify answers true exactly
     * when it has freed the buffer, which counts the frame as received. The interrupt flags other than
     * RXPKTDONE and TXDONE and the error flags are cleared; a frame that
     * arrives and passes the filter goes to the slot the ring scan locks,
     * and is dropped when no slot can be locked.
     */
    method HandleInt(filterOk: bool, frameSize: nat, preNotify: bool, notified: bool, postNotify: bool)
      requires Valid()
      modifies this`rxCurProduce, this`statistics, rxBufs, rf`rfirqf0, rf`rfirqf1, rf`rferrf
      ensures Valid()
      ensures rf.rfirqf0 == old(rf.rfirqf0) & INT_RXPKTDONE && rf.rfirqf1 == old(rf.rfirqf1) & INT_TXDONE && rf.rferrf == 0
      ensures old(rf.rfirqf0) & INT_FIFOP == 0 || !filterOk ==>
        rxBufs[..] == old(rxBufs[..]) && rxCurProduce == old(rxCurProduce)
      ensures old(rf.rfirqf0) & INT_FIFOP != 0 && filterOk ==>
        var n := rxBufs.Length;
        var first := FirstUnlocked(old(rxBufs[..]), old(rxCurProduce), 0);
        && (first.None? ==> rxBufs[..] == old(rxBufs[..]) && rxCurProduce == (old(rxCurProduce) + 1) % n)
        && (first.Some? ==>
              var idx := At(n, old(rxCurProduce), first.value);
              && rxBufs[..] == old(rxBufs[..])[idx := Filled(frameSize, preNotify, notified, postNotify)]
              && rxCurProduce == (idx + 1) % n)
      ensures statistics ==
        if old(rf.rfirqf0) & INT_FIFOP != 0 && filterOk && preNotify && postNotify
           && FirstUnlocked(old(rxBufs[..]), old(rxCurProduce), 0).Some?
        then old(statistics).(rxPackets := old(statistics).rxPackets + 1,
                              rxBytes := old(statistics).rxBytes + frameSize)
        else old(statistics)
    {
      var irqrf0 := rf.rfirqf0;
      rf.rfirqf0 := irqrf0 & INT_RXPKTDONE;
      rf.rfirqf1 := rf.rfirqf1 & INT_TXDONE;
      rf.rferrf := 0;
      if irqrf0 & INT_FIFOP != 0 && filterOk {
        var buf := ScanForBuffer();
        if buf.Some? {
          var i := buf.value;
          rxBufs[i] := rxBufs[i].(size := frameSize);
          if preNotify {
            if postNotify {
              // post_notify's free(buf)
              Free(i);
            } else if !notified {
              rxBufs[i] := rxBufs[i].(locked := false);
            }
          } else {
            rxBufs[i] := Slot(rxBufs[i].locked, 0);
            rxBufs[i] := rxBufs[i].(locked := false);
          }
        }
      }
    }

    /**
     * One step of receive's walk: lock slot idx and keep it when it holds a
     * frame; a slot locked but empty is unlocked again, so the ring is
     * unchanged unless the slot was ready.
     */
    method TakeIfReady(idx: nat) returns (taken: bool)
      requires idx < rxBufs.Length
      modifies rxBufs
      ensures taken == Ready(old(rxBufs[idx]))
      ensures taken ==> rxBufs[..] == old(rxBufs[..])[idx := old(rxBufs[idx]).(locked := true)]
      ensures !taken ==> unchanged(rxBufs)
    {
      taken := false;
      if !rxBufs[idx].locked {
        // lock() succeeds
        rxBufs[idx] := rxBufs[idx].(locked := true);
        if rxBufs[idx].size > 0 {
          taken := true;
        } else {
          rxBufs[idx] := rxBufs[idx].(locked := false);
        }
      }
    }

    /**
     * The ring walk of receive: from the consume cursor, lock each slot in
     * turn until one holds a frame (a slot locked but empty is unlocked
     * again), and leave the cursor on the slot after it. The source spins
     * while no slot is ready, so a ready slot is required here.
     */
    method ConsumeScan() returns (idx: nat)
      requires Valid()
      requires exists i :: 0 <= i < rxBufs.Length && Ready(rxBufs[i])
      modifies this`rxCurConsume, rxBufs
      ensures Valid()
      ensures var first := FirstReady(old(rxBufs[..]), old(rxCurConsume), 0);
        && first.Some? && idx == At(rxBufs.Length, old(rxCurConsume), first.value)
      ensures idx < rxBufs.Length && Ready(old(rxBufs[idx]))
      ensures rxBufs[..] == old(rxBufs[..])[idx := old(rxBufs[idx]).(locked := true)]
      ensures rxCurConsume == (idx + 1) % rxBufs.Length
    {
      ghost var ring := rxBufs[..];
      ghost var start := rxCurConsume;
      var n := rxBufs.Length;
      ghost var w :| 0 <= w < n && Ready(rxBufs[w]);
      FirstReadyExists(ring, start, w);
      ghost var k: nat := 0;
      while true
        invariant k < n && rxCurConsume == At(n, start, k)
        invariant unchanged(rxBufs) && FirstReady(ring, start, k) == FirstReady(ring, start, 0)
        decreases n - k
      {
        var i := rxCurConsume;
        var taken := TakeIfReady(i);
        rxCurConsume := (rxCurConsume + 1) % n;
        if taken {
          idx := i;
          break;
        }
        k := k + 1;
      }
      FirstReadySpec(ring, start, 0);
    }

    /**
     * receive: take the first ready slot from the consume cursor, answer
     * the size of its frame and free the buffer.
     */
    method Receive() returns (frameSize: nat)
      requires Valid()
      requires exists i :: 0 <= i < rxBufs.Length && Ready(rxBufs[i])
      modifies this`rxCurConsume, this`statistics, rxBufs
      ensures Valid()
      ensures var first := FirstReady(old(rxBufs[..]), old(rxCurConsume), 0);
        && first.Some?
        && var idx := At(rxBufs.Length, old(rxCurConsume), first.value);
        && frameSize == old(rxBufs[idx].size) && frameSize > 0
        && rxBufs[..] == old(rxBufs[..])[idx := Slot(false, 0)]
        && rxCurConsume == (idx + 1) % rxBufs.Length
        && statistics == old(statistics).(rxPackets := old(statistics).rxPackets + 1,
                                          rxBytes := old(statistics).rxBytes + frameSize)
    {
      var idx := ConsumeScan();
      frameSize := rxBufs[idx].size;
      Free(idx);
    }
  }
}
