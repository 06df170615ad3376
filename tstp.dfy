/**
 * The bit-packed wire structures of TSTP (include/tstp.h): the coordinate
 * scale chosen from the network size, the MAC preamble Microframe, the
 * configuration byte of the packet header and the SI unit word.
 */
module Tstp {
  import opened Wrappers

  // ---------------------------------------------------------------- SCALE

  /** Network sizes, in nodes. */
  const PAN: nat := 10
  const SAN: nat := 100
  const LAN: nat := 10000

  /** Scale of the local network's geographic coordinates, in the order of the enum. */
  datatype Scale = CMx50_8 | CM_16 | CMx25_16 | CM_32

  function ScaleCode(s: Scale): (r: bv8)
    ensures r < 4
  {
    match s
    case CMx50_8 => 0
    case CM_16 => 1
    case CMx25_16 => 2
    case CM_32 => 3
  }

  /** A scale is large enough for a network of the given size: PAN, SAN, LAN nodes, or any number. */
  predicate Covers(s: Scale, nodes: nat) {
    match s
    case CMx50_8 => nodes <= PAN
    case CM_16 => nodes <= SAN
    case CMx25_16 => nodes <= LAN
    case CM_32 => true
  }

  /** SCALE for a build with the given number of nodes. */
  function ScaleFor(nodes: nat): (r: Scale)
    ensures Covers(r, nodes)
    ensures forall s: Scale :: Covers(s, nodes) ==> ScaleCode(r) <= ScaleCode(s)
  {
    if nodes <= PAN then CMx50_8
    else if nodes <= SAN then CM_16
    else if nodes <= LAN then CMx25_16
    else CM_32
  }

  /** A larger network never gets a smaller scale. */
  lemma ScaleForMonotone(n1: nat, n2: nat)
    requires n1 <= n2
    ensures ScaleCode(ScaleFor(n1)) <= ScaleCode(ScaleFor(n2))
  {
    assert Covers(ScaleFor(n2), n1);
  }

  // ---------------------------------------------------------------- Microframe

  /** sizeof(Microframe): the packed 16-bit word, the id byte, the 32-bit hint and the 16-bit CRC. */
  const MICROFRAME_SIZE: nat := 2 + 1 + 4 + 2

  const COUNT_MASK: bv16 := 0x7ff << 4
  const ALL_LISTEN: bv16 := 1 << 15

  /** count(): bits 4..14 of the packed word. */
  function CountOf(w: bv16): (r: bv16)
    ensures r <= 0x7ff
  {
    (w & COUNT_MASK) >> 4
  }

  /** all_listen(): bit 15 of the packed word. */
  function AllListenOf(w: bv16): bool {
    w & ALL_LISTEN != 0
  }

  /** The id nibble, kept in bits 0..3 of the packed word. */
  function IdNibbleOf(w: bv16): bv16 {
    w & 0xf
  }

  /** The packed word of a Microframe with the given id nibble, count and all_listen flag. */
  function Pack(nibble: bv16, count: bv16, allListen: bool): (w: bv16)
    requires nibble < 16
    ensures CountOf(w) == count & 0x7ff
    ensures AllListenOf(w) == allListen
    ensures IdNibbleOf(w) == nibble
  {
    PackCount(nibble, count, allListen);
    PackAllListen(nibble, count, allListen);
    PackNibble(nibble, count, allListen);
    nibble | ((count & 0x7ff) << 4) | (if allListen then ALL_LISTEN else 0)
  }

  /**
   * The packed word the Microframe constructor writes, as written: it puts
   * the id's LOW nibble in bits 0..3.
   */
  function MicroframeWordAsWritten(allListen: bool, id: bv16, count: bv16): (w: bv16)
    ensures CountOf(w) == count & 0x7ff
    ensures AllListenOf(w) == allListen
    ensures IdNibbleOf(w) == id & 0xf
  {
    Pack(id & 0xf, count, allListen)
  }

  /** The packed word with the id's high nibble in bits 0..3, where the id(v) setter stores it. */
  function MicroframeWord(allListen: bool, id: bv16, count: bv16): (w: bv16)
    ensures CountOf(w) == count & 0x7ff
    ensures AllListenOf(w) == allListen
    ensures IdNibbleOf(w) == (id & 0xf00) >> 8
  {
    Pack((id & 0xf00) >> 8, count, allListen)
  }

  /**
   * dec_count() on the packed word: the count field is replaced by count - 1,
   * computed in int and truncated to 16 bits, so at count 0 the -1 also sets
   * bit 15.
   */
  function DecCountWord(w: bv16): (r: bv16)
    ensures CountOf(w) > 0 ==> CountOf(r) == CountOf(w) - 1 && AllListenOf(r) == AllListenOf(w)
    ensures CountOf(w) == 0 ==> CountOf(r) == 0x7ff && AllListenOf(r)
    ensures IdNibbleOf(r) == IdNibbleOf(w)
  {
    DecCountPositive(w);
    DecCountPositiveAllListen(w);
    DecCountZero(w);
    DecCountZeroAllListen(w);
    DecCountNibble(w);
    (w & !COUNT_MASK) | ((CountOf(w) - 1) << 4)
  }

  /** id(v) on the packed word: bits 0..3 take bits 8..11 of v, the other bits stay. */
  function SetIdWord(w: bv16, id: bv16): (r: bv16)
    ensures CountOf(r) == CountOf(w)
    ensures AllListenOf(r) == AllListenOf(w)
    ensures IdNibbleOf(r) == (id & 0xf00) >> 8
    ensures r & 0xfff0 == w & 0xfff0
  {
    SetIdCount(w, id);
    SetIdAllListen(w, id);
    SetIdNibble(w, id);
    SetIdHigh(w, id);
    (w & 0xfff0) | ((id & 0xf00) >> 8)
  }

  /** all_listen(b) on the packed word: bit 15 becomes b, the other bits stay. */
  function SetAllListenWord(w: bv16, b: bool): (r: bv16)
    ensures AllListenOf(r) == b
    ensures r & !ALL_LISTEN == w & !ALL_LISTEN
    ensures CountOf(r) == CountOf(w)
  {
    SetAllListenFlag(w, b);
    SetAllListenRest(w, b);
    SetAllListenCount(w, b);
    if b then w | ALL_LISTEN else w & !ALL_LISTEN
  }

  /**
   * id() as written: the packed word is OR-ed with 0xf, not masked, before
   * the shift, and the result is truncated to the 16-bit Frame_ID; bits
   * 8..11 are always set and bits 12..15 are the low bits of the count.
   */
  function IdOfAsWritten(w: bv16, idl: bv8): (r: bv16)
    ensures r & 0x0f00 == 0x0f00
    ensures r & 0xff == idl as bv16
    ensures r >> 12 == CountOf(w) & 0xf
    ensures r & 0xfff == 0xf00 | idl as bv16
  {
    IdAsWrittenMiddle(w, idl);
    IdAsWrittenLow(w, idl);
    IdAsWrittenHigh(w, idl);
    IdAsWrittenLow12(w, idl);
    ((w | 0xf) << 8) + idl as bv16
  }

  /** id() with the nibble masked: the 12-bit id held by the word's nibble and the id byte. */
  function IdOf(w: bv16, idl: bv8): (r: bv16)
    ensures r < 0x1000
    ensures r & 0xff == idl as bv16
    ensures r >> 8 == IdNibbleOf(w)
  {
    IdBound(w, idl);
    IdLowByte(w, idl);
    IdHighNibble(w, idl);
    ((w & 0xf) << 8) + idl as bv16
  }

  /** The id byte the constructor and the id(v) setter store. */
  function IdLow(id: bv16): bv8 {
    (id & 0xff) as bv8
  }

  /**
   * The getter as written cannot return an id stored by the setter: after
   * id(0x123) on a word with count 0 it returns 0xF23.
   */
  lemma IdAsWrittenAfterSetId(w: bv16)
    requires CountOf(w) == 0
    ensures IdOfAsWritten(SetIdWord(w, 0x123), IdLow(0x123)) == 0xF23
  {
  }

  /** With the getter masking the nibble, id() returns the 12 bits id(v) stored. */
  lemma SetIdRoundTrip(w: bv16, id: bv16)
    ensures IdOf(SetIdWord(w, id), IdLow(id)) == id & 0xfff
  {
  }

  /**
   * The constructor as written stores the id's low nibble where id(v)
   * stores the high one: for Microframe(false, 0x123, 0) the word holds 3
   * where id(0x123) would put 1, so the masked getter reads 0x323; the
   * getter as written returns 0xF23 either way.
   */
  lemma ConstructorAsWrittenId()
    ensures IdNibbleOf(MicroframeWordAsWritten(false, 0x123, 0)) == 3
    ensures IdNibbleOf(SetIdWord(MicroframeWordAsWritten(false, 0x123, 0), 0x123)) == 1
    ensures IdOf(MicroframeWordAsWritten(false, 0x123, 0), IdLow(0x123)) == 0x323
    ensures IdOfAsWritten(MicroframeWordAsWritten(false, 0x123, 0), IdLow(0x123)) == 0xF23
  {
  }

  /**
   * The getter as written reads the count: dec_count() on Microframe(false,
   * 0x123, 5) changes id() from 0x5F23 to 0x4F23.
   */
  lemma DecCountAsWrittenChangesId()
    ensures IdOfAsWritten(MicroframeWordAsWritten(false, 0x123, 5), IdLow(0x123)) == 0x5F23
    ensures IdOfAsWritten(DecCountWord(MicroframeWordAsWritten(false, 0x123, 5)), IdLow(0x123)) == 0x4F23
  {
  }

  /** With the high nibble stored, a constructed Microframe reads back its 12-bit id. */
  lemma ConstructorIdRoundTrip(allListen: bool, id: bv16, count: bv16)
    ensures IdOf(MicroframeWord(allListen, id, count), IdLow(id)) == id & 0xfff
  {
  }

  // One bit-level fact each, for the contracts above.

  lemma PackCount(nibble: bv16, count: bv16, allListen: bool)
    requires nibble < 16
    ensures CountOf(nibble | ((count & 0x7ff) << 4) | (if allListen then ALL_LISTEN else 0)) == count & 0x7ff
  {
  }

  lemma PackAllListen(nibble: bv16, count: bv16, allListen: bool)
    requires nibble < 16
    ensures AllListenOf(nibble | ((count & 0x7ff) << 4) | (if allListen then ALL_LISTEN else 0)) == allListen
  {
  }

  lemma PackNibble(nibble: bv16, count: bv16, allListen: bool)
    requires nibble < 16
    ensures IdNibbleOf(nibble | ((count & 0x7ff) << 4) | (if allListen then ALL_LISTEN else 0)) == nibble
  {
  }

  lemma DecCountPositive(w: bv16)
    ensures CountOf(w) > 0 ==> CountOf((w & !COUNT_MASK) | ((CountOf(w) - 1) << 4)) == CountOf(w) - 1
  {
  }

  lemma DecCountPositiveAllListen(w: bv16)
    ensures CountOf(w) > 0 ==> AllListenOf((w & !COUNT_MASK) | ((CountOf(w) - 1) << 4)) == AllListenOf(w)
  {
  }

  lemma DecCountZero(w: bv16)
    ensures CountOf(w) == 0 ==> CountOf((w & !COUNT_MASK) | ((CountOf(w) - 1) << 4)) == 0x7ff
  {
  }

  lemma DecCountZeroAllListen(w: bv16)
    ensures CountOf(w) == 0 ==> AllListenOf((w & !COUNT_MASK) | ((CountOf(w) - 1) << 4))
  {
  }

  lemma DecCountNibble(w: bv16)
    ensures IdNibbleOf((w & !COUNT_MASK) | ((CountOf(w) - 1) << 4)) == IdNibbleOf(w)
  {
  }

  lemma SetIdCount(w: bv16, id: bv16)
    ensures CountOf((w & 0xfff0) | ((id & 0xf00) >> 8)) == CountOf(w)
  {
  }

  lemma SetIdAllListen(w: bv16, id: bv16)
    ensures AllListenOf((w & 0xfff0) | ((id & 0xf00) >> 8)) == AllListenOf(w)
  {
  }

  lemma SetIdNibble(w: bv16, id: bv16)
    ensures IdNibbleOf((w & 0xfff0) | ((id & 0xf00) >> 8)) == (id & 0xf00) >> 8
  {
  }

  lemma SetIdHigh(w: bv16, id: bv16)
    ensures ((w & 0xfff0) | ((id & 0xf00) >> 8)) & 0xfff0 == w & 0xfff0
  {
  }

  lemma SetAllListenFlag(w: bv16, b: bool)
    ensures AllListenOf(if b then w | ALL_LISTEN else w & !ALL_LISTEN) == b
  {
  }

  lemma SetAllListenRest(w: bv16, b: bool)
    ensures (if b then w | ALL_LISTEN else w & !ALL_LISTEN) & !ALL_LISTEN == w & !ALL_LISTEN
  {
  }

  lemma SetAllListenCount(w: bv16, b: bool)
    ensures CountOf(if b then w | ALL_LISTEN else w & !ALL_LISTEN) == CountOf(w)
  {
  }

  lemma IdAsWrittenMiddle(w: bv16, idl: bv8)
    ensures (((w | 0xf) << 8) + idl as bv16) & 0x0f00 == 0x0f00
  {
  }

  lemma IdAsWrittenLow(w: bv16, idl: bv8)
    ensures (((w | 0xf) << 8) + idl as bv16) & 0xff == idl as bv16
  {
  }

  lemma IdAsWrittenHigh(w: bv16, idl: bv8)
    ensures (((w | 0xf) << 8) + idl as bv16) >> 12 == CountOf(w) & 0xf
  {
  }

  lemma IdAsWrittenLow12(w: bv16, idl: bv8)
    ensures (((w | 0xf) << 8) + idl as bv16) & 0xfff == 0xf00 | idl as bv16
  {
  }

  lemma IdLowByteOf(id: bv16)
    ensures IdLow(id) as bv16 == id & 0xff
  {
  }

  lemma CountLowNibble(count: bv16)
    ensures (count & 0x7ff) & 0xf == count & 0xf
  {
  }

  lemma DecCountStoredId(w: bv16, idl: bv8)
    ensures IdOf(DecCountWord(w), idl) == IdOf(w, idl)
  {
  }

  lemma IdBound(w: bv16, idl: bv8)
    ensures ((w & 0xf) << 8) + idl as bv16 < 0x1000
  {
  }

  lemma IdLowByte(w: bv16, idl: bv8)
    ensures (((w & 0xf) << 8) + idl as bv16) & 0xff == idl as bv16
  {
  }

  lemma IdHighNibble(w: bv16, idl: bv8)
    ensures (((w & 0xf) << 8) + idl as bv16) >> 8 == IdNibbleOf(w)
  {
  }

  /**
   * Microframe, the MAC preamble: all_listen, an 11-bit count and the id's
   * high nibble in one 16-bit word, the id's low byte, and the sender's hint.
   * The CRC is filled by the radio and is not modelled.
   */
  class Microframe {
    var alCountIdh: bv16
    var idl: bv8
    var hint: bv32

    /**
     * The constructor as written: the word holds the id's low nibble, so
     * id() has bits 8..11 set and the count's low bits above them, and the
     * masked getter would read the low nibble back in bits 8..11.
     */
    constructor (allListen: bool, id: bv16, count: bv16, hint: bv32)
      ensures alCountIdh == MicroframeWordAsWritten(allListen, id, count) && idl == IdLow(id) && this.hint == hint
      ensures Count() == count & 0x7ff && AllListen() == allListen && Hint() == hint
      ensures Id() & 0xfff == 0xf00 | (id & 0xff) && Id() >> 12 == count & 0xf
      ensures StoredId() >> 8 == id & 0xf && StoredId() & 0xff == id & 0xff
    {
      alCountIdh := MicroframeWordAsWritten(allListen, id, count);
      idl := IdLow(id);
      this.hint := hint;
      new;
      IdLowByteOf(id);
      CountLowNibble(count);
    }

    function Count(): bv16
      reads this
    {
      CountOf(alCountIdh)
    }

    /**
     * Returns the old count and stores count - 1 (see DecCountWord for
     * count 0). The stored id is kept, but id() as written changes with the
     * count's low nibble.
     */
    method DecCount() returns (c: bv16)
      modifies this
      ensures c == old(Count())
      ensures alCountIdh == DecCountWord(old(alCountIdh)) && idl == old(idl) && hint == old(hint)
      ensures c > 0 ==> Count() == c - 1 && AllListen() == old(AllListen())
      ensures c == 0 ==> Count() == 0x7ff && AllListen()
      ensures StoredId() == old(StoredId())
      ensures Id() & 0xfff == old(Id()) & 0xfff && Id() >> 12 == Count() & 0xf
    {
      c := CountOf(alCountIdh);
      var w := DecCountWord(alCountIdh);
      DecCountStoredId(alCountIdh, idl);
      alCountIdh := w;
    }

    /** id() as written (see IdOfAsWritten). */
    function Id(): bv16
      reads this
    {
      IdOfAsWritten(alCountIdh, idl)
    }

    /** The 12-bit id held by the nibble and the id byte: what id() returns once it masks the nibble. */
    function StoredId(): bv16
      reads this
    {
      IdOf(alCountIdh, idl)
    }

    /**
     * id(v): the stored id becomes v's low 12 bits and count and all_listen
     * stay; id() as written still returns bits 8..11 set and the count above.
     */
    method SetId(id: bv16)
      modifies this
      ensures alCountIdh == SetIdWord(old(alCountIdh), id) && idl == IdLow(id) && hint == old(hint)
      ensures StoredId() == id & 0xfff && Count() == old(Count()) && AllListen() == old(AllListen())
      ensures Id() & 0xfff == 0xf00 | (id & 0xff) && Id() >> 12 == Count() & 0xf
    {
      var w := SetIdWord(alCountIdh, id);
      var low := IdLow(id);
      SetIdRoundTrip(alCountIdh, id);
      IdLowByteOf(id);
      assert CountOf(w) == Count() && AllListenOf(w) == AllListen();
      alCountIdh := w;
      idl := low;
    }

    method SetAllListen(b: bool)
      modifies this
      ensures alCountIdh == SetAllListenWord(old(alCountIdh), b) && idl == old(idl) && hint == old(hint)
      ensures AllListen() == b && Count() == old(Count())
    {
      alCountIdh := SetAllListenWord(alCountIdh, b);
    }

    function AllListen(): bool
      reads this
    {
      AllListenOf(alCountIdh)
    }

    function Hint(): bv32
      reads this
    {
      hint
    }

    method SetHint(h: bv32)
      modifies this
      ensures hint == h && alCountIdh == old(alCountIdh) && idl == old(idl)
    {
      hint := h;
    }
  }

  // ---------------------------------------------------------------- Header

  /** Packet types. */
  const INTEREST: bv8 := 0
  const RESPONSE: bv8 := 1
  const COMMAND: bv8 := 2
  const CONTROL: bv8 := 3

  /** Version V0. */
  const V0: bv8 := 4

  /** version(): bits 0..2 of the configuration byte. */
  function VersionOf(c: bv8): (r: bv8)
    ensures r < 8
  {
    c & 0x07
  }

  /** type(): bits 3..4. */
  function TypeOf(c: bv8): (r: bv8)
    ensures r < 4
  {
    (c >> 3) & 0x03
  }

  /** time_request(): bit 5. */
  function TimeRequestOf(c: bv8): bool {
    (c >> 5) & 0x01 != 0
  }

  /** scale(): bits 6..7. */
  function ScaleOf(c: bv8): (r: bv8)
    ensures r < 4
  {
    (c >> 6) & 0x03
  }

  /** The configuration byte the _Header constructor writes; each getter returns its masked argument. */
  function ConfigByte(s: bv8, t: bv8, tr: bool, v: bv8): (c: bv8)
    ensures ScaleOf(c) == s & 0x03
    ensures TypeOf(c) == t & 0x03
    ensures TimeRequestOf(c) == tr
    ensures VersionOf(c) == v & 0x07
  {
    ((s & 0x03) << 6) | ((if tr then 1 else 0) << 5) | ((t & 0x03) << 3) | (v & 0x07)
  }

  /** version(v): only bits 0..2 change. */
  function SetVersionByte(c: bv8, v: bv8): (r: bv8)
    ensures VersionOf(r) == v & 0x07
    ensures r & 0xf8 == c & 0xf8
    ensures TypeOf(r) == TypeOf(c) && TimeRequestOf(r) == TimeRequestOf(c) && ScaleOf(r) == ScaleOf(c)
  {
    (c & 0xf8) | (v & 0x07)
  }

  /** type(t): only bits 3..4 change. */
  function SetTypeByte(c: bv8, t: bv8): (r: bv8)
    ensures TypeOf(r) == t & 0x03
    ensures r & 0xe7 == c & 0xe7
    ensures VersionOf(r) == VersionOf(c) && TimeRequestOf(r) == TimeRequestOf(c) && ScaleOf(r) == ScaleOf(c)
  {
    (c & 0xe7) | ((t & 0x03) << 3)
  }

  /** time_request(tr): only bit 5 changes. */
  function SetTimeRequestByte(c: bv8, tr: bool): (r: bv8)
    ensures TimeRequestOf(r) == tr
    ensures r & 0xdf == c & 0xdf
    ensures VersionOf(r) == VersionOf(c) && TypeOf(r) == TypeOf(c) && ScaleOf(r) == ScaleOf(c)
  {
    (c & 0xdf) | ((if tr then 1 else 0) << 5)
  }

  /** scale(s): only bits 6..7 change. */
  function SetScaleByte(c: bv8, s: bv8): (r: bv8)
    ensures ScaleOf(r) == s & 0x03
    ensures r & 0x3f == c & 0x3f
    ensures VersionOf(r) == VersionOf(c) && TypeOf(r) == TypeOf(c) && TimeRequestOf(r) == TimeRequestOf(c)
  {
    (c & 0x3f) | ((s & 0x03) << 6)
  }

  /**
   * The packet header for the scale S it is instantiated with: the
   * configuration byte, the confidence, the origin time and the last-hop
   * time. The coordinates are not modelled.
   */
  class Header {
    var config: bv8
    var confidence: bv8
    var time: bv64
    var lastHopTime: bv64

    constructor (scale: Scale, t: bv8, tr: bool, c: bv8, ot: bv64, v: bv8)
      ensures config == ConfigByte(ScaleCode(scale), t, tr, v)
      ensures confidence == c && time == ot
      ensures Scale() == ScaleCode(scale) && Type() == t & 0x03 && TimeRequest() == tr && Version() == v & 0x07
    {
      config := ConfigByte(ScaleCode(scale), t, tr, v);
      confidence := c;
      time := ot;
    }

    function Version(): bv8
      reads this
    {
      VersionOf(config)
    }

    method SetVersion(v: bv8)
      modifies this
      ensures config == SetVersionByte(old(config), v)
      ensures confidence == old(confidence) && time == old(time) && lastHopTime == old(lastHopTime)
      ensures Version() == v & 0x07 && Type() == old(Type()) && TimeRequest() == old(TimeRequest()) && Scale() == old(Scale())
    {
      config := SetVersionByte(config, v);
    }

    function Type(): bv8
      reads this
    {
      TypeOf(config)
    }

    method SetType(t: bv8)
      modifies this
      ensures config == SetTypeByte(old(config), t)
      ensures confidence == old(confidence) && time == old(time) && lastHopTime == old(lastHopTime)
      ensures Type() == t & 0x03 && Version() == old(Version()) && TimeRequest() == old(TimeRequest()) && Scale() == old(Scale())
    {
      config := SetTypeByte(config, t);
    }

    function TimeRequest(): bool
      reads this
    {
      TimeRequestOf(config)
    }

    method SetTimeRequest(tr: bool)
      modifies this
      ensures config == SetTimeRequestByte(old(config), tr)
      ensures confidence == old(confidence) && time == old(time) && lastHopTime == old(lastHopTime)
      ensures TimeRequest() == tr && Version() == old(Version()) && Type() == old(Type()) && Scale() == old(Scale())
    {
      config := SetTimeRequestByte(config, tr);
    }

    function Scale(): bv8
      reads this
    {
      ScaleOf(config)
    }

    method SetScale(s: bv8)
      modifies this
      ensures config == SetScaleByte(old(config), s)
      ensures confidence == old(confidence) && time == old(time) && lastHopTime == old(lastHopTime)
      ensures Scale() == s & 0x03 && Version() == old(Version()) && Type() == old(Type()) && TimeRequest() == old(TimeRequest())
    {
      config := SetScaleByte(config, s);
    }

    method SetLastHopTime(t: bv64)
      modifies this
      ensures lastHopTime == t
      ensures config == old(config) && confidence == old(confidence) && time == old(time)
    {
      lastHopTime := t;
    }
  }

  // ---------------------------------------------------------------- Unit

  /** Field SI (bit 31): the unit is SI rather than plain digital data. */
  const SI: bv32 := 1 << 31

  /** Field NUM (bits 29..30): how the value is stored. */
  const I32: bv32 := 0 << 29
  const I64: bv32 := 1 << 29
  const F32: bv32 := 2 << 29
  const D64: bv32 := 3 << 29
  const NUM: bv32 := D64

  /** Field MOD (bits 27..28): how the product of base units is applied. */
  const DIR: bv32 := 0 << 27
  const DIV: bv32 := 1 << 27
  const LOG: bv32 := 2 << 27
  const LOG_DIV: bv32 := 3 << 27

  /** The MOD mask as written: the NUM mask D64. */
  const MOD_AS_WRITTEN: bv32 := D64

  /** The mask of bits 27..28, which the MOD values occupy. */
  const MOD: bv32 := 3 << 27

  /** Masks of the nine exponent fields. */
  const SR: bv32 := 7 << 24
  const RAD: bv32 := 7 << 21
  const M_MASK: bv32 := 7 << 18
  const KG: bv32 := 7 << 15
  const S_MASK: bv32 := 7 << 12
  const A_MASK: bv32 := 7 << 9
  const K_MASK: bv32 := 7 << 6
  const MOL: bv32 := 7 << 3
  const CD: bv32 := 7 << 0

  datatype NumKind = Int32 | Int64 | Float32 | Double64
  datatype Modifier = Direct | Quotient | Log | LogQuotient

  /** The SI base units, each with a 3-bit field holding its exponent plus 4. */
  datatype BaseUnit = Sr | Rad | M | Kg | S | A | K | Mol | Cd

  /** The 3-bit field of a base unit. */
  function Code(unit: bv32, u: BaseUnit): (r: bv32)
    ensures r < 8
  {
    match u
    case Sr => (unit & SR) >> 24
    case Rad => (unit & RAD) >> 21
    case M => (unit & M_MASK) >> 18
    case Kg => (unit & KG) >> 15
    case S => (unit & S_MASK) >> 12
    case A => (unit & A_MASK) >> 9
    case K => (unit & K_MASK) >> 6
    case Mol => (unit & MOL) >> 3
    case Cd => (unit & CD) >> 0
  }

  /** sr(), rad(), m(), kg(), s(), a(), k(), mol(), cd(): the field minus 4. */
  function Exponent(unit: bv32, u: BaseUnit): (r: int)
    ensures -4 <= r <= 3
  {
    Code(unit, u) as int - 4
  }

  /** Position of a base unit's field, counted from the most significant one. */
  function Index(u: BaseUnit): (i: nat)
    ensures i < 9
  {
    match u
    case Sr => 0
    case Rad => 1
    case M => 2
    case Kg => 3
    case S => 4
    case A => 5
    case K => 6
    case Mol => 7
    case Cd => 8
  }

  /** The SI word with the given NUM and MOD bits and nine 3-bit fields, laid out as the Quantity constants are. */
  function Assemble(num: bv32, mod: bv32, c: seq<bv32>): bv32
    requires |c| == 9
  {
    SI | num | mod | (c[0] << 24) | (c[1] << 21) | (c[2] << 18) | (c[3] << 15) | (c[4] << 12)
      | (c[5] << 9) | (c[6] << 6) | (c[7] << 3) | c[8]
  }

  predicate Fields(num: bv32, mod: bv32, c: seq<bv32>) {
    && |c| == 9 && num & !NUM == 0 && mod & !MOD == 0
    && forall i :: 0 <= i < 9 ==> c[i] < 8
  }

  /** Each exponent getter reads back the field it was given, less 4. */
  lemma ExponentOfAssemble(num: bv32, mod: bv32, c: seq<bv32>, u: BaseUnit)
    requires Fields(num, mod, c)
    ensures Exponent(Assemble(num, mod, c), u) == c[Index(u)] as int - 4
  {
    CodeOfAssemble(num, mod, c, u);
  }

  lemma CodeOfAssemble(num: bv32, mod: bv32, c: seq<bv32>, u: BaseUnit)
    requires Fields(num, mod, c)
    ensures Code(Assemble(num, mod, c), u) == c[Index(u)]
  {
    assert c[0] < 8 && c[1] < 8 && c[2] < 8 && c[3] < 8 && c[4] < 8 && c[5] < 8 && c[6] < 8 && c[7] < 8 && c[8] < 8;
  }

  /** The SI bit, the NUM bits and the MOD bits of an assembled word are those it was given. */
  lemma HeadOfAssemble(num: bv32, mod: bv32, c: seq<bv32>)
    requires Fields(num, mod, c)
    ensures Assemble(num, mod, c) & SI == SI
    ensures Assemble(num, mod, c) & NUM == num
    ensures Assemble(num, mod, c) & MOD == mod
  {
    assert c[0] < 8 && c[1] < 8 && c[2] < 8 && c[3] < 8 && c[4] < 8 && c[5] < 8 && c[6] < 8 && c[7] < 8 && c[8] < 8;
    SiOfAssemble(num, mod, c);
    NumOfAssemble(num, mod, c);
    ModOfAssemble(num, mod, c);
  }

  lemma SiOfAssemble(num: bv32, mod: bv32, c: seq<bv32>)
    requires Fields(num, mod, c)
    ensures Assemble(num, mod, c) & SI == SI
  {
  }

  lemma NumOfAssemble(num: bv32, mod: bv32, c: seq<bv32>)
    requires Fields(num, mod, c)
    ensures Assemble(num, mod, c) & NUM == num
  {
    assert c[0] < 8 && c[1] < 8 && c[2] < 8 && c[3] < 8 && c[4] < 8 && c[5] < 8 && c[6] < 8 && c[7] < 8 && c[8] < 8;
  }

  lemma ModOfAssemble(num: bv32, mod: bv32, c: seq<bv32>)
    requires Fields(num, mod, c)
    ensures Assemble(num, mod, c) & MOD == mod
  {
    assert c[0] < 8 && c[1] < 8 && c[2] < 8 && c[3] < 8 && c[4] < 8 && c[5] < 8 && c[6] < 8 && c[7] < 8 && c[8] < 8;
  }

  function NumBits(n: NumKind): bv32 {
    match n
    case Int32 => I32
    case Int64 => I64
    case Float32 => F32
    case Double64 => D64
  }

  function ModBits(m: Modifier): bv32 {
    match m
    case Direct => DIR
    case Quotient => DIV
    case Log => LOG
    case LogQuotient => LOG_DIV
  }

  /** u & NUM, decoded as the case analysis of the unit's printer does. */
  function NumOf(unit: bv32): NumKind {
    var bits := unit & NUM;
    if bits == I32 then Int32 else if bits == I64 then Int64 else if bits == F32 then Float32 else Double64
  }

  /** u & MOD with the mask as written, matched against the MOD values; no case matches 1 << 29, 2 << 29 or 3 << 29. */
  function ModOfAsWritten(unit: bv32): Option<Modifier> {
    var bits := unit & MOD_AS_WRITTEN;
    if bits == DIR then Some(Direct) else if bits == DIV then Some(Quotient)
    else if bits == LOG then Some(Log) else if bits == LOG_DIV then Some(LogQuotient) else None
  }

  /** u & MOD with the mask of bits 27..28. */
  function ModOf(unit: bv32): Modifier {
    var bits := unit & MOD;
    if bits == DIR then Direct else if bits == DIV then Quotient else if bits == LOG then Log else LogQuotient
  }

  /** Storing a NUM kind in a unit word and decoding it gives the kind back. */
  lemma NumRoundTrip(unit: bv32, n: NumKind)
    ensures NumOf((unit & !NUM) | NumBits(n)) == n
  {
  }

  /** With the mask of bits 27..28, storing a modifier and decoding it gives it back. */
  lemma ModRoundTrip(unit: bv32, m: Modifier)
    ensures ModOf((unit & !MOD) | ModBits(m)) == m
  {
  }

  /** With the mask as written, no unit ever decodes as DIV, LOG or LOG_DIV. */
  lemma ModAsWrittenNeverQuotient(unit: bv32)
    ensures ModOfAsWritten(unit) == Some(Direct) || ModOfAsWritten(unit) == None
  {
  }

  /** For instance Length with MOD = DIV is read as DIR, and Length stored as I64 is read as no modifier at all. */
  lemma ModAsWrittenMisreads()
    ensures ModOf(LENGTH | DIV) == Quotient && ModOfAsWritten(LENGTH | DIV) == Some(Direct)
    ensures ModOf(LENGTH | I64) == Direct && ModOfAsWritten(LENGTH | I64) == None
  {
  }

  // The typical quantities, as the enum writes them.
  const LENGTH: bv32 := (1 << 31) | (DIR << 27) | ((4 + 0) << 24) | ((4 + 0) << 21) | ((4 + 1) << 18) | ((4 + 0) << 15) | ((4 + 0) << 12) | ((4 + 0) << 9) | ((4 + 0) << 6) | ((4 + 0) << 3) | (4 + 0)
  const MASS: bv32 := (1 << 31) | (DIR << 27) | ((4 + 0) << 24) | ((4 + 0) << 21) | ((4 + 0) << 18) | ((4 + 1) << 15) | ((4 + 0) << 12) | ((4 + 0) << 9) | ((4 + 0) << 6) | ((4 + 0) << 3) | (4 + 0)
  const TIME: bv32 := (1 << 31) | (DIR << 27) | ((4 + 0) << 24) | ((4 + 0) << 21) | ((4 + 0) << 18) | ((4 + 0) << 15) | ((4 + 1) << 12) | ((4 + 0) << 9) | ((4 + 0) << 6) | ((4 + 0) << 3) | (4 + 0)
  const CURRENT: bv32 := (1 << 31) | (DIR << 27) | ((4 + 0) << 24) | ((4 + 0) << 21) | ((4 + 0) << 18) | ((4 + 0) << 15) | ((4 + 0) << 12) | ((4 + 1) << 9) | ((4 + 0) << 6) | ((4 + 0) << 3) | (4 + 0)
  const TEMPERATURE: bv32 := (1 << 31) | (DIR << 27) | ((4 + 0) << 24) | ((4 + 0) << 21) | ((4 + 0) << 18) | ((4 + 0) << 15) | ((4 + 0) << 12) | ((4 + 0) << 9) | ((4 + 1) << 6) | ((4 + 0) << 3) | (4 + 0)
  const AMOUNT_OF_SUBSTANCE: bv32 := (1 << 31) | (DIR << 27) | ((4 + 0) << 24) | ((4 + 0) << 21) | ((4 + 0) << 18) | ((4 + 0) << 15) | ((4 + 0) << 12) | ((4 + 0) << 9) | ((4 + 0) << 6) | ((4 + 1) << 3) | (4 + 0)
  const LUMINOUS_INTENSITY: bv32 := (1 << 31) | (DIR << 27) | ((4 + 0) << 24) | ((4 + 0) << 21) | ((4 + 0) << 18) | ((4 + 0) << 15) | ((4 + 0) << 12) | ((4 + 0) << 9) | ((4 + 0) << 6) | ((4 + 0) << 3) | (4 + 1)
  const AREA: bv32 := (1 << 31) | (DIR << 27) | ((4 + 0) << 24) | ((4 + 0) << 21) | ((4 + 2) << 18) | ((4 + 0) << 15) | ((4 + 0) << 12) | ((4 + 0) << 9) | ((4 + 0) << 6) | ((4 + 0) << 3) | (4 + 0)
  const VOLUME: bv32 := (1 << 31) | (DIR << 27) | ((4 + 0) << 24) | ((4 + 0) << 21) | ((4 + 3) << 18) | ((4 + 0) << 15) | ((4 + 0) << 12) | ((4 + 0) << 9) | ((4 + 0) << 6) | ((4 + 0) << 3) | (4 + 0)
  const SPEED: bv32 := (1 << 31) | (DIR << 27) | ((4 + 0) << 24) | ((4 + 0) << 21) | ((4 + 1) << 18) | ((4 + 0) << 15) | ((4 - 1) << 12) | ((4 + 0) << 9) | ((4 + 0) << 6) | ((4 + 0) << 3) | (4 + 0)
  const ACCELERATION: bv32 := (1 << 31) | (DIR << 27) | ((4 + 0) << 24) | ((4 + 0) << 21) | ((4 + 1) << 18) | ((4 + 0) << 15) | ((4 - 2) << 12) | ((4 + 0) << 9) | ((4 + 0) << 6) | ((4 + 0) << 3) | (4 + 0)

  /** The fields of a quantity whose only non-zero exponent is that of u, held as the code c. */
  function OneUnit(u: BaseUnit, c: bv32): (f: seq<bv32>)
    ensures |f| == 9 && f[Index(u)] == c
    ensures forall i :: 0 <= i < 9 && i != Index(u) ==> f[i] == 4
  {
    seq(9, i requires 0 <= i < 9 => if i == Index(u) then c else 4)
  }

  /** The base quantities are direct SI words of one base unit to the first power; Area and Volume are m^2 and m^3. */
  lemma BaseQuantities()
    ensures LENGTH == Assemble(I32, DIR, OneUnit(M, 4 + 1))
    ensures MASS == Assemble(I32, DIR, OneUnit(Kg, 4 + 1))
    ensures TIME == Assemble(I32, DIR, OneUnit(S, 4 + 1))
    ensures CURRENT == Assemble(I32, DIR, OneUnit(A, 4 + 1))
    ensures TEMPERATURE == Assemble(I32, DIR, OneUnit(K, 4 + 1))
    ensures AMOUNT_OF_SUBSTANCE == Assemble(I32, DIR, OneUnit(Mol, 4 + 1))
    ensures LUMINOUS_INTENSITY == Assemble(I32, DIR, OneUnit(Cd, 4 + 1))
    ensures AREA == Assemble(I32, DIR, OneUnit(M, 4 + 2))
    ensures VOLUME == Assemble(I32, DIR, OneUnit(M, 4 + 3))
  {
  }

  /** Speed is m/s and Acceleration m/s^2. */
  lemma DerivedQuantities()
    ensures SPEED == Assemble(I32, DIR, [4, 4, 4 + 1, 4, 4 - 1, 4, 4, 4, 4])
    ensures ACCELERATION == Assemble(I32, DIR, [4, 4, 4 + 1, 4, 4 - 2, 4, 4, 4, 4])
  {
  }

  /** Length has m() == 1 and every other exponent 0; Speed has m() == 1 and s() == -1; Acceleration m() == 1 and s() == -2. */
  lemma QuantityExponents()
    ensures Exponent(LENGTH, M) == 1 && forall u: BaseUnit :: u != M ==> Exponent(LENGTH, u) == 0
    ensures Exponent(SPEED, M) == 1 && Exponent(SPEED, S) == -1
    ensures forall u: BaseUnit :: u != M && u != S ==> Exponent(SPEED, u) == 0
    ensures Exponent(ACCELERATION, M) == 1 && Exponent(ACCELERATION, S) == -2
    ensures forall u: BaseUnit :: u != M && u != S ==> Exponent(ACCELERATION, u) == 0
  {
  }

  /** Every Quantity constant is an SI unit of 32-bit integers with no modifier. */
  lemma QuantityHeads()
    ensures forall q :: q in {LENGTH, MASS, TIME, CURRENT, TEMPERATURE, AMOUNT_OF_SUBSTANCE, LUMINOUS_INTENSITY, AREA, VOLUME, SPEED, ACCELERATION} ==>
      q & SI == SI && NumOf(q) == Int32 && ModOf(q) == Direct
  {
  }
}
