/**
 * The remote-control receiver: a byte-at-a-time state machine that finds
 * frames of the form
 *
 *     0x55 0xAA 0x11 c  d1 .. d(c+5)  checksum
 *
 * (c < 7), accumulates the data bytes in a 48-byte buffer whose byte 0 is
 * the data length c + 6, and checks the uint8_t checksum
 * 0x10 + c + d1 + .. + d(c+5). The bytes waiting in the UART are the input
 * sequence; a call consumes them until it has a result to report.
 */
module Bluetooth {
  import opened CArith
  import opened Geometry

  const GOBLE_ADDRESS := 0x11
  const HEADER_CHECKSUM := 0x10
  const MAXPACKETDATA := 48
  /** The largest length byte accepted (the test is `c < 7`). */
  const MAX_LENGTH_BYTE := 6
  /** packetLength is the length byte plus 6. */
  const LENGTH_EXTRA := 6

  datatype PacketState =
    | Header55 | HeaderAA | Address | Length | ReadingData | Checksum
    | NewDataAvailable | PacketError

  /** The states the handler keeps between bytes; the last two are only ever returned. */
  predicate Stored(s: PacketState)
  {
    s != NewDataAvailable && s != PacketError
  }

  /** The receiver's statics and globals: packetState, checksum, packetLength, packetLengthReceived, packetData, flushcount, packetErrorCount. */
  datatype Receiver = Receiver(state: PacketState, checksum: u8, length: u8, received: u8,
                               data: seq<u8>, flushcount: int, errors: int)

  /** A byte either leaves the handler reading on, or ends the call with a result. */
  datatype Outcome = Continue(next: Receiver) | Stop(next: Receiver, result: PacketState)

  function Initial(): Receiver
  {
    Receiver(Header55, 0, 0, 0, seq(MAXPACKETDATA, _ => 0), 0, 0)
  }

  // ---------------------------------------------------------------------
  // The handler as functions of the input

  /**
   * The discard loop of WAITING_FOR_HEADER_55: starting from the byte `c`
   * just read, read on while bytes remain and `c` is not 0x55, counting
   * each byte read in the uint32_t flushcount. Yields the last byte read,
   * the unread input and the count.
   */
  function Skip(c: u8, rest: seq<u8>, flush: int): (r: (u8, seq<u8>, int))
    ensures |r.1| <= |rest|
    ensures r.0 == 0x55 || |r.1| == 0
    decreases |rest|
  {
    if |rest| == 0 || c == 0x55 then (c, rest, flush)
    else Skip(rest[0], rest[1..], U32(flush + 1))
  }

  lemma SkipOne(c: u8, rest: seq<u8>, flush: int)
    requires |rest| > 0 && c != 0x55
    ensures Skip(c, rest, flush) == Skip(rest[0], rest[1..], U32(flush + 1))
  {
  }

  lemma SkipDone(c: u8, rest: seq<u8>, flush: int)
    requires |rest| == 0 || c == 0x55
    ensures Skip(c, rest, flush) == (c, rest, flush)
  {
  }

  /** The handler's switch for every state but WAITING_FOR_HEADER_55, on the byte `c`. */
  function Step(rx: Receiver, c: u8): (o: Outcome)
    requires |rx.data| == MAXPACKETDATA
    ensures |o.next.data| == MAXPACKETDATA
  {
    match rx.state
    case HeaderAA =>
      if c == 0xAA then Continue(rx.(state := Address))
      else if c == 0x55 then Continue(rx)
      else Continue(rx.(state := Header55))
    case Address =>
      if c == GOBLE_ADDRESS then Continue(rx.(state := Length))
      else if c == 0x55 then Continue(rx.(state := HeaderAA))
      else Stop(rx.(errors := U32(rx.errors + 1), state := Header55), PacketError)
    case Length =>
      if c <= MAX_LENGTH_BYTE then
        Continue(rx.(checksum := U8(HEADER_CHECKSUM + c), length := c + LENGTH_EXTRA, received := 1,
                     data := rx.data[0 := c + LENGTH_EXTRA], state := ReadingData))
      else Stop(rx.(errors := U32(rx.errors + 1), state := Header55), PacketError)
    case ReadingData =>
      if rx.received >= MAXPACKETDATA then Stop(rx.(state := Header55, received := 0), PacketError)
      else
        var read := rx.(data := rx.data[rx.received := c], received := rx.received + 1,
                        checksum := U8(rx.checksum + c));
        Continue(if read.received == read.length then read.(state := Checksum) else read)
    case Checksum =>
      if rx.checksum != c then Stop(rx.(errors := U32(rx.errors + 1), state := Header55), PacketError)
      else Stop(rx.(state := Header55), NewDataAvailable)
    case _ => Continue(rx)
  }

  /** The state after the discard loop: WAITING_FOR_HEADER_AA if it stopped on 0x55. */
  function Resync(rx: Receiver, t: (u8, seq<u8>, int)): Receiver
  {
    rx.(flushcount := t.2, state := if t.0 == 0x55 then HeaderAA else Header55)
  }

  /**
   * One call of `BlueTooth_PacketHandler` on the bytes `input`: the new
   * receiver state, the value returned, and the bytes left unread.
   */
  function Handle(rx: Receiver, input: seq<u8>): (r: (Receiver, PacketState, seq<u8>))
    requires |rx.data| == MAXPACKETDATA
    ensures |r.0.data| == MAXPACKETDATA
    decreases |input|
  {
    if |input| == 0 then (rx, rx.state, [])
    else if rx.state == Header55 then
      var t := Skip(input[0], input[1..], 0);
      Handle(Resync(rx, t), t.1)
    else
      match Step(rx, input[0])
      case Continue(next) => Handle(next, input[1..])
      case Stop(next, result) => (next, result, input[1..])
  }

  lemma HandleSkip(rx: Receiver, input: seq<u8>)
    requires |rx.data| == MAXPACKETDATA && |input| > 0 && rx.state == Header55
    ensures Handle(rx, input) == Handle(Resync(rx, Skip(input[0], input[1..], 0)), Skip(input[0], input[1..], 0).1)
  {
  }

  lemma HandleContinue(rx: Receiver, input: seq<u8>)
    requires |rx.data| == MAXPACKETDATA && |input| > 0 && rx.state != Header55
    requires Step(rx, input[0]).Continue?
    ensures Handle(rx, input) == Handle(Step(rx, input[0]).next, input[1..])
  {
  }

  lemma HandleStop(rx: Receiver, input: seq<u8>)
    requires |rx.data| == MAXPACKETDATA && |input| > 0 && rx.state != Header55
    requires Step(rx, input[0]).Stop?
    ensures Handle(rx, input) == (Step(rx, input[0]).next, Step(rx, input[0]).result, input[1..])
  {
  }

  // ---------------------------------------------------------------------
  // The receiver invariant

  /**
   * What holds between calls: the received count never passes the packet
   * length, which is at most 12; while data is read at least the length
   * byte is stored and more is expected; the checksum is awaited exactly
   * when the packet is complete; byte 0 is at most 12.
   */
  predicate Inv(rx: Receiver)
  {
    && |rx.data| == MAXPACKETDATA
    && Stored(rx.state)
    && rx.received <= rx.length <= MAX_LENGTH_BYTE + LENGTH_EXTRA
    && rx.data[0] <= MAX_LENGTH_BYTE + LENGTH_EXTRA
    && (rx.state == ReadingData ==> 1 <= rx.received < rx.length)
    && (rx.state == Checksum ==> rx.received == rx.length)
  }

  lemma InitialInv()
    ensures Inv(Initial()) && Initial().state == Header55
  {
  }

  lemma ResyncKeepsInv(rx: Receiver, t: (u8, seq<u8>, int))
    requires Inv(rx) && rx.state == Header55
    ensures Inv(Resync(rx, t))
  {
  }

  /** Every byte keeps the invariant, and a reading receiver has room in the buffer. */
  lemma StepKeepsInv(rx: Receiver, c: u8)
    requires Inv(rx)
    ensures Inv(Step(rx, c).next)
    ensures rx.state == ReadingData ==> rx.received < MAXPACKETDATA
  {
  }

  /**
   * A call keeps the invariant, so the abandon-on-overflow branch of
   * READING_DATA is never taken: the buffer index stays below 12.
   */
  lemma {:induction false} HandleKeepsInv(rx: Receiver, input: seq<u8>)
    requires Inv(rx)
    ensures Inv(Handle(rx, input).0)
    decreases |input|
  {
    if |input| > 0 {
      if rx.state == Header55 {
        var t := Skip(input[0], input[1..], 0);
        HandleSkip(rx, input);
        HandleKeepsInv(Resync(rx, t), t.1);
      } else {
        StepKeepsInv(rx, input[0]);
        if Step(rx, input[0]).Continue? {
          HandleContinue(rx, input);
          HandleKeepsInv(Step(rx, input[0]).next, input[1..]);
        } else {
          HandleStop(rx, input);
        }
      }
    }
  }

  // ---------------------------------------------------------------------
  // Frames

  /** The uint8_t checksum after adding `bytes` to `acc` one at a time. */
  function ChecksumOf(acc: u8, bytes: seq<u8>): u8
    decreases |bytes|
  {
    if |bytes| == 0 then acc else ChecksumOf(U8(acc + bytes[0]), bytes[1..])
  }

  function Sum(bytes: seq<u8>): int
    decreases |bytes|
  {
    if |bytes| == 0 then 0 else bytes[0] + Sum(bytes[1..])
  }

  /** The running uint8_t checksum is the plain sum reduced modulo 256. */
  lemma {:induction false} ChecksumIsSum(acc: u8, bytes: seq<u8>)
    ensures ChecksumOf(acc, bytes) == (acc + Sum(bytes)) % 0x100
    decreases |bytes|
  {
    if |bytes| > 0 {
      ChecksumIsSum(U8(acc + bytes[0]), bytes[1..]);
      var s := Sum(bytes[1..]);
      assert (U8(acc + bytes[0]) + s) % 0x100 == (acc + bytes[0] + s) % 0x100 by {
        ModShift(acc + bytes[0], s);
      }
    }
  }

  lemma ModShift(a: int, b: int)
    ensures (a % 0x100 + b) % 0x100 == (a + b) % 0x100
  {
    var q := a / 0x100;
    assert a == 0x100 * q + a % 0x100;
    assert a + b == (a % 0x100 + b) + 0x100 * q;
    ModMultiple(a % 0x100 + b, q);
  }

  lemma ModMultiple(x: int, q: int)
    ensures (x + 0x100 * q) % 0x100 == x % 0x100
  {
    var r := x % 0x100;
    DivUnique(x + 0x100 * q, 0x100, x / 0x100 + q, r);
  }

  /** The checksum a frame with length byte n and data `payload` must carry. */
  function FrameChecksum(n: u8, payload: seq<u8>): u8
  {
    ChecksumOf(U8(HEADER_CHECKSUM + n), payload)
  }

  function Frame(n: u8, payload: seq<u8>, check: u8): seq<u8>
  {
    [0x55, 0xAA, GOBLE_ADDRESS, n] + payload + [check]
  }

  /** Bytes before a 0x55 are discarded and counted. */
  lemma {:induction false} SkipJunk(c: u8, junk: seq<u8>, more: seq<u8>, flush: int)
    requires c != 0x55 && forall k :: 0 <= k < |junk| ==> junk[k] != 0x55
    ensures Skip(c, junk + [0x55] + more, flush) == (0x55, more, Skip(c, junk + [0x55], flush).2)
    ensures Skip(c, junk + [0x55] + more, flush).2 == AddWrapped(flush, |junk| + 1)
    decreases |junk|
  {
    if |junk| == 0 {
      assert (junk + [0x55] + more)[1..] == more;
    } else {
      assert (junk + [0x55] + more)[1..] == junk[1..] + [0x55] + more;
      assert (junk + [0x55])[1..] == junk[1..] + [0x55];
      SkipJunk(junk[0], junk[1..], more, U32(flush + 1));
      AddWrappedStep(flush, |junk|);
    }
  }

  /** `flush` incremented `k` times as a uint32_t. */
  function AddWrapped(flush: int, k: nat): int
    decreases k
  {
    if k == 0 then flush else AddWrapped(U32(flush + 1), k - 1)
  }

  lemma {:induction false} AddWrappedStep(flush: int, k: nat)
    ensures AddWrapped(U32(flush + 1), k) == AddWrapped(flush, k + 1)
  {
  }

  /** Counting from 0, `k` uint32_t increments leave k modulo 2^32. */
  lemma {:induction false} AddWrappedCount(k: nat)
    ensures AddWrapped(0, k) == U32(k)
  {
    AddWrappedFrom(0, k);
  }

  lemma {:induction false} AddWrappedFrom(flush: int, k: nat)
    requires 0 <= flush < 0x1_0000_0000
    ensures AddWrapped(flush, k) == U32(flush + k)
    decreases k
  {
    if k > 0 {
      AddWrappedFrom(U32(flush + 1), k - 1);
      U32Shift(flush + 1, k - 1);
    }
  }

  lemma U32Shift(a: int, b: int)
    ensures U32(U32(a) + b) == U32(a + b)
  {
    var q := a / 0x1_0000_0000;
    assert a == 0x1_0000_0000 * q + U32(a);
    DivUnique(a + b, 0x1_0000_0000, (U32(a) + b) / 0x1_0000_0000 + q, U32(U32(a) + b));
  }

  /**
   * What the discard loop leaves: the unread input is a suffix of `rest`;
   * the byte it stopped on is the last one consumed (or `c` if none was);
   * every byte it passed over, `c` included, was not 0x55; and the counter
   * has grown by the number of bytes consumed, mod 2^32.
   */
  lemma {:induction false} SkipSuffix(c: u8, rest: seq<u8>, flush: int)
    requires 0 <= flush < 0x1_0000_0000
    ensures var r := Skip(c, rest, flush);
            var k := |rest| - |r.1|;
            && r.1 == rest[k..]
            && r.0 == (if k == 0 then c else rest[k - 1])
            && (k > 0 ==> c != 0x55 && forall j :: 0 <= j < k - 1 ==> rest[j] != 0x55)
            && r.2 == U32(flush + k)
    decreases |rest|
  {
    if |rest| > 0 && c != 0x55 {
      SkipOne(c, rest, flush);
      SkipSuffix(rest[0], rest[1..], U32(flush + 1));
      U32Shift(flush + 1, |rest[1..]| - |Skip(c, rest, flush).1|);
    }
  }

  /** The discard loop on junk without 0x55 followed by the header byte. */
  lemma SkipToHeader(junk: seq<u8>, after: seq<u8>)
    requires forall k :: 0 <= k < |junk| ==> junk[k] != 0x55
    ensures var input := junk + [0x55] + after;
            Skip(input[0], input[1..], 0) == (0x55, after, U32(|junk|))
  {
    var input := junk + [0x55] + after;
    if |junk| == 0 {
      assert input[0] == 0x55 && input[1..] == after;
    } else {
      assert input[1..] == junk[1..] + [0x55] + after;
      SkipJunk(junk[0], junk[1..], after, 0);
      AddWrappedCount(|junk|);
    }
  }

  /** Junk without 0x55 and then 0x55: the receiver waits for 0xAA, having counted the junk. */
  lemma JunkThenSync(rx: Receiver, junk: seq<u8>, after: seq<u8>)
    requires Inv(rx) && rx.state == Header55
    requires forall k :: 0 <= k < |junk| ==> junk[k] != 0x55
    ensures Handle(rx, junk + [0x55] + after) == Handle(rx.(flushcount := U32(|junk|), state := HeaderAA), after)
  {
    var input := junk + [0x55] + after;
    SkipToHeader(junk, after);
    HandleSkip(rx, input);
  }

  /** 0xAA, the address and a valid length byte start the data of a packet. */
  lemma HeaderAddressLength(rx: Receiver, n: u8, more: seq<u8>)
    requires Inv(rx) && rx.state == HeaderAA && n <= MAX_LENGTH_BYTE
    ensures Handle(rx, [0xAA, GOBLE_ADDRESS, n] + more)
         == Handle(rx.(checksum := U8(HEADER_CHECKSUM + n), length := n + LENGTH_EXTRA,
                       received := 1, data := rx.data[0 := n + LENGTH_EXTRA], state := ReadingData), more)
  {
    var in1 := [0xAA, GOBLE_ADDRESS, n] + more;
    var in2 := [GOBLE_ADDRESS, n] + more;
    var in3 := [n] + more;
    assert in1[0] == 0xAA && in1[1..] == in2;
    assert in2[0] == GOBLE_ADDRESS && in2[1..] == in3;
    assert in3[0] == n && in3[1..] == more;
    HandleContinue(rx, in1);
    HandleContinue(rx.(state := Address), in2);
    HandleContinue(rx.(state := Length), in3);
  }

  /**
   * Junk without 0x55, then the header, address and a valid length byte,
   * leave the receiver reading data with the length stored in byte 0.
   */
  lemma FrameHeader(rx: Receiver, junk: seq<u8>, n: u8, more: seq<u8>)
    requires Inv(rx) && rx.state == Header55 && n <= MAX_LENGTH_BYTE
    requires forall k :: 0 <= k < |junk| ==> junk[k] != 0x55
    ensures Handle(rx, junk + [0x55, 0xAA, GOBLE_ADDRESS, n] + more)
         == Handle(rx.(flushcount := U32(|junk|), checksum := U8(HEADER_CHECKSUM + n), length := n + LENGTH_EXTRA,
                       received := 1, data := rx.data[0 := n + LENGTH_EXTRA], state := ReadingData), more)
  {
    var after := [0xAA, GOBLE_ADDRESS, n] + more;
    assert junk + [0x55, 0xAA, GOBLE_ADDRESS, n] + more == junk + [0x55] + after;
    JunkThenSync(rx, junk, after);
    HeaderAddressLength(rx.(flushcount := U32(|junk|), state := HeaderAA), n, more);
  }

  /**
   * Reading the rest of the data: the bytes land in the buffer after those
   * already received, the checksum accumulates them, and the receiver then
   * waits for the checksum byte.
   */
  lemma {:induction false} ReadPayload(rx: Receiver, p: seq<u8>, more: seq<u8>)
    requires Inv(rx) && rx.state == ReadingData
    requires rx.received as int + |p| == rx.length as int
    ensures Handle(rx, p + more)
         == Handle(rx.(state := Checksum, received := rx.length, checksum := ChecksumOf(rx.checksum, p),
                       data := rx.data[..rx.received] + p + rx.data[rx.length..]), more)
    decreases |p|
  {
    var k := rx.received;
    var b := p[0];
    assert (p + more)[0] == b && (p + more)[1..] == p[1..] + more;
    var read := rx.(data := rx.data[k := b], received := k + 1, checksum := U8(rx.checksum + b));
    HandleContinue(rx, p + more);
    if read.received == read.length {
      assert p == [b];
      assert rx.data[k := b] == rx.data[..k] + p + rx.data[rx.length..];
    } else {
      ReadPayload(read, p[1..], more);
      assert read.data[..k + 1] + p[1..] + read.data[rx.length..] == rx.data[..k] + p + rx.data[rx.length..];
    }
  }

  /**
   * A well-formed frame, after any run of bytes without 0x55, is accepted:
   * the call returns NEW_DATA_AVAILABLE right after the checksum byte, with
   * the packet length in byte 0 and the data bytes after it, the error count
   * unchanged and the discarded bytes counted in flushcount.
   */
  lemma FrameAccepted(rx: Receiver, junk: seq<u8>, n: u8, payload: seq<u8>, tail: seq<u8>)
    requires Inv(rx) && rx.state == Header55
    requires n <= MAX_LENGTH_BYTE && |payload| == n as int + 5
    requires forall k :: 0 <= k < |junk| ==> junk[k] != 0x55
    ensures var r := Handle(rx, junk + Frame(n, payload, FrameChecksum(n, payload)) + tail);
            && r.1 == NewDataAvailable && r.2 == tail
            && r.0.state == Header55 && r.0.errors == rx.errors
            && r.0.data[0] == n as int + LENGTH_EXTRA
            && r.0.data[1..n as int + LENGTH_EXTRA] == payload
            && r.0.flushcount == U32(|junk|)
  {
    var check := FrameChecksum(n, payload);
    var more := payload + [check] + tail;
    assert junk + Frame(n, payload, check) + tail == junk + [0x55, 0xAA, GOBLE_ADDRESS, n] + more;
    FrameHeader(rx, junk, n, more);
    var rxR := rx.(flushcount := U32(|junk|), checksum := U8(HEADER_CHECKSUM + n), length := n + LENGTH_EXTRA,
                   received := 1, data := rx.data[0 := n + LENGTH_EXTRA], state := ReadingData);
    ReadPayload(rxR, payload, [check] + tail);
    assert more == payload + ([check] + tail);
    var rxC := rxR.(state := Checksum, received := rxR.length, checksum := ChecksumOf(rxR.checksum, payload),
                    data := rxR.data[..1] + payload + rxR.data[rxR.length..]);
    assert ([check] + tail)[0] == check && ([check] + tail)[1..] == tail;
    HandleStop(rxC, [check] + tail);
    assert rxC.data[1..n as int + LENGTH_EXTRA] == payload;
  }

  /**
   * The same frame with any other checksum byte is rejected: the call returns
   * PACKET_ERROR right after that byte, counts one more error (as a
   * uint32_t) and goes back to waiting for 0x55.
   */
  lemma FrameRejected(rx: Receiver, junk: seq<u8>, n: u8, payload: seq<u8>, check: u8, tail: seq<u8>)
    requires Inv(rx) && rx.state == Header55
    requires n <= MAX_LENGTH_BYTE && |payload| == n as int + 5 && check != FrameChecksum(n, payload)
    requires forall k :: 0 <= k < |junk| ==> junk[k] != 0x55
    ensures var r := Handle(rx, junk + Frame(n, payload, check) + tail);
            && r.1 == PacketError && r.2 == tail
            && r.0.state == Header55 && r.0.errors == U32(rx.errors + 1)
  {
    var more := payload + [check] + tail;
    assert junk + Frame(n, payload, check) + tail == junk + [0x55, 0xAA, GOBLE_ADDRESS, n] + more;
    FrameHeader(rx, junk, n, more);
    var rxR := rx.(flushcount := U32(|junk|), checksum := U8(HEADER_CHECKSUM + n), length := n + LENGTH_EXTRA,
                   received := 1, data := rx.data[0 := n + LENGTH_EXTRA], state := ReadingData);
    ReadPayload(rxR, payload, [check] + tail);
    assert more == payload + ([check] + tail);
    var rxC := rxR.(state := Checksum, received := rxR.length, checksum := ChecksumOf(rxR.checksum, payload),
                    data := rxR.data[..1] + payload + rxR.data[rxR.length..]);
    assert ([check] + tail)[0] == check && ([check] + tail)[1..] == tail;
    HandleStop(rxC, [check] + tail);
  }

  /** The header states on one byte, as the handler's switch has them. */
  lemma HeaderSteps(rx: Receiver, c: u8)
    requires Inv(rx)
    ensures rx.state == HeaderAA ==>
              Step(rx, c) == Continue(rx.(state := if c == 0xAA then Address else if c == 0x55 then HeaderAA else Header55))
    ensures rx.state == Address && c != GOBLE_ADDRESS && c != 0x55 ==>
              Step(rx, c) == Stop(rx.(errors := U32(rx.errors + 1), state := Header55), PacketError)
    ensures rx.state == Address && (c == GOBLE_ADDRESS || c == 0x55) ==>
              Step(rx, c) == Continue(rx.(state := if c == 0x55 then HeaderAA else Length))
    ensures rx.state == Length && c > MAX_LENGTH_BYTE ==>
              Step(rx, c) == Stop(rx.(errors := U32(rx.errors + 1), state := Header55), PacketError)
  {
  }

  /** A call that ends only because the input ran out returns the state it keeps. */
  lemma {:induction false} RanOutReturnsState(rx: Receiver, input: seq<u8>)
    requires Inv(rx)
    ensures var r := Handle(rx, input);
            Stored(r.1) ==> r.1 == r.0.state && r.2 == []
    decreases |input|
  {
    if |input| > 0 {
      if rx.state == Header55 {
        var t := Skip(input[0], input[1..], 0);
        HandleSkip(rx, input);
        RanOutReturnsState(Resync(rx, t), t.1);
      } else {
        StepKeepsInv(rx, input[0]);
        if Step(rx, input[0]).Continue? {
          HandleContinue(rx, input);
          RanOutReturnsState(Step(rx, input[0]).next, input[1..]);
        } else {
          HandleStop(rx, input);
        }
      }
    }
  }

  // ---------------------------------------------------------------------
  // Resuming a packet across calls

  /** The receiver without flushcount, which the handler only ever resets and counts. */
  function Forget(rx: Receiver): Receiver
  {
    rx.(flushcount := 0)
  }

  lemma {:induction false} SkipIgnoresCount(c: u8, rest: seq<u8>, f1: int, f2: int)
    ensures Skip(c, rest, f1).0 == Skip(c, rest, f2).0 && Skip(c, rest, f1).1 == Skip(c, rest, f2).1
    decreases |rest|
  {
    if |rest| > 0 && c != 0x55 {
      SkipIgnoresCount(rest[0], rest[1..], U32(f1 + 1), U32(f2 + 1));
    }
  }

  /** Skipping that stops at a 0x55 inside `r` does not look at what follows. */
  lemma {:induction false} SkipAppendFound(c: u8, r: seq<u8>, b: seq<u8>, f: int)
    requires Skip(c, r, f).0 == 0x55
    ensures Skip(c, r + b, f) == (0x55, Skip(c, r, f).1 + b, Skip(c, r, f).2)
    decreases |r|
  {
    if |r| > 0 && c != 0x55 {
      assert (r + b)[0] == r[0] && (r + b)[1..] == r[1..] + b;
      SkipAppendFound(r[0], r[1..], b, U32(f + 1));
    }
  }

  /** Skipping that runs out of `r` goes on into what follows. */
  lemma {:induction false} SkipAppendRanOut(c: u8, r: seq<u8>, b: seq<u8>, f: int)
    requires Skip(c, r, f).0 != 0x55
    ensures Skip(c, r + b, f) == Skip(Skip(c, r, f).0, b, Skip(c, r, f).2)
    decreases |r|
  {
    if |r| > 0 {
      assert (r + b)[0] == r[0] && (r + b)[1..] == r[1..] + b;
      SkipAppendRanOut(r[0], r[1..], b, U32(f + 1));
    } else {
      assert r + b == b;
    }
  }

  /** flushcount is never read: receivers that differ only there behave alike. */
  lemma {:induction false} HandleIgnoresFlush(x: Receiver, y: Receiver, input: seq<u8>)
    requires |x.data| == MAXPACKETDATA && Forget(x) == Forget(y)
    ensures Handle(x, input).1 == Handle(y, input).1 && Handle(x, input).2 == Handle(y, input).2
    ensures Forget(Handle(x, input).0) == Forget(Handle(y, input).0)
    decreases |input|
  {
    if |input| > 0 {
      if x.state == Header55 {
        var t := Skip(input[0], input[1..], 0);
        HandleSkip(x, input);
        HandleSkip(y, input);
        HandleIgnoresFlush(Resync(x, t), Resync(y, t), t.1);
      } else {
        assert x.state == y.state;
        var ox, oy := Step(x, input[0]), Step(y, input[0]);
        assert Forget(ox.next) == Forget(oy.next) && ox.Continue? == oy.Continue?;
        if ox.Continue? {
          HandleContinue(x, input);
          HandleContinue(y, input);
          HandleIgnoresFlush(ox.next, oy.next, input[1..]);
        } else {
          assert ox.result == oy.result;
          HandleStop(x, input);
          HandleStop(y, input);
        }
      }
    }
  }

  /**
   * Input that runs out mid-packet loses nothing: feeding `a` and then, in a
   * later call, `b` gives the same result, unread bytes and receiver
   * (apart from the discard count flushcount) as feeding `a + b` at once.
   */
  lemma {:induction false} Resumable(rx: Receiver, a: seq<u8>, b: seq<u8>)
    requires Inv(rx) && Stored(Handle(rx, a).1)
    ensures var whole, split := Handle(rx, a + b), Handle(Handle(rx, a).0, b);
            && whole.1 == split.1 && whole.2 == split.2
            && Forget(whole.0) == Forget(split.0)
    decreases |a|, 1
  {
    if |a| == 0 {
      assert a + b == b;
    } else if rx.state == Header55 {
      ResumableDiscarding(rx, a, b);
    } else {
      assert (a + b)[0] == a[0] && (a + b)[1..] == a[1..] + b;
      StepKeepsInv(rx, a[0]);
      if Step(rx, a[0]).Continue? {
        HandleContinue(rx, a);
        HandleContinue(rx, a + b);
        Resumable(Step(rx, a[0]).next, a[1..], b);
      } else {
        HandleStop(rx, a);
      }
    }
  }

  /** Resumable, for a call that starts in the discard loop. */
  lemma {:induction false} ResumableDiscarding(rx: Receiver, a: seq<u8>, b: seq<u8>)
    requires Inv(rx) && rx.state == Header55 && |a| > 0 && Stored(Handle(rx, a).1)
    ensures var whole, split := Handle(rx, a + b), Handle(Handle(rx, a).0, b);
            && whole.1 == split.1 && whole.2 == split.2
            && Forget(whole.0) == Forget(split.0)
    decreases |a|, 0
  {
    assert (a + b)[0] == a[0] && (a + b)[1..] == a[1..] + b;
    var t := Skip(a[0], a[1..], 0);
    HandleSkip(rx, a);
    HandleSkip(rx, a + b);
    if t.0 == 0x55 {
      SkipAppendFound(a[0], a[1..], b, 0);
      Resumable(Resync(rx, t), t.1, b);
    } else {
      SkipAppendRanOut(a[0], a[1..], b, 0);
      var rxW := Resync(rx, t);
      assert t.1 == [];
      assert Handle(rx, a) == (rxW, Header55, []);
      if |b| > 0 {
        var tw := Skip(t.0, b, t.2);
        var ts := Skip(b[0], b[1..], 0);
        assert tw == Skip(b[0], b[1..], U32(t.2 + 1));
        SkipIgnoresCount(b[0], b[1..], U32(t.2 + 1), 0);
        HandleSkip(rxW, b);
        HandleIgnoresFlush(Resync(rx, tw), Resync(rxW, ts), ts.1);
      } else {
        assert a + b == a;
      }
    }
  }

  // ---------------------------------------------------------------------
  // Decoding the buttons

  /** The command character a button code selects. */
  function CommandCode(code: u8): u8
  {
    if code == 4 then 'r' as u8
    else if code == 3 then 'b' as u8
    else if code == 2 then '1' as u8
    else if code == 1 then 'f' as u8
    else 's' as u8
  }

  /** Codes 5 and 6 leave the command as it was. */
  predicate Ignored(code: u8)
  {
    code == 5 || code == 6
  }

  /**
   * The command decoded from data[i..hi): the code of the first byte not
   * ignored, or 0 when all are ignored. Consuming the indices from the top
   * down and letting each overwrite the command leaves the lowest one.
   */
  function Scan(data: seq<u8>, i: nat, hi: nat): (r: u8)
    requires hi <= |data|
    ensures r in {0, 'f' as u8, '1' as u8, 'b' as u8, 'r' as u8, 's' as u8}
    decreases hi - i
  {
    if i >= hi then 0
    else if Ignored(data[i]) then Scan(data, i + 1, hi)
    else CommandCode(data[i])
  }

  /** `decodePacket`: the button bytes read are indices 2 .. packetData[0] + 1. */
  function DecodeCommand(data: seq<u8>): u8
    requires |data| == MAXPACKETDATA && data[0] as int + 2 <= MAXPACKETDATA
  {
    Scan(data, 2, data[0] as int + 2)
  }

  /** The scan yields 0 exactly when every byte it reads is ignored. */
  lemma {:induction false} ScanZeroIff(data: seq<u8>, i: nat, hi: nat)
    requires hi <= |data|
    ensures Scan(data, i, hi) == 0 <==> forall k :: i <= k < hi ==> Ignored(data[k])
    decreases hi - i
  {
    if i < hi && Ignored(data[i]) {
      ScanZeroIff(data, i + 1, hi);
    }
  }

  /** Otherwise the scan yields the code of the first byte not ignored. */
  lemma {:induction false} ScanFirst(data: seq<u8>, i: nat, hi: nat, j: nat)
    requires hi <= |data| && i <= j < hi && !Ignored(data[j])
    requires forall k :: i <= k < j ==> Ignored(data[k])
    ensures Scan(data, i, hi) == CommandCode(data[j])
    decreases j - i
  {
    if i < j {
      ScanFirst(data, i + 1, hi, j);
    }
  }

  /**
   * What `decodePacket` returns: 0 exactly when every byte at indices
   * 2 .. packetData[0] + 1 is 5 or 6, otherwise the command of the lowest
   * such index holding another code.
   */
  lemma DecodeResult(data: seq<u8>)
    requires |data| == MAXPACKETDATA && data[0] as int + 2 <= MAXPACKETDATA
    ensures DecodeCommand(data) == 0 <==> forall k :: 2 <= k < data[0] as int + 2 ==> Ignored(data[k])
  {
    ScanZeroIff(data, 2, data[0] as int + 2);
  }

  /** The lowest index holding a code other than 5 and 6 decides the command. */
  lemma DecodeFirst(data: seq<u8>, j: nat)
    requires |data| == MAXPACKETDATA && data[0] as int + 2 <= MAXPACKETDATA
    requires 2 <= j < data[0] as int + 2 && !Ignored(data[j])
    requires forall k :: 2 <= k < j ==> Ignored(data[k])
    ensures DecodeCommand(data) == CommandCode(data[j])
    ensures DecodeCommand(data) in {'f' as u8, '1' as u8, 'b' as u8, 'r' as u8, 's' as u8}
  {
    ScanFirst(data, 2, data[0] as int + 2, j);
  }

  /**
   * After a frame with length byte n, byte 0 is n + 6 and the frame's data
   * fills bytes 1 .. n + 5, so decodePacket also reads the two bytes after
   * the frame, left over from earlier frames: a single stale code 1 there
   * decodes as 'f' although every button byte of the frame is 5.
   */
  lemma DecodeReadsPastFrame()
    ensures var n := 0;
            var data := [n + LENGTH_EXTRA] + seq(5, _ => 5) + [5, 1] + seq(MAXPACKETDATA - 8, _ => 0);
            && |data| == MAXPACKETDATA
            && (forall k :: 1 <= k < n + LENGTH_EXTRA ==> data[k] == 5)
            && DecodeCommand(data) == 'f' as u8
  {
    var data: seq<u8> := [6] + seq(5, _ => 5) + [5, 1] + seq(MAXPACKETDATA - 8, _ => 0);
    assert data[6] == 5 && data[7] == 1;
    ScanFirst(data, 2, 8, 7);
  }

  // ---------------------------------------------------------------------
  // The receiver

  class PacketReceiver {
    var packetState: PacketState
    var checksum: u8
    var packetLength: u8
    var packetLengthReceived: u8
    var packetData: array<u8>
    var flushcount: int
    var packetErrorCount: int

    ghost function Abs(): Receiver
      reads this, packetData
    {
      Receiver(packetState, checksum, packetLength, packetLengthReceived, packetData[..], flushcount, packetErrorCount)
    }

    ghost predicate Valid()
      reads this, packetData
    {
      packetData.Length == MAXPACKETDATA && Inv(Abs())
    }

    constructor ()
      ensures Valid() && fresh(packetData)
      ensures Abs() == Initial()
    {
      packetState := Header55;
      checksum, packetLength, packetLengthReceived := 0, 0, 0;
      packetData := new u8[MAXPACKETDATA](_ => 0);
      flushcount, packetErrorCount := 0, 0;
      new;
      assert packetData[..] == seq(MAXPACKETDATA, _ => 0);
    }

    /**
     * `BlueTooth_PacketHandler`: consume the available bytes one at a time
     * through the packet state machine, returning early on a packet error or
     * a complete packet, otherwise returning the state once the input is
     * exhausted.
     */
    method PacketHandler(input: seq<u8>) returns (result: PacketState, rest: seq<u8>)
      requires Valid()
      modifies this, packetData
      ensures Valid()
      ensures (Abs(), result, rest) == Handle(old(Abs()), input)
    {
      var i := 0;
      while i < |input|
        invariant 0 <= i <= |input| && Valid() && packetData == old(packetData)
        invariant Handle(old(Abs()), input) == Handle(Abs(), input[i..])
        decreases |input| - i
      {
        ghost var before, suffix := Abs(), input[i..];
        var c := input[i];
        i := i + 1;
        assert suffix[0] == c && suffix[1..] == input[i..];
        if packetState == Header55 {
          ghost var i0 := i;
          i := DiscardUntilHeader(input, i, c);
          ResyncKeepsInv(before, Skip(c, input[i0..], 0));
          HandleSkip(before, suffix);
        } else {
          var stop, r := StepByte(c);
          if stop {
            HandleStop(before, suffix);
            return r, input[i..];
          }
          HandleContinue(before, suffix);
        }
      }
      return packetState, [];
    }

    /**
     * WAITING_FOR_HEADER_55 after reading `c`: reset flushcount, read on
     * (counting) while bytes remain and the last byte read is not 0x55, and
     * wait for 0xAA if it is. Returns the position of the next unread byte.
     */
    method DiscardUntilHeader(input: seq<u8>, start: nat, c0: u8) returns (i: nat)
      requires Valid() && packetState == Header55 && start <= |input|
      modifies this
      ensures packetData == old(packetData)
      ensures start <= i <= |input|
      ensures Abs() == Resync(old(Abs()), Skip(c0, input[start..], 0))
      ensures input[i..] == Skip(c0, input[start..], 0).1
    {
      flushcount := 0;
      i := start;
      var c := c0;
      while i < |input| && c != 0x55
        invariant start <= i <= |input|
        invariant packetState == Header55 && checksum == old(checksum) && packetLength == old(packetLength)
        invariant packetLengthReceived == old(packetLengthReceived) && packetErrorCount == old(packetErrorCount)
        invariant packetData == old(packetData)
        invariant Skip(c0, input[start..], 0) == Skip(c, input[i..], flushcount)
        decreases |input| - i
      {
        assert input[i..][0] == input[i] && input[i..][1..] == input[i + 1..];
        SkipOne(c, input[i..], flushcount);
        c := input[i];
        i := i + 1;
        flushcount := U32(flushcount + 1);
      }
      SkipDone(c, input[i..], flushcount);
      if c == 0x55 {
        packetState := HeaderAA;
      }
      assert Abs() == Resync(old(Abs()), (c, input[i..], flushcount));
    }

    /**
     * The handler's switch on the byte `c` for every state but
     * WAITING_FOR_HEADER_55; `stop` is set where the handler returns.
     */
    method StepByte(c: u8) returns (stop: bool, result: PacketState)
      requires Valid() && packetState != Header55
      modifies this, packetData
      ensures Valid() && packetData == old(packetData)
      ensures Step(old(Abs()), c) == if stop then Stop(Abs(), result) else Continue(Abs())
    {
      StepKeepsInv(Abs(), c);
      stop, result := false, packetState;
      if packetState == HeaderAA {
        if c == 0xAA {
          packetState := Address;
        } else if c == 0x55 {
        } else {
          packetState := Header55;
        }
      } else if packetState == Address {
        if c == GOBLE_ADDRESS {
          packetState := Length;
        } else if c == 0x55 {
          packetState := HeaderAA;
        } else {
          packetErrorCount := U32(packetErrorCount + 1);
          packetState := Header55;
          stop, result := true, PacketError;
        }
      } else if packetState == Length {
        if c <= MAX_LENGTH_BYTE {
          checksum := U8(HEADER_CHECKSUM + c);
          packetLength := c + LENGTH_EXTRA;
          packetLengthReceived := 0;
          packetData[packetLengthReceived] := packetLength;
          packetLengthReceived := packetLengthReceived + 1;
          packetState := ReadingData;
        } else {
          packetErrorCount := U32(packetErrorCount + 1);
          packetState := Header55;
          stop, result := true, PacketError;
        }
      } else if packetState == ReadingData {
        // The abandon-on-overflow branch (received >= MAXPACKETDATA) cannot
        // be taken: Inv keeps packetLengthReceived below packetLength <= 12.
        packetData[packetLengthReceived] := c;
        packetLengthReceived := packetLengthReceived + 1;
        checksum := U8(checksum + c);
        if packetLengthReceived == packetLength {
          packetState := Checksum;
        }
      } else if packetState == Checksum {
        if checksum != c {
          packetErrorCount := U32(packetErrorCount + 1);
          packetState := Header55;
          stop, result := true, PacketError;
        } else {
          // decodePacket() is called here; its result is discarded and it
          // changes no state the receiver keeps.
          var _ := DecodePacket();
          packetState := Header55;
          stop, result := true, NewDataAvailable;
        }
      }
    }

    /**
     * `decodePacket`: for buttonsPressed from packetData[0] down to 1, look
     * at packetData[1 + buttonsPressed] and let every code other than 5 and
     * 6 overwrite the command.
     */
    method DecodePacket() returns (cmd: u8)
      requires Valid()
      ensures cmd == DecodeCommand(packetData[..])
    {
      cmd := 0;
      var buttonsPressed := packetData[0];
      while buttonsPressed != 0
        invariant 0 <= buttonsPressed <= packetData[0]
        invariant cmd == Scan(packetData[..], buttonsPressed as int + 2, packetData[0] as int + 2)
        decreases buttonsPressed
      {
        var code := packetData[1 + buttonsPressed];
        buttonsPressed := buttonsPressed - 1;
        if !Ignored(code) {
          cmd := CommandCode(code);
        }
      }
    }

    /** `checkBlueTooth`: run the handler, then report BOT_STAND whatever arrived. */
    method CheckBlueTooth(input: seq<u8>) returns (cmd: GaitCommand, rest: seq<u8>)
      requires Valid()
      modifies this, packetData
      ensures Valid()
      ensures cmd == BotStand
      ensures Abs() == Handle(old(Abs()), input).0 && rest == Handle(old(Abs()), input).2
    {
      var _, r := PacketHandler(input);
      rest := r;
      cmd := BotStand;
    }
  }
}
