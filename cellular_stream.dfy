/** The modem's byte transport: a receive ring buffer of RX_BUFFER_SIZE bytes
    filled by a pump that drains the serial line, taps every byte to an
    observer and buffers it only while the receive gate is open. */
module CellularStream {
  import opened Uint

  const RX_BUFFER_SIZE: nat := 2048

  /** Largest number of bytes the ring can hold: one slot always stays free,
      so that `head == tail` means empty. */
  const RX_CAPACITY: nat := RX_BUFFER_SIZE - 1

  // ---------------------------------------------------------------------------
  // Specification of the ring as a sequence
  // ---------------------------------------------------------------------------

  /** The occupancy computed by getBufferUsed/available from the two indices. */
  function Used(head: nat, tail: nat): (n: nat)
    requires head < RX_BUFFER_SIZE && tail < RX_BUFFER_SIZE
    ensures n == (head - tail) % RX_BUFFER_SIZE
    ensures n <= RX_CAPACITY
    ensures n == 0 <==> head == tail
  {
    if head >= tail then head - tail else RX_BUFFER_SIZE - tail + head
  }

  /** The ring holding `held` after pushByte(c): the byte is appended when a
      slot is free and dropped when the ring is full. */
  function Push(held: seq<byte>, c: byte): seq<byte>
  {
    if |held| < RX_CAPACITY then held + [c] else held
  }

  /** The ring holding `held` after each byte of `input` was offered to it. */
  function Accept(held: seq<byte>, input: seq<byte>): seq<byte>
    decreases |input|
  {
    if input == [] then held
    else Push(Accept(held, input[..|input| - 1]), input[|input| - 1])
  }

  /** How many bytes of `input` the ring dropped for lack of room. */
  function Dropped(held: seq<byte>, input: seq<byte>): (d: nat)
    ensures d <= |input|
    decreases |input|
  {
    if input == [] then 0
    else
      var before := Accept(held, input[..|input| - 1]);
      Dropped(held, input[..|input| - 1]) + (if |before| < RX_CAPACITY then 0 else 1)
  }

  /** What the ring holds after a pump of `input`, given the receive gate. */
  function Buffered(gate: bool, held: seq<byte>, input: seq<byte>): seq<byte>
  {
    if gate then Accept(held, input) else held
  }

  /** Overflow policy in closed form: the ring keeps the oldest bytes of the
      input that fit and drops all the rest; nothing already held is lost. */
  lemma {:induction false} AcceptKeepsPrefix(held: seq<byte>, input: seq<byte>)
    requires |held| <= RX_CAPACITY
    ensures var room := RX_CAPACITY - |held|;
      var kept := if |input| <= room then |input| else room;
      Accept(held, input) == held + input[..kept]
      && Dropped(held, input) == |input| - kept
    decreases |input|
  {
    if input != [] {
      var init := input[..|input| - 1];
      AcceptKeepsPrefix(held, init);
      assert init[..] == input[..|input| - 1];
      var room := RX_CAPACITY - |held|;
      if |init| < room {
        assert input[..|init|] + [input[|input| - 1]] == input[..|init| + 1];
      } else {
        assert input[..room] == init[..room];
      }
    }
  }

  /** The ring never holds more than RX_CAPACITY bytes. */
  lemma AcceptBounded(held: seq<byte>, input: seq<byte>)
    requires |held| <= RX_CAPACITY
    ensures |held| <= |Accept(held, input)| <= RX_CAPACITY
    ensures |Accept(held, input)| - |held| + Dropped(held, input) == |input|
  {
    AcceptKeepsPrefix(held, input);
  }

  // ---------------------------------------------------------------------------
  // FIFO behaviour of a sequence of pushes and reads
  // ---------------------------------------------------------------------------

  /** One producer or consumer action on the ring. */
  datatype Op = PushOp(b: byte) | ReadOp

  /** The outcome of running operations: what the ring finally holds, the
      bytes the reads returned (a read of an empty ring returns nothing), and
      the bytes the pushes stored. */
  datatype Trace = Trace(held: seq<byte>, taken: seq<byte>, stored: seq<byte>)

  function Run(held: seq<byte>, ops: seq<Op>): Trace
    decreases |ops|
  {
    if ops == [] then Trace(held, [], [])
    else
      match ops[0]
      case PushOp(b) =>
        var t := Run(Push(held, b), ops[1..]);
        Trace(t.held, t.taken, (if |held| < RX_CAPACITY then [b] else []) + t.stored)
      case ReadOp =>
        if held == [] then Run(held, ops[1..])
        else
          var t := Run(held[1..], ops[1..]);
          Trace(t.held, [held[0]] + t.taken, t.stored)
  }

  /** FIFO: the bytes handed out by the reads, followed by what is still
      buffered, are exactly the bytes held at the start followed by the
      bytes the pushes stored, in push order. */
  lemma {:induction false} RunIsFifo(held: seq<byte>, ops: seq<Op>)
    ensures Run(held, ops).taken + Run(held, ops).held == held + Run(held, ops).stored
    decreases |ops|
  {
    if ops != [] {
      match ops[0]
      case PushOp(b) =>
        RunIsFifo(Push(held, b), ops[1..]);
      case ReadOp =>
        if held != [] {
          var t := Run(held[1..], ops[1..]);
          RunIsFifo(held[1..], ops[1..]);
          calc {
            Run(held, ops).taken + Run(held, ops).held;
            ([held[0]] + t.taken) + t.held;
            [held[0]] + (t.taken + t.held);
            [held[0]] + (held[1..] + t.stored);
            ([held[0]] + held[1..]) + t.stored;
            { assert [held[0]] + held[1..] == held; }
            held + Run(held, ops).stored;
          }
        } else {
          RunIsFifo(held, ops[1..]);
        }
    }
  }

  // ---------------------------------------------------------------------------
  // What a pump changes, as a function of the bytes it drains
  // ---------------------------------------------------------------------------

  /** The part of the stream a pump changes: the bytes buffered, the bytes
      handed to the byte callback, and the three counters. */
  datatype View = View(held: seq<byte>, tapped: seq<byte>, tapBytes: u32, overflows: u32, received: u32)

  /** One pass of the pump loop on byte `c`: it is always counted, buffered
      only while the gate is open (or counted as an overflow when the ring is
      full), and handed to the callback when one is registered. */
  function Offer(v: View, gate: bool, tap: bool, c: byte): (w: View)
    ensures |w.held| <= |v.held| + 1 && |w.tapped| <= |v.tapped| + 1
  {
    var full := gate && |v.held| >= RX_CAPACITY;
    View(if gate then Push(v.held, c) else v.held,
         if tap then v.tapped + [c] else v.tapped,
         Add32(v.tapBytes, 1),
         if full then Add32(v.overflows, 1) else v.overflows,
         if gate && !full then Add32(v.received, 1) else v.received)
  }

  /** The pump loop over `input`, one byte after the other. */
  function OfferAll(v: View, gate: bool, tap: bool, input: seq<byte>): View
    decreases |input|
  {
    if input == [] then v
    else Offer(OfferAll(v, gate, tap, input[..|input| - 1]), gate, tap, input[|input| - 1])
  }

  /** The outcome of a pump in closed form: every byte is counted and
      tapped; with the gate open the ring accepts what fits, and each byte
      is counted as either received or overflowed. */
  function Pumped(v: View, gate: bool, tap: bool, input: seq<byte>): View
  {
    var dropped := if gate then Dropped(v.held, input) else 0;
    View(Buffered(gate, v.held, input),
         if tap then v.tapped + input else v.tapped,
         Add32(v.tapBytes, |input|),
         Add32(v.overflows, dropped),
         Add32(v.received, if gate then |input| - dropped else 0))
  }

  /** One more byte offered to the ring: pushed, or dropped and counted. */
  lemma AcceptStep(held: seq<byte>, init: seq<byte>, c: byte)
    ensures Accept(held, init + [c]) == Push(Accept(held, init), c)
    ensures Dropped(held, init + [c])
         == Dropped(held, init) + (if |Accept(held, init)| < RX_CAPACITY then 0 else 1)
  {
    var input := init + [c];
    assert input[..|input| - 1] == init && input[|input| - 1] == c;
  }

  /** One more byte: the closed form advances by one pump pass. */
  lemma PumpedStep(v: View, gate: bool, tap: bool, init: seq<byte>, c: byte)
    ensures Offer(Pumped(v, gate, tap, init), gate, tap, c) == Pumped(v, gate, tap, init + [c])
  {
    var input := init + [c];
    var p := Pumped(v, gate, tap, init);
    var w := Offer(p, gate, tap, c);
    var q := Pumped(v, gate, tap, input);
    Add32Assoc(v.tapBytes, |init|, 1);
    assert w.tapBytes == q.tapBytes;
    assert w.tapped == q.tapped by {
      if tap { assert v.tapped + init + [c] == v.tapped + input; }
    }
    if gate {
      PumpedStepOpen(v, tap, init, c);
    } else {
      assert w.held == q.held && w.overflows == q.overflows && w.received == q.received;
    }
  }

  /** The buffering half of PumpedStep, with the gate open. */
  lemma PumpedStepOpen(v: View, tap: bool, init: seq<byte>, c: byte)
    ensures var w := Offer(Pumped(v, true, tap, init), true, tap, c);
      var q := Pumped(v, true, tap, init + [c]);
      w.held == q.held && w.overflows == q.overflows && w.received == q.received
  {
    AcceptStep(v.held, init, c);
    var d := Dropped(v.held, init);
    Add32Assoc(v.overflows, d, 1);
    Add32Assoc(v.received, |init| - d, 1);
  }

  /** The pump loop computes the closed form. */
  lemma {:induction false} OfferAllIsPumped(v: View, gate: bool, tap: bool, input: seq<byte>)
    ensures OfferAll(v, gate, tap, input) == Pumped(v, gate, tap, input)
    decreases |input|
  {
    if input == [] {
      assert v.tapped + input == v.tapped;
    } else {
      var init := input[..|input| - 1];
      var c := input[|input| - 1];
      OfferAllIsPumped(v, gate, tap, init);
      assert init + [c] == input;
      PumpedStep(v, gate, tap, init, c);
    }
  }

  // ---------------------------------------------------------------------------
  // The ring as an array with two indices
  // ---------------------------------------------------------------------------

  /** The bytes a ring buffer `buf` holds between `tail` (oldest) and
      `head` (next free slot), wrapping at the end of the buffer. */
  function Ring(buf: seq<byte>, head: nat, tail: nat): (r: seq<byte>)
    requires |buf| == RX_BUFFER_SIZE && head < RX_BUFFER_SIZE && tail < RX_BUFFER_SIZE
    ensures |r| == Used(head, tail)
  {
    if head >= tail then buf[tail..head] else buf[tail..] + buf[..head]
  }

  /** pushByte's full test: the slot after the head is the tail exactly
      when the ring holds RX_CAPACITY bytes. */
  lemma FullIff(head: nat, tail: nat)
    requires head < RX_BUFFER_SIZE && tail < RX_BUFFER_SIZE
    ensures (head + 1) % RX_BUFFER_SIZE == tail <==> Used(head, tail) == RX_CAPACITY
  {
  }

  /** Writing at the head and advancing it appends one byte. */
  lemma RingPush(buf: seq<byte>, head: nat, tail: nat, c: byte)
    requires |buf| == RX_BUFFER_SIZE && head < RX_BUFFER_SIZE && tail < RX_BUFFER_SIZE
    requires (head + 1) % RX_BUFFER_SIZE != tail
    ensures Ring(buf[head := c], (head + 1) % RX_BUFFER_SIZE, tail) == Ring(buf, head, tail) + [c]
  {
    var buf' := buf[head := c];
    var next := (head + 1) % RX_BUFFER_SIZE;
    if head >= tail {
      assert buf'[tail..head + 1] == buf[tail..head] + [c] by {
        assert buf'[tail..head] == buf[tail..head];
      }
      if head + 1 == RX_BUFFER_SIZE {
        assert next == 0;
        assert buf'[tail..] == buf'[tail..head + 1];
        assert Ring(buf', next, tail) == buf'[tail..] + buf'[..0];
      } else {
        assert Ring(buf', next, tail) == buf'[tail..head + 1];
      }
    } else {
      assert next == head + 1 < tail;
      assert buf'[tail..] == buf[tail..];
      assert buf'[..head + 1] == buf[..head] + [c] by {
        assert buf'[..head] == buf[..head];
      }
      assert Ring(buf', next, tail) == buf'[tail..] + buf'[..head + 1];
    }
  }

  /** Advancing the tail of a non-empty ring takes its oldest byte, the one
      at the tail. */
  lemma RingPop(buf: seq<byte>, head: nat, tail: nat)
    requires |buf| == RX_BUFFER_SIZE && head < RX_BUFFER_SIZE && tail < RX_BUFFER_SIZE
    requires head != tail
    ensures Ring(buf, head, tail)[0] == buf[tail]
    ensures Ring(buf, head, (tail + 1) % RX_BUFFER_SIZE) == Ring(buf, head, tail)[1..]
  {
    var r := Ring(buf, head, tail);
    if head > tail {
      assert r == buf[tail..head];
      assert buf[tail + 1..head] == r[1..];
    } else if tail + 1 < RX_BUFFER_SIZE {
      assert r == buf[tail..] + buf[..head];
      assert buf[tail + 1..] == buf[tail..][1..];
      assert r[1..] == buf[tail + 1..] + buf[..head];
    } else {
      assert buf[tail..] == [buf[tail]];
      assert r == [buf[tail]] + buf[..head];
      assert buf[0..head] == buf[..head];
    }
  }

  // ---------------------------------------------------------------------------
  // The stream object
  // ---------------------------------------------------------------------------

  class Stream {
    const rxBuffer: array<byte>
    var rxHead: nat
    var rxTail: nat
    var rxBufferingEnabled: bool
    /** Whether a byte callback is registered (setByteCallback). */
    var tapRegistered: bool
    /** Every byte handed to the byte callback so far, in arrival order. */
    var tapped: seq<byte>
    var rxOverflows: u32
    var rxBytesReceived: u32
    var statsTapBytes: u32
    /** The bytes waiting to be read, oldest first. */
    ghost var contents: seq<byte>

    ghost predicate Valid()
      reads this, rxBuffer
    {
      && rxBuffer.Length == RX_BUFFER_SIZE && rxHead < RX_BUFFER_SIZE && rxTail < RX_BUFFER_SIZE
      && contents == Ring(rxBuffer[..], rxHead, rxTail)
    }

    /** The part of the stream a pump changes. */
    ghost function Snap(): View
      reads this
    {
      View(contents, tapped, statsTapBytes, rxOverflows, rxBytesReceived)
    }

    constructor ()
      ensures Valid() && fresh(rxBuffer)
      ensures contents == [] && rxHead == 0 && rxTail == 0
      ensures rxBufferingEnabled && !tapRegistered && tapped == []
      ensures rxOverflows == 0 && rxBytesReceived == 0 && statsTapBytes == 0
    {
      rxBuffer := new byte[RX_BUFFER_SIZE];
      rxHead, rxTail := 0, 0;
      rxBufferingEnabled := true;
      tapRegistered := false;
      tapped := [];
      rxOverflows, rxBytesReceived, statsTapBytes := 0, 0, 0;
      contents := [];
    }

    method SetByteCallback(registered: bool)
      modifies this`tapRegistered
      ensures tapRegistered == registered
    {
      tapRegistered := registered;
    }

    method SetRxBufferingEnabled(enabled: bool)
      modifies this`rxBufferingEnabled
      ensures rxBufferingEnabled == enabled
    {
      rxBufferingEnabled := enabled;
    }

    /** pushByte: store `c` at the head unless the ring is full. */
    method PushByte(c: byte)
      requires Valid()
      modifies this`rxHead, this`contents, this`rxOverflows, this`rxBytesReceived, rxBuffer
      ensures Valid()
      ensures contents == Push(old(contents), c)
      ensures var full := (old(rxHead) + 1) % RX_BUFFER_SIZE == rxTail;
        && (full <==> |old(contents)| == RX_CAPACITY)
        && (full ==> && rxHead == old(rxHead) && rxBuffer[..] == old(rxBuffer[..])
                     && rxOverflows == Add32(old(rxOverflows), 1)
                     && rxBytesReceived == old(rxBytesReceived))
        && (!full ==> && rxHead == (old(rxHead) + 1) % RX_BUFFER_SIZE
                      && rxBuffer[..] == old(rxBuffer[..])[old(rxHead) := c]
                      && rxOverflows == old(rxOverflows)
                      && rxBytesReceived == Add32(old(rxBytesReceived), 1))
    {
      FullIff(rxHead, rxTail);
      var nextHead := (rxHead + 1) % RX_BUFFER_SIZE;
      if nextHead == rxTail {
        rxOverflows := Add32(rxOverflows, 1);
        return;
      }
      RingPush(rxBuffer[..], rxHead, rxTail, c);
      rxBuffer[rxHead] := c;
      rxHead := nextHead;
      contents := contents + [c];
      rxBytesReceived := Add32(rxBytesReceived, 1);
    }

    /** One iteration of the pump loop: count the byte, buffer it if the
        gate is open, hand it to the byte callback if one is registered. */
    method PumpOne(c: byte)
      requires Valid()
      modifies this`rxHead, this`contents, this`rxOverflows, this`rxBytesReceived, this`statsTapBytes, this`tapped, rxBuffer
      ensures Valid() && Snap() == Offer(old(Snap()), rxBufferingEnabled, tapRegistered, c)
    {
      statsTapBytes := Add32(statsTapBytes, 1);
      if rxBufferingEnabled {
        PushByte(c);
      }
      if tapRegistered {
        tapped := tapped + [c];
      }
    }

    /** pumpSerial1/pump: drain every byte the serial line has available. */
    method Pump(input: seq<byte>)
      requires Valid()
      modifies this, rxBuffer
      ensures Valid() && rxTail == old(rxTail)
      ensures rxBufferingEnabled == old(rxBufferingEnabled) && tapRegistered == old(tapRegistered)
      ensures Snap() == Pumped(old(Snap()), rxBufferingEnabled, tapRegistered, input)
    {
      var i := 0;
      while i < |input|
        invariant 0 <= i <= |input| && Valid() && rxTail == old(rxTail)
        invariant rxBufferingEnabled == old(rxBufferingEnabled) && tapRegistered == old(tapRegistered)
        invariant Snap() == OfferAll(old(Snap()), rxBufferingEnabled, tapRegistered, input[..i])
      {
        assert input[..i + 1][..i] == input[..i];
        PumpOne(input[i]);
        i := i + 1;
      }
      assert input[..i] == input;
      OfferAllIsPumped(old(Snap()), rxBufferingEnabled, tapRegistered, input);
    }

    /** getBufferUsed: the number of bytes waiting, without pumping. */
    function GetBufferUsed(): (n: nat)
      reads this, rxBuffer
      requires Valid()
      ensures n == |contents| && n <= RX_CAPACITY
    {
      Used(rxHead, rxTail)
    }

    /** available: pump, then report how many bytes are waiting. */
    method Available(input: seq<byte>) returns (n: int)
      requires Valid()
      modifies this, rxBuffer
      ensures Valid() && rxTail == old(rxTail)
      ensures rxBufferingEnabled == old(rxBufferingEnabled) && tapRegistered == old(tapRegistered)
      ensures Snap() == Pumped(old(Snap()), rxBufferingEnabled, tapRegistered, input)
      ensures n == |contents| && 0 <= n <= RX_CAPACITY
    {
      Pump(input);
      n := Used(rxHead, rxTail);
    }

    /** read: pump, then take the oldest byte, or -1 when nothing waits. */
    method Read(input: seq<byte>) returns (r: int)
      requires Valid()
      modifies this, rxBuffer
      ensures Valid()
      ensures rxBufferingEnabled == old(rxBufferingEnabled) && tapRegistered == old(tapRegistered)
      ensures var v := Pumped(old(Snap()), rxBufferingEnabled, tapRegistered, input);
        if v.held == [] then r == -1 && rxTail == old(rxTail) && Snap() == v
        else r == v.held[0] && rxTail == (old(rxTail) + 1) % RX_BUFFER_SIZE && Snap() == v.(held := v.held[1..])
    {
      Pump(input);
      if rxTail == rxHead {
        return -1;
      }
      RingPop(rxBuffer[..], rxHead, rxTail);
      r := rxBuffer[rxTail];
      rxTail := (rxTail + 1) % RX_BUFFER_SIZE;
      contents := contents[1..];
    }

    /** peek: pump, then return the oldest byte without taking it, or -1. */
    method Peek(input: seq<byte>) returns (r: int)
      requires Valid()
      modifies this, rxBuffer
      ensures Valid() && rxTail == old(rxTail)
      ensures rxBufferingEnabled == old(rxBufferingEnabled) && tapRegistered == old(tapRegistered)
      ensures var v := Pumped(old(Snap()), rxBufferingEnabled, tapRegistered, input);
        Snap() == v && r == (if v.held == [] then -1 else v.held[0])
    {
      Pump(input);
      if rxTail == rxHead {
        return -1;
      }
      RingPop(rxBuffer[..], rxHead, rxTail);
      r := rxBuffer[rxTail];
    }

    /** With no new serial input a peek returns what the next read returns. */
    method PeekThenRead() returns (p: int, r: int)
      requires Valid()
      modifies this, rxBuffer
      ensures Valid() && p == r
      ensures p == -1 <==> old(contents) == []
    {
      p := Peek([]);
      r := Read([]);
    }
  }
}
