/** The controller object: a packet counter, a FIFO of packet lines waiting
    for the serial port, the `_sending` and `_opened` flags, and the events it
    emits. The serial port, the event emitter and the timers are replaced by a
    log of writes, a log of events, counts of pending timers and callbacks,
    and methods that the environment calls when a timer fires or the port
    reports something. */
module Controller {
  import opened Hex
  import opened Bits
  import opened Brightness
  import opened Hue
  import opened Packets
  import opened Decoder

  /** The payload of the "Sending" event emitted when the queue runs dry. */
  const QUEUE_FINISHED: string := "Queue Finished"

  /** The line written to the bridge once its warm-up delay is over. */
  const INIT_LINE: string := "xr\r\n"

  /** An event the controller emits to its listeners. */
  datatype Emitted = Sending(payload: string) | ReceivedEvent(status: Received)

  /** The packet lines among the emitted events, in order: the payloads of the
      "Sending" events other than the end-of-queue marker. */
  function SentPackets(es: seq<Emitted>): seq<string>
  {
    if es == [] then []
    else
      var last := es[|es| - 1];
      SentPackets(es[..|es| - 1])
      + (if last.Sending? && last.payload != QUEUE_FINISHED then [last.payload] else [])
  }

  /** The packet lines among the writes to the port: every write but the
      initialisation line. */
  function PacketWrites(ws: seq<string>): seq<string>
  {
    if ws == [] then []
    else PacketWrites(ws[..|ws| - 1]) + (if ws[|ws| - 1] != INIT_LINE then [ws[|ws| - 1]] else [])
  }

  /** lines holds, in order, the lines of the packets ps. */
  ghost predicate LinesOf(ps: seq<Packet>, lines: seq<string>) {
    |lines| == |ps| && forall k :: 0 <= k < |ps| ==> lines[k] == ps[k].Text()
  }

  /** n copies of one event. */
  function Copies(e: Emitted, n: nat): (es: seq<Emitted>)
    ensures |es| == n
    ensures forall i :: 0 <= i < n ==> es[i] == e
  {
    if n == 0 then [] else Copies(e, n - 1) + [e]
  }

  /** Events appended after others contribute their packet lines after those
      of the earlier events. */
  lemma {:induction false} SentPacketsAppend(a: seq<Emitted>, b: seq<Emitted>)
    ensures SentPackets(a + b) == SentPackets(a) + SentPackets(b)
    decreases |b|
  {
    if b != [] {
      assert (a + b)[..|a + b| - 1] == a + b[..|b| - 1];
      SentPacketsAppend(a, b[..|b| - 1]);
    } else {
      assert a + b == a;
    }
  }

  /** A "Sending" event for a packet line adds exactly that line; the
      end-of-queue marker and received events add nothing. */
  lemma SentPacketsSnoc(es: seq<Emitted>, e: Emitted)
    ensures e.Sending? && e.payload != QUEUE_FINISHED ==> SentPackets(es + [e]) == SentPackets(es) + [e.payload]
    ensures !(e.Sending? && e.payload != QUEUE_FINISHED) ==> SentPackets(es + [e]) == SentPackets(es)
  {
    assert (es + [e])[..|es|] == es;
  }

  /** Received events carry no packet lines. */
  lemma {:induction false} SentPacketsReceived(r: Received, n: nat)
    ensures SentPackets(Copies(ReceivedEvent(r), n)) == []
  {
    if n > 0 {
      SentPacketsReceived(r, n - 1);
      SentPacketsSnoc(Copies(ReceivedEvent(r), n - 1), ReceivedEvent(r));
    }
  }

  /** A write of a packet line adds exactly that line; the initialisation
      line adds nothing. */
  lemma PacketWritesSnoc(ws: seq<string>, w: string)
    ensures w != INIT_LINE ==> PacketWrites(ws + [w]) == PacketWrites(ws) + [w]
    ensures w == INIT_LINE ==> PacketWrites(ws + [w]) == PacketWrites(ws)
  {
    assert (ws + [w])[..|ws|] == ws;
  }

  /** A line as `_queueData` builds it starts with "B". */
  predicate IsPacketLine(s: string) {
    |s| > 0 && s[0] == 'B'
  }

  /** Packet lines are never the end-of-queue marker nor the initialisation
      line, so the filters above keep exactly them. */
  lemma PacketLineDistinct(s: string)
    requires IsPacketLine(s)
    ensures s != QUEUE_FINISHED && s != INIT_LINE
  {
    assert QUEUE_FINISHED[0] == 'Q' && INIT_LINE[0] == 'x';
  }

  /** The k-th accepted packet (from 0) carries counter k + 1. */
  ghost predicate Numbered(accepted: seq<Packet>) {
    forall k :: 0 <= k < |accepted| ==> accepted[k].counter == k + 1
  }

  /** Accepting a packet that carries the next counter keeps the numbering. */
  lemma NumberedPush(accepted: seq<Packet>, p: Packet)
    requires Numbered(accepted) && p.counter == |accepted| + 1
    ensures Numbered(accepted + [p])
  {
    assert forall k :: 0 <= k < |accepted| ==> (accepted + [p])[k] == accepted[k];
  }

  /** The queue discipline, on values: the lines of the accepted packets are
      the packet lines already emitted followed by the queue; the port was
      written the same packet lines as were emitted; the queue holds only
      packet lines. */
  ghost predicate Fifo(accepted: seq<Packet>, events: seq<Emitted>, queue: seq<string>, writes: seq<string>)
  {
    && LinesOf(accepted, SentPackets(events) + queue)
    && PacketWrites(writes) == SentPackets(events)
    && (forall i :: 0 <= i < |queue| ==> IsPacketLine(queue[i]))
  }

  /** Taking the head off the queue, emitting it and writing it keeps the
      discipline, and the emitted packet lines grow by exactly that head. */
  lemma FifoShift(accepted: seq<Packet>, events: seq<Emitted>, queue: seq<string>, writes: seq<string>)
    requires Fifo(accepted, events, queue, writes) && queue != []
    ensures Fifo(accepted, events + [Sending(queue[0])], queue[1..], writes + [queue[0]])
    ensures SentPackets(events + [Sending(queue[0])]) == SentPackets(events) + [queue[0]]
  {
    PacketLineDistinct(queue[0]);
    SentPacketsSnoc(events, Sending(queue[0]));
    PacketWritesSnoc(writes, queue[0]);
    MoveHead(SentPackets(events), queue);
  }

  /** Moving the head of the queue to the end of the sent lines keeps their
      concatenation, and the rest of the queue still holds packet lines. */
  lemma MoveHead(sent: seq<string>, queue: seq<string>)
    requires queue != [] && forall i :: 0 <= i < |queue| ==> IsPacketLine(queue[i])
    ensures sent + queue == (sent + [queue[0]]) + queue[1..]
    ensures forall i :: 0 <= i < |queue| - 1 ==> IsPacketLine(queue[1..][i])
  {
    assert queue == [queue[0]] + queue[1..];
  }

  /** Emitting the end-of-queue marker on an empty queue keeps the discipline
      and emits no packet line. */
  lemma FifoFinish(accepted: seq<Packet>, events: seq<Emitted>, writes: seq<string>)
    requires Fifo(accepted, events, [], writes)
    ensures Fifo(accepted, events + [Sending(QUEUE_FINISHED)], [], writes)
    ensures SentPackets(events + [Sending(QUEUE_FINISHED)]) == SentPackets(events)
  {
    SentPacketsSnoc(events, Sending(QUEUE_FINISHED));
  }

  /** Accepting a packet and appending its line to the queue keeps the
      discipline. */
  lemma FifoPush(accepted: seq<Packet>, events: seq<Emitted>, queue: seq<string>, writes: seq<string>, p: Packet)
    requires Fifo(accepted, events, queue, writes)
    ensures Fifo(accepted + [p], events, queue + [p.Text()], writes)
  {
    PushLine(SentPackets(events), queue, p.Text());
    var lines := SentPackets(events) + queue;
    assert forall k :: 0 <= k < |accepted| ==> (lines + [p.Text()])[k] == lines[k];
    assert forall k :: 0 <= k < |accepted| ==> (accepted + [p])[k] == accepted[k];
  }

  /** Appending a packet line to the queue appends it to the sent lines
      followed by the queue, and the queue still holds packet lines. */
  lemma PushLine(sent: seq<string>, queue: seq<string>, line: string)
    requires forall i :: 0 <= i < |queue| ==> IsPacketLine(queue[i])
    requires |line| > 0 && line[0] == 'B'
    ensures (sent + queue) + [line] == sent + (queue + [line])
    ensures forall i :: 0 <= i < |queue| + 1 ==> IsPacketLine((queue + [line])[i])
  {
    assert forall i :: 0 <= i < |queue| ==> (queue + [line])[i] == queue[i];
  }

  /** Writing the initialisation line keeps the discipline. */
  lemma FifoInitLine(accepted: seq<Packet>, events: seq<Emitted>, queue: seq<string>, writes: seq<string>)
    requires Fifo(accepted, events, queue, writes)
    ensures Fifo(accepted, events, queue, writes + [INIT_LINE])
  {
    PacketWritesSnoc(writes, INIT_LINE);
  }

  /** Emitting received events keeps the discipline and emits no packet line. */
  lemma FifoReceived(accepted: seq<Packet>, events: seq<Emitted>, queue: seq<string>, writes: seq<string>,
                     r: Received, n: nat)
    requires Fifo(accepted, events, queue, writes)
    ensures Fifo(accepted, events + Copies(ReceivedEvent(r), n), queue, writes)
    ensures SentPackets(events + Copies(ReceivedEvent(r), n)) == SentPackets(events)
  {
    SentPacketsAppend(events, Copies(ReceivedEvent(r), n));
    SentPacketsReceived(r, n);
  }

  class MilightController {
    /** `_counter`: the number of packets accepted so far. */
    var counter: int
    /** `_packets`: the packet lines waiting to be written, head first. */
    var packets: seq<string>
    /** `_sending`: a drain of the queue is in progress. */
    var sending: bool
    /** `_opened`: the bridge has been initialised. */
    var isOpened: bool
    /** The events emitted on the controller, oldest first. */
    var events: seq<Emitted>
    /** The lines written to the serial port, oldest first. */
    var writes: seq<string>
    /** The global variable `_counter` that the overflow branch assigns. */
    var globalCounter: Option<int>
    /** Listeners that `open` registered for the port's "open" event. */
    var openListeners: nat
    /** Line parsers piped from the port, one per "open" listener that ran. */
    var parsers: nat
    /** Pending 5000 ms warm-up timers. */
    var warmupTimers: nat
    /** Writes of the initialisation line whose completion callback is pending. */
    var initWrites: nat
    /** Pending 100 ms timers of the drain loop. */
    var sendTimers: nat
    /** The packets accepted so far, in order. */
    ghost var accepted: seq<Packet>

    /** What holds between any two handler runs: the counter counts the
        accepted packets and numbers them 1, 2, ...; the accepted packets'
        lines are those already sent followed by those still queued, so the
        queue is first in, first out and loses nothing; the port received
        the same packet lines as the "Sending" events; exactly one drain timer
        is pending while a drain is in progress; nothing is sent before the
        bridge is initialised. */
    ghost predicate Consistent()
      reads this
    {
      && counter == |accepted|
      && Numbered(accepted)
      && Fifo(accepted, events, packets, writes)
      && sendTimers == (if sending then 1 else 0)
      && (sending ==> isOpened)
      && (!isOpened ==> SentPackets(events) == [])
    }

    /** Consistent, and an initialised controller that is not draining has an
        empty queue. */
    ghost predicate Valid()
      reads this
    {
      Consistent() && (isOpened && !sending ==> packets == [])
    }

    /** Nothing the queue and the port handshake keep has changed. */
    twostate predicate Unchanged()
      reads this
    {
      && counter == old(counter) && isOpened == old(isOpened) && accepted == old(accepted)
      && QueueUnchanged() && Wiring()
    }

    /** The queue, the drain flag, the drain timers and both logs are unchanged. */
    twostate predicate QueueUnchanged()
      reads this
    {
      && packets == old(packets) && sending == old(sending) && sendTimers == old(sendTimers)
      && events == old(events) && writes == old(writes)
    }

    /** A drain started and ran its first handler step: the head of a
        non-empty queue was emitted and written and a drain timer is pending;
        an empty queue emitted the end-of-queue marker and the drain ended. */
    twostate predicate DrainStarted()
      reads this
    {
      && sending == (old(packets) != [])
      && (old(packets) != [] ==>
            && packets == old(packets)[1..] && sendTimers == 1
            && events == old(events) + [Sending(old(packets)[0])]
            && writes == old(writes) + [old(packets)[0]])
      && (old(packets) == [] ==>
            && packets == [] && sendTimers == 0
            && events == old(events) + [Sending(QUEUE_FINISHED)] && writes == old(writes))
    }

    /** The listener, parser, warm-up and callback counts are unchanged. */
    twostate predicate Wiring()
      reads this
    {
      && openListeners == old(openListeners) && parsers == old(parsers)
      && warmupTimers == old(warmupTimers) && initWrites == old(initWrites)
    }

    /** The overflow branch of `_queueData` assigns the global `_counter`, not
        the controller's: the controller's counter is never reset. */
    twostate predicate CounterCheck()
      reads this
    {
      globalCounter == if old(counter) > 255 then Some(0) else old(globalCounter)
    }

    /** One `_queueData` call accepted packet p: the counter went up by one,
        p carries the new counter, and its line was appended to the queue.
        If the controller was initialised and idle, the drain started at
        once: the line was emitted and written, the queue is empty again and
        one drain timer is pending; otherwise the line waits in the queue. */
    twostate predicate Queued(p: Packet)
      reads this
    {
      && counter == old(counter) + 1 && p.counter == counter
      && accepted == old(accepted) + [p]
      && isOpened == old(isOpened) && Wiring()
      && if old(isOpened) && !old(sending) then
           && packets == [] && sending && sendTimers == 1
           && events == old(events) + [Sending(p.Text())]
           && writes == old(writes) + [p.Text()]
         else
           && packets == old(packets) + [p.Text()] && sending == old(sending)
           && sendTimers == old(sendTimers)
           && events == old(events) && writes == old(writes)
    }

    /** The state right after construction: nothing queued, not isOpened. */
    constructor ()
      ensures Valid()
      ensures counter == 0 && packets == [] && !sending && !isOpened
      ensures events == [] && writes == [] && globalCounter == None
      ensures openListeners == 0 && parsers == 0 && warmupTimers == 0
      ensures initWrites == 0 && sendTimers == 0 && accepted == []
    {
      counter := 0;
      packets := [];
      sending := false;
      isOpened := false;
      events := [];
      writes := [];
      globalCounter := None;
      openListeners := 0;
      parsers := 0;
      warmupTimers := 0;
      initWrites := 0;
      sendTimers := 0;
      accepted := [];
    }

    /** The "sendData" handler: a non-empty queue loses its head, which is
        emitted, written and followed by a 100 ms timer; an empty queue emits
        the end-of-queue marker and ends the drain. */
    method HandleSendData()
      modifies this
      ensures old(packets) != [] ==>
        && packets == old(packets)[1..]
        && events == old(events) + [Sending(old(packets)[0])]
        && writes == old(writes) + [old(packets)[0]]
        && sendTimers == old(sendTimers) + 1 && sending == old(sending)
      ensures old(packets) == [] ==>
        && packets == [] && events == old(events) + [Sending(QUEUE_FINISHED)]
        && writes == old(writes) && sendTimers == old(sendTimers) && !sending
      ensures counter == old(counter) && isOpened == old(isOpened) && accepted == old(accepted)
      ensures globalCounter == old(globalCounter) && Wiring()
    {
      if |packets| > 0 {
        var packet := packets[0];
        packets := packets[1..];
        events := events + [Sending(packet)];
        writes := writes + [packet];
        sendTimers := sendTimers + 1;
      } else {
        events := events + [Sending(QUEUE_FINISHED)];
        sending := false;
      }
    }

    /** The 100 ms timer of the drain loop fires and runs the handler again.
        The head of the queue, if any, is emitted and written; the rest stays
        in order. */
    method Step()
      requires Valid() && sendTimers > 0
      modifies this
      ensures Valid()
      ensures old(packets) != [] ==>
        && packets == old(packets)[1..] && sending && sendTimers == 1
        && events == old(events) + [Sending(old(packets)[0])]
        && writes == old(writes) + [old(packets)[0]]
      ensures old(packets) == [] ==>
        && packets == [] && !sending && sendTimers == 0
        && events == old(events) + [Sending(QUEUE_FINISHED)] && writes == old(writes)
      ensures counter == old(counter) && isOpened == old(isOpened) && accepted == old(accepted)
      ensures globalCounter == old(globalCounter) && Wiring()
    {
      sendTimers := sendTimers - 1;
      if packets != [] {
        FifoShift(accepted, events, packets, writes);
      } else {
        FifoFinish(accepted, events, writes);
      }
      HandleSendData();
    }

    /** `_sendData`: start a drain only when none is in progress and the
        bridge is initialised; the drain runs its first handler step at once. */
    method SendData()
      requires Consistent()
      modifies this
      ensures Valid()
      ensures old(!sending && isOpened) ==> DrainStarted()
      ensures !old(!sending && isOpened) ==> QueueUnchanged()
      ensures counter == old(counter) && isOpened == old(isOpened) && accepted == old(accepted)
      ensures globalCounter == old(globalCounter) && Wiring()
    {
      if !sending && isOpened {
        sending := true;
        if packets != [] {
          FifoShift(accepted, events, packets, writes);
        } else {
          FifoFinish(accepted, events, writes);
        }
        HandleSendData();
      }
    }

    /** `_queueData`: a zone above 4 is refused after the overflow check and
        before the increment, so it changes nothing but the global; otherwise
        the counter goes up, the packet line with `brightness | zone` and the
        new counter joins the queue, and `_sendData` runs. */
    method QueueData(id: string, zone: int, disco: nat, color: string, brightness: int,
                     button: Field, repeats: int)
      requires Valid()
      modifies this
      ensures Valid() && CounterCheck()
      ensures zone > 4 ==> Unchanged()
      ensures zone <= 4 ==>
        Queued(Packet(disco, id, color, Int32Or(brightness, zone), button, old(counter) + 1, repeats))
    {
      if counter > 255 {
        globalCounter := Some(0);
      }
      if zone > 4 {
        return;
      }
      var p := Packet(disco, id, color, Int32Or(brightness, zone), button, counter + 1, repeats);
      var packet := BuildLine(p);
      Enqueue(p, packet);
    }

    /** The tail of an accepted `_queueData` call: the counter goes up, the
        line is pushed onto the queue and `_sendData` runs. */
    method Enqueue(p: Packet, packet: string)
      requires Valid() && p.counter == counter + 1 && packet == p.Text()
      modifies this
      ensures Valid() && globalCounter == old(globalCounter) && Queued(p)
    {
      FifoPush(accepted, events, packets, writes, p);
      NumberedPush(accepted, p);
      counter := counter + 1;
      accepted := accepted + [p];
      packets := packets + [packet];
      SendData();
    }

    /** `setColor` for a hue degree: the colour field is the wheel position in
        hex, brightness 0 (the string "00") or-ed with the zone, the literal
        button "0F", 30 repeats. */
    method SetColor(id: string, zone: int, hue: int)
      requires Valid() && 0 <= hue <= 360
      modifies this
      ensures Valid() && CounterCheck()
      ensures zone > 4 ==> Unchanged()
      ensures zone <= 4 ==>
        Queued(Packet(0, id, NumHex(HsvToMilightColor(hue)), Int32Or(0, zone), Literal("0F"),
                      old(counter) + 1, 30))
    {
      QueueData(id, zone, 0, NumHex(HsvToMilightColor(hue)), 0, Literal("0F"), 30);
    }

    /** `setBrightness`: colour "00", the brightness code or-ed with the zone,
        the literal button "0E", 30 repeats. */
    method SetBrightness(id: string, zone: int, percent: int)
      requires Valid() && percent <= 100
      modifies this
      ensures Valid() && CounterCheck()
      ensures zone > 4 ==> Unchanged()
      ensures zone <= 4 ==>
        Queued(Packet(0, id, "00", Int32Or(PercentToMilightBrightness(percent), zone),
                      Literal("0E"), old(counter) + 1, 30))
    {
      QueueData(id, zone, 0, "00", PercentToMilightBrightness(percent), Literal("0E"), 30);
    }

    /** `sendButton`: a long press sets bit 4 of the button code; colour "00",
        brightness 0 or-ed with the zone, 40 repeats. */
    method SendButton(id: string, zone: int, button: int, longPress: bool)
      requires Valid()
      modifies this
      ensures Valid() && CounterCheck()
      ensures zone > 4 ==> Unchanged()
      ensures zone <= 4 ==>
        Queued(Packet(0, id, "00", Int32Or(0, zone),
                      Num(if longPress then Int32Or(button, 0x10) else button),
                      old(counter) + 1, 40))
    {
      var code := button;
      if longPress {
        code := Int32Or(button, 0x10);
      }
      QueueData(id, zone, 0, "00", 0, Num(code), 40);
    }

    /** `sendDiscomode`: a mode outside 0..8 is refused before anything else
        happens; a mode inside is not encoded at all, the packet is the plain
        disco button 0x0D with disco field 0. */
    method SendDiscomode(id: string, zone: int, discomode: int)
      requires Valid()
      modifies this
      ensures Valid()
      ensures (discomode < 0 || discomode > 8) ==> Unchanged() && globalCounter == old(globalCounter)
      ensures 0 <= discomode <= 8 ==> CounterCheck()
      ensures 0 <= discomode <= 8 && zone > 4 ==> Unchanged()
      ensures 0 <= discomode <= 8 && zone <= 4 ==>
        Queued(Packet(0, id, "00", Int32Or(0, zone), Num(0x0D), old(counter) + 1, 40))
    {
      if discomode < 0 || discomode > 8 {
        return;
      }
      QueueData(id, zone, 0, "00", 0, Num(0x0D), 40);
    }

    /** `open`: registers one more listener for the port's "open" event. */
    method Open()
      modifies this`openListeners
      ensures openListeners == old(openListeners) + 1
    {
      openListeners := openListeners + 1;
    }

    /** The port reports "open": every registered listener pipes a line parser
        and starts a 5000 ms warm-up timer. */
    method PortOpened()
      modifies this`parsers, this`warmupTimers
      ensures parsers == old(parsers) + openListeners
      ensures warmupTimers == old(warmupTimers) + openListeners
    {
      parsers := parsers + openListeners;
      warmupTimers := warmupTimers + openListeners;
    }

    /** A warm-up timer fires: the initialisation line is written, and its
        completion callback is pending. */
    method WarmupElapsed()
      requires Valid() && warmupTimers > 0
      modifies this`warmupTimers, this`writes, this`initWrites
      ensures Valid()
      ensures warmupTimers == old(warmupTimers) - 1
      ensures writes == old(writes) + [INIT_LINE]
      ensures initWrites == old(initWrites) + 1
    {
      warmupTimers := warmupTimers - 1;
      FifoInitLine(accepted, events, packets, writes);
      writes := writes + [INIT_LINE];
      initWrites := initWrites + 1;
    }

    /** The write of the initialisation line completes: the controller is
        opened and `_sendData` runs, so packets queued before this point now
        start to drain (on an empty queue the marker is emitted at once). */
    method InitWritten()
      requires Valid() && initWrites > 0
      modifies this
      ensures Valid() && isOpened
      ensures initWrites == old(initWrites) - 1
      ensures !old(sending) ==> DrainStarted()
      ensures old(sending) ==> QueueUnchanged()
      ensures counter == old(counter) && accepted == old(accepted)
      ensures globalCounter == old(globalCounter)
      ensures openListeners == old(openListeners) && parsers == old(parsers)
      ensures warmupTimers == old(warmupTimers)
    {
      initWrites, isOpened := initWrites - 1, true;
      SendData();
    }

    /** A line arrives from the port at every parser: each one that passes
        the length filter and is not the resend noise yields one "Received"
        event per parser. */
    method OnLine(line: string)
      requires Valid()
      requires |line| == LINE_LENGTH && line != NOISE ==> WellFormed(line)
      modifies this`events
      ensures Valid()
      ensures events == old(events) + (if Decode(line).Some? then Copies(ReceivedEvent(Decode(line).value), parsers) else [])
    {
      var decoded := Decode(line);
      if decoded.Some? {
        var more := Copies(ReceivedEvent(decoded.value), parsers);
        FifoReceived(accepted, events, packets, writes, decoded.value, parsers);
        events := events + more;
      }
    }
  }
}
