/**
  UART communication for a frame-loop application: the line assembler and
  message queue of `AppKit.ArduinoSerial`.

  The background reader and the per-frame `Update` are modelled as calls made
  one after another on one object; the serial device is replaced by its
  observable outcomes (the bytes available to a poll, whether opening the
  device succeeds), and the platform's port list is an input.
 */
module AppKit {
  import opened LineSplit

  datatype Option<T> = None | Some(value: T)

  /** The fixed set of supported baud rates. */
  datatype Baudrate =
    | B300 | B1200 | B2400 | B4800 | B9600 | B19200
    | B38400 | B57600 | B74880 | B115200 | B230400 | B250000

  /** The rate in bits per second a `Baudrate` stands for, as handed to the serial port. */
  function Rate(b: Baudrate): (r: nat)
    ensures 300 <= r <= 250000
  {
    match b
    case B300 => 300
    case B1200 => 1200
    case B2400 => 2400
    case B4800 => 4800
    case B9600 => 9600
    case B19200 => 19200
    case B38400 => 38400
    case B57600 => 57600
    case B74880 => 74880
    case B115200 => 115200
    case B230400 => 230400
    case B250000 => 250000
  }

  /** The `Baudrate` for a rate in bits per second, if the rate is a supported one. */
  function FromRate(n: int): (r: Option<Baudrate>)
    ensures r.Some? ==> Rate(r.value) == n
    ensures r.None? ==> forall b :: Rate(b) != n
  {
    if n == 300 then Some(B300)
    else if n == 1200 then Some(B1200)
    else if n == 2400 then Some(B2400)
    else if n == 4800 then Some(B4800)
    else if n == 9600 then Some(B9600)
    else if n == 19200 then Some(B19200)
    else if n == 38400 then Some(B38400)
    else if n == 57600 then Some(B57600)
    else if n == 74880 then Some(B74880)
    else if n == 115200 then Some(B115200)
    else if n == 230400 then Some(B230400)
    else if n == 250000 then Some(B250000)
    else None
  }

  /**
    Reading the rate of a `Baudrate` back gives the same `Baudrate`, so
    distinct members have distinct rates.
   */
  lemma RateRoundTrip(b: Baudrate)
    ensures FromRate(Rate(b)) == Some(b)
    ensures forall b' :: Rate(b') == Rate(b) ==> b' == b
  {
  }

  /** The serial port object: where it points, at what rate, and whether it is open. */
  datatype Port = Port(name: string, baudRate: Baudrate, isOpen: bool)

  /** What opening the device does: succeeds, raises an IOException, or raises anything else. */
  datatype DeviceOutcome = DeviceOpened | IOFault | OtherFault

  /** How `Open` ends: it returns a flag, or the device's non-I/O exception escapes it. */
  datatype OpenResult = Returned(ok: bool) | Raised

  /** One step of the interleaving of the reader and the frame loop. */
  datatype Event = Received(bytes: seq<Byte>) | Tick
  {
    /** The bytes this step hands to the reader. */
    function Bytes(): seq<Byte>
    {
      if Received? then bytes else []
    }
  }

  /** All bytes the reader receives along an interleaving, in order. */
  function AllReceived(events: seq<Event>): seq<Byte>
  {
    if events == [] then []
    else
      var last := events[|events| - 1];
      AllReceived(events[..|events| - 1]) + last.Bytes()
  }

  /** Regrouping a concatenation, kept apart so that the accounting below stays cheap to prove. */
  lemma AppendAssoc<T>(a: seq<T>, b: seq<T>, c: seq<T>)
    ensures a + (b + c) == (a + b) + c
  {
  }

  /**
    Accounting for one step of a running session: if the messages handed
    over so far and those queued account for the split of everything
    received, and the step accounts for the bytes it takes in, then the
    new totals account for everything received including those bytes.
   */
  lemma QueueStep(m0: seq<string>, d0: string, seen: seq<Byte>, bs: seq<Byte>,
                  delivered: seq<string>, queued: seq<string>, out: seq<string>, queue: seq<string>)
    requires delivered + queued == m0 + SplitLines(d0 + Chars(seen)).lines
    requires out + queue == queued + SplitLines(SplitLines(d0 + Chars(seen)).rest + Chars(bs)).lines
    ensures (delivered + out) + queue == m0 + SplitLines(d0 + Chars(seen + bs)).lines
    ensures SplitLines(SplitLines(d0 + Chars(seen)).rest + Chars(bs)).rest
         == SplitLines(d0 + Chars(seen + bs)).rest
  {
    var text := d0 + Chars(seen);
    CharsAppend(seen, bs);
    assert d0 + Chars(seen + bs) == text + Chars(bs);
    SplitAppend(text, Chars(bs));
    var more := SplitLines(SplitLines(text).rest + Chars(bs)).lines;
    AppendAssoc(delivered, out, queue);
    AppendAssoc(delivered, queued, more);
    AppendAssoc(m0, SplitLines(text).lines, more);
  }

  lemma AllReceivedStep(events: seq<Event>, i: nat)
    requires i < |events|
    ensures AllReceived(events[..i + 1])
         == AllReceived(events[..i]) + events[i].Bytes()
  {
    assert events[..i + 1][..i] == events[..i];
  }

  /** Whether `portName` asks for the default port (null or empty in the source). */
  predicate NoPortName(portName: Option<string>)
  {
    portName.None? || portName.value == []
  }

  class ArduinoSerial {
    /** The serial port object; None until the first `Open` gets past port selection. */
    var port: Option<Port>
    /** The FIFO of completed messages, oldest first. */
    var messages: seq<string>
    /** The partial line received since the last terminator. */
    var data: string
    var isRunning: bool

    /** Neither the partial line nor any queued message holds a terminator. */
    ghost predicate Valid()
      reads this
    {
      NoNewline(data) && AllNoNewline(messages)
    }

    /** Whether the port object exists and is open. */
    predicate PortIsOpen()
      reads this
    {
      port.Some? && port.value.isOpen
    }

    constructor ()
      ensures Valid()
      ensures data == [] && messages == [] && !isRunning && port == None
    {
      data := [];
      messages := [];
      isRunning := false;
      port := None;
    }

    /**
      The reader's handling of one byte: a terminator moves the partial line
      to the end of the queue and empties it; any other byte, '\r' included,
      is appended to the partial line as a character.
     */
    method FeedByte(b: Byte)
      requires Valid()
      modifies this`data, this`messages
      ensures Valid()
      ensures b == NewlineByte ==> messages == old(messages) + [old(data)] && data == []
      ensures b != NewlineByte ==> messages == old(messages) && data == old(data) + [ToChar(b)]
    {
      var c := ToChar(b);
      if c == '\n' {
        messages := messages + [data];
        data := [];
      } else {
        data := data + [c];
      }
    }

    /**
      The reader's inner loop over the bytes available now: the new messages
      and partial line are the split of the old partial line followed by the
      bytes.
     */
    method FeedBytes(bs: seq<Byte>)
      requires Valid()
      modifies this`data, this`messages
      ensures Valid()
      ensures messages == old(messages) + SplitLines(old(data) + Chars(bs)).lines
      ensures data == SplitLines(old(data) + Chars(bs)).rest
    {
      SplitPartial(data);
      ghost var read := data;
      assert Chars(bs[..0]) == [];
      var i := 0;
      while i < |bs|
        invariant 0 <= i <= |bs|
        invariant Valid()
        invariant read == old(data) + Chars(bs[..i])
        invariant messages == old(messages) + SplitLines(read).lines
        invariant data == SplitLines(read).rest
      {
        CharsSnoc(bs, i);
        SplitLinesSnoc(read, ToChar(bs[i]));
        FeedByte(bs[i]);
        read := read + [ToChar(bs[i])];
        i := i + 1;
      }
      assert bs[..i] == bs;
    }

    /**
      One pass of the background reader: while the session runs and the port
      is open it takes in every available byte; otherwise it stops and
      nothing changes.
     */
    method ReadPoll(available: seq<Byte>) returns (alive: bool)
      requires Valid()
      modifies this`data, this`messages
      ensures Valid()
      ensures alive == (isRunning && PortIsOpen())
      ensures alive ==> messages == old(messages) + SplitLines(old(data) + Chars(available)).lines
      ensures alive ==> data == SplitLines(old(data) + Chars(available)).rest
      ensures !alive ==> messages == old(messages) && data == old(data)
    {
      alive := isRunning && PortIsOpen();
      if alive {
        FeedBytes(available);
      }
    }

    /**
      The per-frame drain. While running it dequeues every message, oldest
      first, and hands each to the observers when there are any
      (`subscribed`); the result is the sequence handed over. While stopped it
      does nothing. Observers are taken to return normally, without changing
      the subscription or calling back into this object.
     */
    method Update(subscribed: bool) returns (delivered: seq<string>)
      requires Valid()
      modifies this`messages
      ensures Valid()
      ensures !isRunning ==> delivered == [] && messages == old(messages)
      ensures isRunning ==> messages == []
      ensures isRunning ==> delivered == if subscribed then old(messages) else []
    {
      delivered := [];
      if !isRunning {
        return;
      }
      ghost var taken := 0;
      while |messages| > 0
        invariant 0 <= taken <= |old(messages)|
        invariant messages == old(messages)[taken..]
        invariant delivered == if subscribed then old(messages)[..taken] else []
        decreases |messages|
      {
        var msg := messages[0];
        messages := messages[1..];
        if subscribed {
          delivered := delivered + [msg];
        }
        taken := taken + 1;
        assert old(messages)[..taken] == old(messages)[..taken - 1] + [msg];
      }
      assert old(messages)[..taken] == old(messages);
    }

    /**
      Opening a session. Without a port name the first listed port is used;
      with no name and no listed port it fails and changes nothing. Otherwise
      the queue is replaced by an empty one and a port object is created
      before the device is opened; the partial line is kept. A successful open
      starts the session; an IOException returns false with the port closed
      and the running flag as it was; any other exception escapes the same
      way but without a result.
     */
    method Open(portName: Option<string> := None, baudRate: Baudrate := B9600,
                availablePorts: seq<string>, device: DeviceOutcome)
      returns (result: OpenResult)
      requires Valid()
      modifies this`messages, this`port, this`isRunning
      ensures Valid()
      ensures NoPortName(portName) && availablePorts == [] ==>
        result == Returned(false)
        && messages == old(messages) && port == old(port) && isRunning == old(isRunning)
      ensures !(NoPortName(portName) && availablePorts == []) ==>
        messages == []
        && port.Some?
        && port.value.name == (if NoPortName(portName) then availablePorts[0] else portName.value)
        && port.value.baudRate == baudRate
        && port.value.isOpen == (device == DeviceOpened)
        && isRunning == (device == DeviceOpened || old(isRunning))
        && result == match device
                     case DeviceOpened => Returned(true)
                     case IOFault => Returned(false)
                     case OtherFault => Raised
    {
      var name: string;
      if NoPortName(portName) {
        if |availablePorts| == 0 {
          return Returned(false);
        }
        name := availablePorts[0];
      } else {
        name := portName.value;
      }
      messages := [];
      port := Some(Port(name, baudRate, false));
      match device
      case IOFault =>
        result := Returned(false);
      case OtherFault =>
        result := Raised;
      case DeviceOpened =>
        port := Some(Port(name, baudRate, true));
        isRunning := true;
        result := Returned(true);
    }

    /**
      Ending a session: the running flag is cleared and an open port is
      closed. Safe without a prior `Open`, and a second call changes nothing.
      The queue and the partial line are left as they are.
     */
    method Close()
      modifies this`isRunning, this`port
      ensures !isRunning && !PortIsOpen()
      ensures old(port).None? ==> port.None?
      ensures old(port).Some? ==> port == Some(old(port).value.(isOpen := false))
      ensures old(!isRunning && !PortIsOpen()) ==> isRunning == old(isRunning) && port == old(port)
    {
      isRunning := false;
      if port.Some? && port.value.isOpen {
        port := Some(port.value.(isOpen := false));
      }
    }

    /**
      One step of a running session with an observer subscribed: the reader
      takes in a chunk of bytes, or the frame loop drains the queue. Either
      way the messages handed over followed by those still queued are the old
      queue followed by the split of the old partial line and the bytes taken in.
     */
    method Step(e: Event) returns (out: seq<string>)
      requires Valid() && isRunning && PortIsOpen()
      modifies this`data, this`messages
      ensures Valid()
      ensures out + messages == old(messages) + SplitLines(old(data) + Chars(e.Bytes())).lines
      ensures data == SplitLines(old(data) + Chars(e.Bytes())).rest
      ensures e.Tick? ==> messages == []
    {
      match e {
        case Received(bs) =>
          var _ := ReadPoll(bs);
          out := [];
        case Tick =>
          SplitPartial(data);
          assert data + Chars([]) == data;
          out := Update(true);
      }
    }

    /**
      A running session with an observer subscribed, driven by the reader
      and the frame loop in the order `events` gives. Whatever the chunking
      of the bytes and however many frames pass between them, the messages
      handed over followed by those still queued are the old queue followed
      by the split of the old partial line and every byte received: each
      message is handed over once, in the order its terminator arrived. After
      a final frame nothing is left queued.
     */
    method Interleave(events: seq<Event>) returns (delivered: seq<string>)
      requires Valid() && isRunning && PortIsOpen()
      modifies this`data, this`messages
      ensures Valid()
      ensures delivered + messages
           == old(messages) + SplitLines(old(data) + Chars(AllReceived(events))).lines
      ensures data == SplitLines(old(data) + Chars(AllReceived(events))).rest
      ensures events != [] && events[|events| - 1] == Tick ==> messages == []
    {
      delivered := [];
      ghost var seen: seq<Byte> := [];
      SplitPartial(data);
      assert old(data) + Chars(seen) == old(data);
      var i := 0;
      while i < |events|
        invariant 0 <= i <= |events|
        invariant Valid()
        invariant seen == AllReceived(events[..i])
        invariant delivered + messages == old(messages) + SplitLines(old(data) + Chars(seen)).lines
        invariant data == SplitLines(old(data) + Chars(seen)).rest
        invariant i > 0 && events[i - 1] == Tick ==> messages == []
      {
        AllReceivedStep(events, i);
        ghost var queued := messages;
        var out := Step(events[i]);
        QueueStep(old(messages), old(data), seen, events[i].Bytes(), delivered, queued, out, messages);
        delivered := delivered + out;
        seen := seen + events[i].Bytes();
        i := i + 1;
      }
      assert events[..i] == events;
    }
  }

  /**
    A client of the class: closing twice without an open is harmless, and an
    open with no port to use fails, after which nothing is drained.
   */
  method ClientLifecycle()
  {
    var serial := new ArduinoSerial();
    serial.Close();
    serial.Close();
    assert !serial.isRunning && serial.port == None;
    var r := serial.Open(availablePorts := [], device := DeviceOpened);
    assert r == Returned(false) && !serial.isRunning;
    var out := serial.Update(true);
    assert out == [];
    r := serial.Open(Some([]), B9600, ["COM3"], DeviceOpened);
    assert r == Returned(true) && serial.port == Some(Port("COM3", B9600, true));
  }

  /**
    A client of the class: after a successful open, "hello" without its
    terminator yields nothing, and the terminator then yields exactly "hello".
   */
  method ClientPartialLine()
  {
    var serial := new ArduinoSerial();
    var r := serial.Open(Some("COM3"), B9600, [], DeviceOpened);
    var hello: seq<Byte> := [104, 101, 108, 108, 111];
    assert [] + Chars(hello) == "hello";
    PartialLineThenTerminator("hello");
    SplitPartial("hello");
    serial.FeedBytes(hello);
    assert serial.data == "hello";
    var out := serial.Update(true);
    assert out == [];
    assert Chars([NewlineByte]) == "\n";
    serial.FeedBytes([NewlineByte]);
    out := serial.Update(true);
    assert out == ["hello"];
  }
}
