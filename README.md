# ArduinoSerial line assembler and message queue, in Dafny

`AppKit.ArduinoSerial` (a Unity component) talks to a serial device one text
line at a time. A background reader takes the bytes the device has sent, one
at a time: a `'\n'` moves the partial line `_data` to the end of the FIFO
`_messages` and empties `_data`; any other byte is appended to `_data` as a
character. Once per frame, `Update` empties the FIFO, oldest message first,
and hands each message to the `OnDataReceived` observers, but only while
`_isRunning` is set. `Open` picks a port (the first listed one when no name
is given), replaces the queue, opens the device and sets `_isRunning`;
`Close` clears `_isRunning` and closes the port. The baud rate is one of
twelve fixed values.

This project models that core with the threads, the lock and the device
removed. The reader and the frame loop become calls made one after another on
one object.

- `line_split.dfy`, module `LineSplit`: the newline framing as pure functions.
  `SplitLines(s)` is the stream `s` cut into completed messages and the
  trailing partial line. `Join` is its inverse. Lemmas prove the round trip in
  both directions, the chunking law (splitting `a + b` equals splitting `a`,
  then splitting its partial line followed by `b`), partial-line retention,
  and the message count.
- `arduino_serial.dfy`, module `AppKit`: the `Baudrate` enum and the class
  `ArduinoSerial`. The class has the fields `data`, `messages`, `isRunning`
  and `port` (the serial port object: its name, its rate and whether it is
  open). `FeedByte`, `FeedBytes` and `ReadPoll` are proved against
  `SplitLines`; `Update`, `Open` and `Close` give the new state in terms of
  the old one. All of them keep the invariant that neither the partial line
  nor any queued message holds a `'\n'`. `Step` and `Interleave` drive a
  running session with an observer subscribed through any interleaving of
  reads and frames. They prove that every message is handed over exactly once, in the
  order its terminator arrived, whatever the chunking and however many frames
  pass. Two client methods, `ClientLifecycle` and `ClientPartialLine`, use
  only these contracts to show the scenarios the class is meant for: closing
  twice, a failed open, and a line that arrives in two parts.

The inputs that come from outside the code are parameters:
- the bytes available to a read pass;
- the platform's port list, given to `Open`;
- whether opening the device succeeds, raises an `IOException` or raises
  another exception (`DeviceOutcome`);
- whether any observer is subscribed, given to `Update`.

Behaviour of the code that a reader might not expect, modelled as written:
- `Open` assigns the fresh queue (line 115) before it tries to open the
  device. A device failure therefore still empties the queue, even though
  `Open` returns false.
- `Open` catches only `IOException` (line 125). Any other exception from the
  device escapes `Open`, and the model gives that case as the result `Raised`.
- Calling `Open` while a session is running is not refused. The code just
  replaces the queue and the port.
- `Close` does not clear `_data`. A partial line left from one session is
  still there after the next `Open` and becomes the start of that session's
  first message.

## Model

| member | source | states |
|---|---|---|
| `LineSplit.ToChar` | Assets/AppKit/ArduinoSerial.cs:183-185 | a byte is read as the character with the same code, and it is the terminator exactly when the byte is 10 |
| `LineSplit.SplitLines` | Assets/AppKit/ArduinoSerial.cs:181-197 | the split of a stream: neither the messages nor the partial line hold a terminator, and there is one message per `'\n'` in the stream |
| `LineSplit.JoinSplit` | Assets/AppKit/ArduinoSerial.cs:185-196 | the messages, each followed by its terminator, and then the partial line give back the stream exactly: no character is lost, added or reordered |
| `LineSplit.SplitJoin` | Assets/AppKit/ArduinoSerial.cs:185-196 | splitting terminator-free lines joined with terminators and followed by a terminator-free tail gives exactly those lines and that tail, so the split is the only one that joins back to the stream |
| `LineSplit.SplitPartial` | Assets/AppKit/ArduinoSerial.cs:193-196 | a stream without a terminator gives no message, and all of it stays in the partial line |
| `LineSplit.PartialLineThenTerminator` | Assets/AppKit/ArduinoSerial.cs:185-196 | a partial line gives no message until a `'\n'` follows it; then it gives exactly one message, itself, without the terminator, and leaves the partial line empty |
| `LineSplit.SplitAppend` | Assets/AppKit/ArduinoSerial.cs:181-197 | splitting a stream fed in two chunks, where the second chunk continues the first chunk's partial line, gives the same messages and the same partial line as splitting the whole stream at once |
| `LineSplit.MessageCount` | Assets/AppKit/ArduinoSerial.cs:181-197 | bytes fed after a terminator-free partial line close exactly as many messages as they hold `'\n'` bytes |
| `AppKit.Rate` | Assets/AppKit/ArduinoSerial.cs:15-29 | the rate handed to the serial port (`(int)baudRate`, line 116) is the member's declared value, always between 300 and 250000 |
| `AppKit.FromRate` | Assets/AppKit/ArduinoSerial.cs:15-29 | a rate maps to a `Baudrate` exactly when some member's declared value is that rate, and that member stands for that rate |
| `AppKit.RateRoundTrip` | Assets/AppKit/ArduinoSerial.cs:15-29 | reading a member's rate back gives the same member, so distinct members have distinct declared values |
| `AppKit.ArduinoSerial.constructor` | Assets/AppKit/ArduinoSerial.cs:33-37 | a new instance has an empty partial line and an empty queue, no port and is not running |
| `AppKit.ArduinoSerial.FeedByte` | Assets/AppKit/ArduinoSerial.cs:183-196 | a `'\n'` byte appends the old partial line to the end of the queue and empties the partial line; any other byte, `'\r'` included, appends its character to the partial line and leaves the queue as it was; no message or partial line ever holds a terminator |
| `AppKit.ArduinoSerial.FeedBytes` | Assets/AppKit/ArduinoSerial.cs:181-197 | after a run of bytes, the queue is the old queue followed by the messages of the split of (old partial line + bytes), and the partial line is that split's partial line |
| `AppKit.ArduinoSerial.ReadPoll` | Assets/AppKit/ArduinoSerial.cs:175-204 | a reader pass goes on exactly while the session is running and the port is open, and then takes in all available bytes as `FeedBytes` does; otherwise it changes nothing |
| `AppKit.ArduinoSerial.Update` | Assets/AppKit/ArduinoSerial.cs:40-57 | when not running, nothing is handed over and the queue is untouched; when running, the queue ends empty and every queued message is handed over once, oldest first, if an observer is subscribed (otherwise the messages are dropped); observers are assumed to return normally and not to touch the subscription or the instance |
| `AppKit.ArduinoSerial.Open` | Assets/AppKit/ArduinoSerial.cs:90-140 | the port name defaults to none and the rate to 9600 baud, as in the source. With no port name and no listed port it returns false and changes nothing. Otherwise it uses the given name, or the first listed port, at the given rate, and empties the queue. Device success opens the port, starts the session and returns true. An `IOException` returns false; another exception escapes. In both failure cases the port is left closed and the running flag keeps its old value |
| `AppKit.ArduinoSerial.Close` | Assets/AppKit/ArduinoSerial.cs:142-156 | afterwards the session is stopped and the port closed, keeping the port's name and rate; it works without a prior `Open`, and a second call changes nothing |
| `AppKit.ArduinoSerial.Step` | Assets/AppKit/ArduinoSerial.cs:40-57 | one step of a running session with an observer subscribed, either a read pass (lines 173-205) or a frame's drain, hands over and keeps queued exactly the old queue followed by the split of the old partial line and the bytes read; after a frame nothing is queued |
| `AppKit.ArduinoSerial.Interleave` | Assets/AppKit/ArduinoSerial.cs:173-205 | over any interleaving of read passes and frames (`Update`, lines 40-57) in a running session with an observer subscribed throughout, the messages handed over, followed by those still queued, are the old queue followed by the split of the old partial line and all bytes received. No message is lost or duplicated, chunking and frame rate do not matter, and after a final frame nothing is queued |

## Left out

- The worker `Thread`, the `lock`, `Thread.Sleep(1)` and the 1-second `Join` in `Close`. The reader and the frame loop are modelled as calls made one after another, so races, visibility of `_isRunning` and the join timeout are not modelled.
- `SerialPort` itself: construction, `Open`, DTR/RTS, `BytesToRead`/`ReadByte`, `Close` and `Dispose`. These are foreign library calls. The bytes available are an input, and the outcome of opening the device is a `DeviceOutcome` input.
- `Write`: it calls the foreign library, logs failures and changes no state.
- `GetPortNames`: it depends on the platform and the file system. `Open` takes the port list as an input.
- `Debug` logging, including the exception catch in `Read`, which only logs. A read fault is not modelled.
- The Unity glue: `MonoBehaviour`, the `Instance` singleton, `OnDestroy`, and the demo component in Assets/AppKit/ArduinoSerialTest.cs.
- The observer multicast: `Update` takes only whether some observer is subscribed, and the result is the sequence of messages the `OnDataReceived` event is raised with. How one event call reaches several observers is not modelled.
- Update (`AppKit.ArduinoSerial.Update`): observers run inside the drain loop of the source (lines 48-54), and the model assumes they return normally, leave the subscription as it is and do not call back into the instance. An observer that throws ends the drain with the rest of the queue still waiting for the next frame, and later observers miss the message in hand. One that unsubscribes the last observer makes the remaining messages be dropped. One that calls `Open` replaces the queue, and the remaining messages are lost. In those cases the promise that the queue ends empty and every message is handed over does not hold.
- The `null` queue before the first `Open` is modelled as an empty queue. It is never touched before `Open`, because `Update` returns early while not running and the reader starts only after `Open`.
- A second `Open` while running leaves the previous device open and its reader alive in the source. The model keeps only the port object the fields refer to.
- Out-of-range enum values: a C# enum variable can hold any integer, but the model's `Baudrate` holds only the twelve declared members.
