# Teensy microcontroller driver

A model of the driver in `Parts/Teensy.py`. The driver links a car's on-board
computer to a Teensy microcontroller (MCU) over a serial line.
- It polls the MCU in either mode: `update` and `__poll` never read the mode.
  A poll reads the speed, throttle or steering value the MCU reports and
  answers each line with a `poll` line. The exception is a line that names a
  field but holds no digit: `number_in_message[0]` raises and nothing is
  written.
- Only `run_threaded` depends on the mode. In autonomous mode it sends
  `command speed …` and `command steering …` lines.
- A watchdog, built on a scheduler queue, is meant to shut the link down when
  the MCU falls silent.
- Shutdown sends `command shutdown` once and closes the port.

The project has four modules:

- `Wrappers` holds `Option`.
- `Numeral` models the pattern `\d+\.*\d*` and `re.findall` over it. The
  greedy search is proved to find the leftmost-longest match. Digits are
  ASCII.
- `Protocol` holds the pure parts of the line protocol:
  - ASCII lower-casing and the substring test `kw in s`
  - classification by keyword, testing `speed`, then `throttle`, then `steering`
  - the decoding of one line into a `PollStep`, and the three stored fields as `Readings`
  - the poll reply and the command lines, each with a parser used as its inverse
  - lemmas for the decoding properties
- `Teensy` holds the parts with state:
  - the `OperationMode` enum (`Manual` = `'M'`, `Auto` = `'A'`)
  - a `SerialPort` class: the transcript of written lines and an open flag
  - a `Watchdog` class: its scheduler queue as a sequence of `Event(delay, priority, action)`
  - the `TeensyMC` driver class with the fields `running`, `mode`, `speed`, `throttle` and `steering`

`TeensyMC.Valid()` is the invariant every method keeps:
- the port is open exactly while `running` holds;
- a stopped driver has an empty watchdog queue;
- no write call writes `command shutdown\n` while the driver runs, and after
  it stops that write is the last one, made exactly once. The transcript has
  one entry per write call; see `Teensy.TeensyMC.Valid` under "## Left out".

Python values are dynamically typed. A field holds `Number(0.0)` at first,
the numeral text cut from an MCU line after a poll (`Text("12.5")`), or
whatever value the caller passed to `run_threaded`.

Exceptions are the `Outcome` value `Raised(...)`:
- `PortNotOpen`: polling or writing a closed port.
- `IndexError`: `number_in_message[0]` on a line that names a field but holds no digit.

Things the code does that the model keeps as they are:
- `re.findall` returns a list, never `None`. So the guard at
  `Parts/Teensy.py:69` always holds, and the watchdog is reset for every line
  read, before any `IndexError`.
- The pattern has no sign, so `steering -0.45` stores `0.45`.
- A line naming both `speed` and `steering` updates only `speed`.
- No message sets the mode.
- Autonomous mode commands speed and steering, never throttle.
- Nothing ever calls `start_watchdog` or runs the scheduler, so the callback
  never fires on its own.

## Model

| member | source | states |
|---|---|---|
| Numeral.Run | Parts/Teensy.py:67 | Gives the length of the maximal run of digits (or dots) at `i`. Every character in the run is in the class, and the character after it is not. |
| Numeral.FirstDigit | Parts/Teensy.py:67 | Gives the first index at or after `i` that holds a digit, or `|s|`. No earlier index holds one. |
| Numeral.GreedyEnd | Parts/Teensy.py:67 | The greedy match at a digit is non-empty and ends inside the string. |
| Numeral.FindNumeralFrom | Parts/Teensy.py:67 | A match it reports lies at or after `from`, is non-empty and ends inside the string. |
| Numeral.FindAllFrom | Parts/Teensy.py:67 | Every string in the `re.findall` result matches `\d+\.*\d*` as a whole. |
| Numeral.FindAll | Parts/Teensy.py:67 | `re.findall` over the whole line. It has no contract of its own; FindAllStartsWithFirstNumeral proves what the list holds. |
| Numeral.FirstNumeral | Parts/Teensy.py:67-73 | Returns a first match exactly when the line holds a digit. The match is a whole numeral, starts with a digit and holds only digits and dots, so it never has a sign. |
| Numeral.NumeralChars | Parts/Teensy.py:67 | A whole match starts with a digit and holds only digits and dots. |
| Numeral.NoMatchWithoutDigit | Parts/Teensy.py:67 | No match starts in a stretch that holds no digit. |
| Numeral.FindNumeralIsLeftmostLongest | Parts/Teensy.py:67 | The greedy search finds no match exactly when no substring matches. Otherwise it finds the leftmost-longest match, as the regular-expression engine does. |
| Numeral.GreedyMatchIsNumeral | Parts/Teensy.py:67 | The greedy match at a digit is a match. |
| Numeral.NoLongerMatch | Parts/Teensy.py:67 | No substring longer than the greedy match, starting at the same place, is a match. |
| Numeral.FindAllStartsWithFirstNumeral | Parts/Teensy.py:67-79 | Every element of the `re.findall` list is a whole match. The list is non-empty exactly when the line holds a digit. `number_in_message[0]` exists exactly when there is a first match, and it is that match. |
| Protocol.AttributeNamed | Parts/Teensy.py:72-80 | Inverts `Name`: it returns the attribute whose name is the given text, and only that one. |
| Protocol.Name | Parts/Teensy.py:72-80 | The keyword of each field, which is also the word added to its poll reply. It has no contract of its own; AttributeNamed is its inverse. |
| Protocol.ToLower | Parts/Teensy.py:65 | Keeps the length and leaves no upper-case letter. Every other character is kept, and each upper-case letter is shifted to its lower-case form. |
| Protocol.ContainsFrom | Parts/Teensy.py:72-78 | True exactly when the keyword occurs at some index at or after `i`. |
| Protocol.Contains | Parts/Teensy.py:72-78 | `kw in s` is true exactly when `kw` is a substring of `s`. |
| Protocol.NoOccurrenceInLetterlessTail | Parts/Teensy.py:72-78 | A keyword that ends in a letter and is absent from a prefix stays absent when a tail without letters is appended. |
| Protocol.MissingCharBlocksOccurrence | Parts/Teensy.py:72-78 | A keyword with a character the line lacks does not occur in it. |
| Protocol.Classify | Parts/Teensy.py:72-80 | Names a field exactly when some keyword occurs. The field it names occurs in the line, and no keyword tested before it does. |
| Protocol.DecodeLine | Parts/Teensy.py:65-80 | It reports no keyword exactly when none of the three names occurs in the lower-cased line. A step that names a field names one that occurs. A missing-numeral step comes from a line with no digit. A stored value is always a whole numeral. KeywordLine, KeywordPriority and NoKeywordLine state the rest. |
| Protocol.DecodeMessage | Parts/Teensy.py:72-80 | Decoding of the lower-cased line. It has no contract of its own; DecodeMessageMeaning and DecodeByKeywordTests state what it computes. |
| Protocol.DecodeMessageMeaning | Parts/Teensy.py:67-80 | The step names the first keyword tested that occurs, or none exactly when no keyword occurs. It is the missing-numeral error exactly when a keyword occurs and the line holds no digit. Otherwise it stores the first numeral. |
| Protocol.DecodeByKeywordTests | Parts/Teensy.py:72-80 | Decoding equals the source's cascade: three substring tests in order, each followed by the head of the `re.findall` list, or the missing-numeral error when that list is empty. |
| Protocol.Readings.Set | Parts/Teensy.py:73-79 | Setting one field stores the value there and leaves the other two unchanged. |
| Protocol.ApplyStep | Parts/Teensy.py:73-79 | The fields after one decoded step. It has no contract of its own; see ApplyStepMeaning. |
| Protocol.ApplyStepMeaning | Parts/Teensy.py:73-79 | An update stores the numeral text in its field alone. The other two steps leave every field unchanged. |
| Protocol.PollReply | Parts/Teensy.py:66-82 | The poll line for one field, or for everything. It has no contract of its own; PollReplyTexts and PollReplyRoundTrip state what it is. |
| Protocol.ReplyFor | Parts/Teensy.py:73-82 | The line a step writes, or none when indexing the empty list raises first. It has no contract of its own; KeywordLine, KeywordLineWithoutNumeral, NoKeywordLine and ReplyIsNotShutdown state it. |
| Protocol.PollReplyTexts | Parts/Teensy.py:66-82 | The four lines a poll writes are `poll\n`, `poll speed\n`, `poll throttle\n` and `poll steering\n`. |
| Protocol.PollReplyAsBuilt | Parts/Teensy.py:66-82 | The reply built step by step (`poll`, then ` <attr>`, then `\n`) is the poll reply for that attribute. |
| Protocol.PollReplyRoundTrip | Parts/Teensy.py:66-82 | The MCU's reading of a poll reply gives back the attribute it names, or "everything" for a bare `poll`. |
| Protocol.EncodeCommand | Parts/Teensy.py:86-90 | The command lines the driver writes. It has no contract of its own; CommandRoundTrip proves that ParseCommand inverts it. |
| Protocol.CommandRoundTrip | Parts/Teensy.py:84-90 | Parsing an encoded command line gives back the command and its value text. |
| Protocol.PollReplyIsNotCommand | Parts/Teensy.py:18-20 | A poll reply never parses as a command, and in particular is never the shutdown line. |
| Protocol.ReplyIsNotShutdown | Parts/Teensy.py:82 | No poll step writes `command shutdown\n`. |
| Protocol.ShutdownLineIsUnique | Parts/Teensy.py:86-90 | A command encodes to the shutdown line exactly when it is the shutdown command. |
| Protocol.ClassifyPicksFirst | Parts/Teensy.py:72-80 | A line holding keyword `a`, and no keyword tested before it, is classified as `a`. |
| Protocol.DecodeKeywordLine | Parts/Teensy.py:72-80 | Such a line updates `a` with the first numeral. With no numeral it is the missing-numeral error for `a`. |
| Protocol.KeywordLine | Parts/Teensy.py:65-82 | A line naming `a` (in any case), with no keyword tested before it, sets exactly `a` to its first numeral text. The other two fields stay unchanged, and the reply is `poll <a>\n`. |
| Protocol.KeywordLineWithoutNumeral | Parts/Teensy.py:72-79 | A line naming `a` that holds no digit raises before any field changes. No reply is written. |
| Protocol.KeywordPriority | Parts/Teensy.py:72-80 | With two keywords in a line, the one tested later is neither updated nor named in the reply. |
| Protocol.NoKeywordLine | Parts/Teensy.py:66-82 | A line with none of the three keywords leaves every field unchanged and is answered with `poll\n`. |
| Protocol.ReportIsLowerCase | Parts/Teensy.py:22-24 | A report `<attr> <numeral>\n` is already lower-case. |
| Protocol.EarlierKeywordNotInName | Parts/Teensy.py:72-80 | No keyword tested before `a` occurs in `a`'s name followed by a space. |
| Protocol.ReportClassifies | Parts/Teensy.py:72-80 | A report is classified by its own attribute. |
| Protocol.ReportNumeral | Parts/Teensy.py:67-73 | The first numeral of a report is its whole numeral. |
| Protocol.NumeralAfterDigitlessPrefix | Parts/Teensy.py:67-73 | A numeral after a prefix with no digit, followed by the newline, is the first match, whole. |
| Protocol.ReportIsAcknowledged | Parts/Teensy.py:22-24 | A report as the MCU sends it stores its numeral in its attribute and is answered with `poll <attr>\n`. |
| Protocol.ToLowerIdempotent | Parts/Teensy.py:65 | Lower-casing twice is lower-casing once. |
| Protocol.DecodeIgnoresCase | Parts/Teensy.py:65 | Decoding a lower-cased line gives the same step as decoding the line. |
| Protocol.ReportInAnyCase | Parts/Teensy.py:65-82 | A report whose letters are in any case decodes and is acknowledged as the lower-case report is. |
| Protocol.LowerOfMixedCaseReport | Parts/Teensy.py:65 | Lower-casing `Speed 12.50\n` gives the report `speed 12.50\n`. |
| Protocol.NumeralOfMixedCaseReport | Parts/Teensy.py:67 | `12.50` is a whole numeral. |
| Protocol.LowerOfNegativeSteering | Parts/Teensy.py:65 | `steering -0.45\n` is already lower-case. |
| Protocol.NumeralOfNegativeSteering | Parts/Teensy.py:67 | The first numeral of `steering -0.45\n` is `0.45`, without the sign. |
| Protocol.KeywordsOfNegativeSteering | Parts/Teensy.py:72-78 | `steering -0.45\n` contains `steering` but neither `speed` nor `throttle`. |
| Protocol.ExampleMixedCaseReport | Parts/Teensy.py:65-73 | `Speed 12.50\n` stores `12.50` in speed. |
| Protocol.ExampleMixedCaseReply | Parts/Teensy.py:74-82 | `Speed 12.50\n` is answered with `poll speed\n`. |
| Protocol.SteeringOnlyLine | Parts/Teensy.py:78-79 | A lower-case line naming only steering stores its first numeral in steering. |
| Protocol.ExampleNegativeSteering | Parts/Teensy.py:24 | The source's own example `steering -0.45\n` stores `0.45`: the sign is dropped. |
| Protocol.ExampleGarbage | Parts/Teensy.py:66-82 | `garbage\n` is a no-keyword step. It leaves every field unchanged and is answered with `poll\n`. |
| Teensy.SerialPort.constructor | Parts/Teensy.py:48 | A new port is open on the given device and baud rate, and nothing has been written. |
| Teensy.SerialPort.Write | Parts/Teensy.py:82 | An open port appends the line. A closed port fails and writes nothing. |
| Teensy.SerialPort.Close | Parts/Teensy.py:104 | Closes the port and keeps the transcript. |
| Teensy.OperationMode.Code | Parts/Teensy.py:34-36 | The enum values: `Manual` is `'M'` and `Auto` is `'A'`. It has no contract of its own; `run_threaded` is the only code that reads the mode. |
| Teensy.RemoveFirst | Parts/Teensy.py:131 | `sched.cancel` removes one queued copy of the event (a multiset difference). It removes the head when the head is that event. |
| Teensy.Watchdog.constructor | Parts/Teensy.py:115-119 | The threshold is `threshold / 1000` seconds, and the queue starts empty. |
| Teensy.Watchdog.Enter | Parts/Teensy.py:124-127 | `sche.enter` appends the event. |
| Teensy.Watchdog.Cancel | Parts/Teensy.py:131 | `sche.cancel` of a queued event removes it. |
| Teensy.Watchdog.CancelQueued | Parts/Teensy.py:131 | Cancelling each event of a snapshot of the queue, in order, leaves the queue empty. |
| Teensy.Watchdog.StartWatchdog | Parts/Teensy.py:121-124 | Appends exactly one `__watching` event, with delay `delay/1000` and priority 1. Existing entries stay in place. |
| Teensy.Watchdog.Watching | Parts/Teensy.py:126-127 | Appends exactly one callback event, with delay `threshold` and priority 1. |
| Teensy.Watchdog.ResetCountdown | Parts/Teensy.py:129-132 | Afterwards the queue holds exactly one event: the callback, after `threshold`. |
| Teensy.Watchdog.Shutdown | Parts/Teensy.py:134-136 | Leaves the queue empty. |
| Teensy.ShutdownLine | Parts/Teensy.py:90 | The line `command shutdown\n`, encoded as the `Stop` command. It has no contract of its own; ShutdownLineIsUnique proves no other command encodes to it. |
| Teensy.TeensyMC.Valid | Parts/Teensy.py:47-48 | The invariant every method requires and keeps. The port is open exactly while `running` holds (lines 47-48, 101-104). A stopped driver has an empty watchdog queue (line 105). No write call writes `command shutdown\n` while the driver runs. After the driver stops, that write is the last one, made once. This holds per write call, not per `\n`-separated line on the wire. |
| Teensy.TeensyMC.constructor | Parts/Teensy.py:40-54 | Sets the timeout to 100 ms, the poll interval to 5 ms, the port to `/dev/ttyACM0` at 9600 baud, and the watchdog threshold to 0.1 s with an empty queue. The fields start at 0.0, the driver is running, and the invariant holds. |
| Teensy.TeensyMC.Poll | Parts/Teensy.py:60-82 | On a closed port it raises and changes nothing. Otherwise every line resets the watchdog to exactly one callback event. The fields change as the decoded step says. The line's reply is appended once, or nothing is written when the missing numeral raises. The invariant is kept. |
| Teensy.TeensyMC.Answer | Parts/Teensy.py:72-82 | The source's if/elif cascade over the `re.findall` list stores and replies as decoding says. It raises `IndexError` without writing when the list is empty. |
| Teensy.TeensyMC.Command | Parts/Teensy.py:84-90 | Writes `command speed <s>\n` and then `command steering <t>\n`, or just `command shutdown\n`. On a closed port it raises and writes nothing. |
| Teensy.TeensyMC.RunThreaded | Parts/Teensy.py:92-98 | In auto mode with exactly two arguments, it sets speed and steering to them and appends both command lines. Otherwise it neither writes nor changes a field. It returns (speed, throttle, steering) in that order, unless the write raises. |
| Teensy.TeensyMC.Shutdown | Parts/Teensy.py:100-105 | A first call while running stops the driver, appends exactly `command shutdown\n`, closes the port and empties the watchdog queue. A later call changes nothing. |
| Teensy.TeensyMC.WatchdogAlert | Parts/Teensy.py:107-109 | The watchdog callback has the same effect as `shutdown`. |
| Teensy.ShutdownThenAlert | Parts/Teensy.py:100-109 | Shutting down, letting the watchdog fire and shutting down again writes the shutdown command exactly once. |

## Left out

- The busy-wait on `in_waiting` and `readline` (`Parts/Teensy.py:62-65`) are serial I/O. The line read is a parameter of `Poll`. A closed port raises instead of waiting.
- `update` (`Parts/Teensy.py:56-58`) only calls `__poll` and sleeps. Time is not modelled, so `update` is not modelled either.
- Each method is one atomic step. `update` and `run_threaded` are entry points a vehicle framework may call from different threads. Both write the fields and the port, and the model does not capture interleaving between them.
- Time in the scheduler is not modelled. No event ever runs, and the queue is kept in insertion order rather than ordered by due time. The source never calls `sched.run()`.
- Delays and the threshold are exact reals. Python divides in floating point (`/ 1000.0`).
- Opening the serial device can fail in pyserial. I/O errors on an open port are not modelled either: `readline` and `write` always succeed while the port is open. In the source, a write that raises inside `shutdown` (line 103) would leave `running` false with the port still open, which `Valid` rules out.
- Teensy.TeensyMC.Valid: the transcript `ser.written` holds one entry per write call, and a write is not split at `\n`. "The shutdown command is never written while running" therefore holds per write call only. `toText` is unconstrained and `bytes(speed)` passes a string through unchanged (lines 87-88). So a commanded value whose text holds `\ncommand shutdown` would put a shutdown line on the wire while the driver runs, and the model does not exclude that.
- Python 3 `bytes(str)` and `bytes(int)` (`Parts/Teensy.py:82, 87-88`) would raise or write zero bytes. Outbound messages are modelled as the intended strings.
- Formatting a commanded value as text is a foreign call. It is the `toText` parameter of the driver.
- `readline().decode()` is taken as already decoded. `str.lower()` and `\d` cover ASCII only, not full Unicode.
- `Tests/test_serial_speed/test_serial_speed.py` is a hardware timing script with no logic to model.
- The module comment says the MCU sends `steering -0.45`, which suggests the sign is meant to be kept. The code drops it, and the model follows the code (`Protocol.ExampleNegativeSteering`).
