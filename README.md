# Buffering SMTP logging handler, in Dafny

`smtpbuflog.py` defines `BufferingSMTPHandler`, a logging handler that does
not mail each log record as it arrives. Producers `emit` formatted records
into a shared intake queue. A worker thread wakes up periodically. When more
than one send interval has passed since the last mail, it drains the
intake queue into a per-handler staging queue for a bounded time, then
sends every staged record in one mail. The mail is a fixed header built at
construction (`From:`, `To:`, `Subject:`), then a body. The body gives the
number of included records, the number still pending (only when there are
some), an empty line, and the records separated by CRLF. `close` stops the
worker loop, shrinks the drain window to a quarter of a second, and runs
one last drain-and-send cycle. `state` reports a diagnostic snapshot.

The model has six modules:

- `Wrappers`: `Option`, `Min`, `Max`.
- `Strings`: comma and CRLF joining and splitting, decimal rendering and
  parsing, and their round trips.
- `Message`: the header, the body and the composed mail, its layout as
  lines, and a `Decode` that reads a composed mail back.
- `Schedule`: the timing constants and the worker's decision, plus the
  time-since and time-until figures of the snapshot.
- `Drain`: the drain loop as a recursive function `DrainFrom`, with its
  conservation, timing and stopping properties.
- `Handler`: the class `BufferingSmtpHandler`. Its fields are the two
  queues, the last-send time, `active`, the drain window and an outbox of
  mails handed to the transport. Its methods follow the source's methods.
  The methods are imperative. `MoveRecordset` is proved equal to
  `DrainAll`. The invariant `Valid()` has four parts,
  the last three over ghost fields. `Headed()`: the header is the one
  built from the sender, recipients and subject. `Accounted()`: sent, then staged, then queued records
  (`delivered`, `staging`, `intake`) are exactly the records `emitted`, in
  order. `Logged()`: mail i of the outbox is the mail that carries batch i
  of `batches` with pending count i of `pendings`, no batch is empty, and
  the batches, in order, are exactly the records sent. `Timed()`: there is
  one send time per mail, and the last-send time is the latest of them.

Time is an integer number of milliseconds, and "no mail sent yet"
(`float('-inf')` in the source) is `None`. The clock is an input. Each
scheduling decision gets two readings (`now`, `later`). A drain gets a
sequence of readings: the first fixes the deadline, and the k-th is the
loop's k-th check. A send gets the reading taken after it (`sentAt`).
Records that producers emit while a drain runs are an input too: a
sequence `arrivals`, where `arrivals[k]` joins the intake queue during
round k + 1.

## Model

| member | source | states |
|---|---|---|
| Handler.BufferingSmtpHandler.constructor | smtpbuflog.py:57-73 | The handler starts active, with both queues empty and no send yet. The drain window is 10 s, and the header is exactly `From: f\r\nTo: a1,a2,...\r\nSubject: s\r\n\r\n`. |
| Message.HeaderIsLines | smtpbuflog.py:69-70 | The header is its three field lines and an empty line, each ended by CRLF. |
| Message.RecipientsRoundTrip | smtpbuflog.py:66 | Splitting the comma-joined recipient list at commas gives back the addresses, when none is empty or contains a comma. |
| Handler.BufferingSmtpHandler.Emit | smtpbuflog.py:96-101 | The record is appended at the end of the intake queue, and the conservation invariant is kept. |
| Drain.DrainFrom | smtpbuflog.py:128-139 | The drain runs at least the rounds up to its starting round, and stops before it runs out of clock readings. |
| Drain.DrainConserves | smtpbuflog.py:131-139 | The drain loses, duplicates and reorders nothing. The staging queue only grows at its end, and staging followed by intake equals what was there plus what arrived. |
| Drain.DrainArrivals | smtpbuflog.py:132-134 | The records taken in are exactly the arrivals of the rounds that ran. |
| Drain.DrainWithinWindow | smtpbuflog.py:131-132 | Every round starts before the deadline. A drain that hit the deadline read a clock value at or past it. A drain that stopped early ran at least one round. |
| Drain.DrainStopsEarlyOnlyWhenIdle | smtpbuflog.py:136-139 | The drain stops before the deadline only when nothing was or is staged and the intake is empty. Once a record is staged, it polls until the deadline. |
| Drain.DrainIdleExitsAtOnce | smtpbuflog.py:136-138 | With both queues empty and no arrivals, the drain stops in its first round and changes nothing. |
| Drain.DrainTakesPrefix | smtpbuflog.py:131-135 | While the clock checks stay before the deadline, the first n records of the intake queue are staged in order behind what was already staged, whatever producers add meanwhile. |
| Drain.DrainFlushes | smtpbuflog.py:132-135 | Without arrivals, a drain whose first \|intake\| clock checks come before the deadline empties the intake queue. |
| Handler.DrainKeepsAccount | smtpbuflog.py:128-139 | A drain keeps the handler's record accounting exact once the records that arrived during it count as emitted. With no arrivals, nothing arrives. |
| Handler.BufferingSmtpHandler.MoveRecordset | smtpbuflog.py:128-139 | The loop leaves the queues, the round count and the stop reason exactly as `DrainAll` gives them, with the deadline one window after the first reading. The records producers add meanwhile count as emitted, and the record accounting stays exact. |
| Handler.BufferingSmtpHandler.SendRecords | smtpbuflog.py:141-178 | The staging queue is emptied, oldest record first, into the batch. A non-empty batch appends exactly one mail to the outbox. That mail carries the configured host, TLS flag, credentials, sender and recipients, and the message `Compose` builds with the pending count taken after the staging queue is emptied. An empty batch sends nothing. The batch and its pending count join the mail log, so every mail still carries its batch and the batches are still exactly the records sent. |
| Message.Compose | smtpbuflog.py:157-169 | A message exists if and only if the batch is non-empty, and it starts with the header. |
| Message.MessageLines | smtpbuflog.py:159-169 | Splitting the composed mail at CRLF gives the header lines, the count lines, an empty line and the records, one per line. |
| Message.PendingLineIffPending | smtpbuflog.py:159-168 | The line after the included count is `Pending messages:  N` exactly when N > 0. Otherwise it is the empty separator line. The records are the last lines. |
| Message.DecodeCompose | smtpbuflog.py:159-169 | Decoding a composed mail gives back the sender, the recipients, the subject, both counts and every record. |
| Strings.ParseNatToString | smtpbuflog.py:159 | Reading the decimal rendering of a count gives back the count. |
| Strings.SplitJoin | smtpbuflog.py:168 | Splitting the CRLF-joined records at CRLF gives back the records, when no record contains a CR. |
| Handler.BufferingSmtpHandler.ProcessRecordset | smtpbuflog.py:117-126 | A drain, then a send when the staging queue is non-empty. In that case exactly one mail, carrying the drained batch, is appended, and the last-send time becomes the reading after the send. An empty drain sends nothing and leaves the last-send time unchanged. The invariant is kept. |
| Handler.BufferingSmtpHandler.Close | smtpbuflog.py:86-94 | Afterwards the handler is inactive and the drain window is min(0.25 s, old window) ≤ 0.25 s. One drain-and-send cycle runs. When the window holds a clock check for each record queued at the call, every record staged or queued at the call goes out in the final batch, first and in order, whatever producers add meanwhile. Without arrivals, that drain also leaves the intake queue empty. |
| Schedule.Decide | smtpbuflog.py:106-114 | With no send yet, the worker always processes. Otherwise it processes if and only if now > last + send interval. Any sleep is non-negative and lasts until max(later, next send time). |
| Schedule.SleepIsTimeUntilNext | smtpbuflog.py:108-114 | When no send is due, the sleep equals the snapshot's time until the next send. |
| Schedule.ProcessShowsNoWait | smtpbuflog.py:108-110 | Whenever the worker processes, the snapshot shows no wait. |
| Schedule.BoundaryInstant | smtpbuflog.py:109 | At exactly one send interval after a send, the snapshot shows no wait but the worker sleeps (for zero) instead of sending. |
| Handler.BufferingSmtpHandler.RunIteration | smtpbuflog.py:106-115 | An inactive handler does nothing. A due send processes, then sleeps the poll interval. Otherwise the worker sleeps the time until the next send, and the queues, outbox and last-send time are unchanged. A mail goes out only when a send was due; it carries the drained batch, and the last-send time changes only with it. A send keeps the sends more than a send interval apart when the clock does not run backwards. With nothing buffered and no producer activity, nothing is sent. |
| Handler.BufferingSmtpHandler.Run | smtpbuflog.py:103-115 | Over any sequence of wake-ups, every sleep is non-negative. Sends stay more than a send interval apart when the clock does not run backwards. With nothing buffered and no producer activity, no mail is sent and the last-send time stays unchanged. The mails added during the run carry, batch by batch and in order, exactly the records sent during it. |
| Schedule.TimeSinceLast | smtpbuflog.py:30-36 | Present if and only if a mail was sent, in which case last + result = now. |
| Schedule.TimeUntilNext | smtpbuflog.py:38-45 | Non-negative, and 0 when nothing was sent. Otherwise now + result reaches the next send time, and equals it whenever the result is positive. |
| Handler.BufferingSmtpHandler.State | smtpbuflog.py:23-55 | pending = \|intake\| + \|staging\|. The time until the next send is non-negative, 0 when nothing was sent, and otherwise max(now, last + send interval) − now. The time since the last send is present if and only if one was sent, and then last + result = now. The recipients are the comma-joined list. |
| Handler.BufferingSmtpHandler.SentRecordsWereMailed | smtpbuflog.py:141-178 | Records were sent exactly when some mail went out, and there are never more mails than records sent. |
| Handler.BufferingSmtpHandler.PendingIsUnsent | smtpbuflog.py:47 | The pending count is exactly the number of records emitted and not yet sent. |

## Left out

- The SMTP session (connect, STARTTLS, login, `sendmail`, quit) is not modelled beyond appending its parameters and the message to the outbox. A transport failure, and the exception it would raise out of the worker, are not modelled.
- Threads, the lock and the daemon thread are not modelled. Producers and the worker interleave only at the points the model fixes: `Emit` between worker steps, and `arrivals` at the start of each drain round. `close` running concurrently with the worker loop is not modelled.
- The real clock and `time.sleep` are replaced by clock readings given as inputs. A sleep is returned, not performed. The drain's 0.1 s back-off shows up only through the readings.
- Time is in whole milliseconds, not floating-point seconds. The `datetime` rendering of the snapshot's times, and its `'(none sent yet)'` string, are left out. The snapshot keeps only the numbers.
- The snapshot's fixed texts (`'Poll: {}s, Send: {}s'`) are reduced to the numbers they show.
- The `logging.Handler` machinery (`format`, the base-class `__init__` and `close`) is not modelled. Records are already formatted strings.
- `KeyboardInterrupt` and `SystemExit` handling in `_process_recordset` and `_send_records_from_q` is not modelled.
- The intake queue, the lock and the last-send time are class attributes in the source, shared by every instance. Here they belong to the one handler modelled.
- Handler.BufferingSmtpHandler.constructor: the source's defaults `host='localhost'`, `TLS=False` and `credentials=None` are not modelled. Every caller passes all three.
- The `test()` demonstration at the end of `smtpbuflog.py` is not modelled.
- Drain.DrainFrom: the drain is bounded by the clock readings supplied. A drain whose readings never reach the deadline is excluded by `CoversWindow`.
- Handler.BufferingSmtpHandler.Run: it states the loop's invariants (non-negative sleeps, spacing, the mail log, no mail without records), not the state after each wake-up; `RunIteration` states each wake-up.
