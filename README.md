# System Fusion relay control, modelled in Dafny

This project models `CYSFControl`, the System Fusion (YSF) control layer of
MMDVMHost, as a Dafny class. The layer sits between the modem and the
network. It has five parts:

- **RF session.** Frames from the modem are classified by their decoded FICH
  (frame information channel). A call is started, relayed frame by frame
  and ended. Bit-error statistics are counted, and the caller and the called
  party are resolved from the reassembled payload.
- **Network session.** One network frame is polled per tick. The first frame
  of a network call starts a call, every frame restarts a watchdog, and an
  end-of-transmission frame or an expired watchdog ends the call.
- **Output queue.** A 5000-byte queue holds length-prefixed records, one per
  frame. RF frames are queued for repeat (duplex only), network frames are
  queued for the modem, and the modem drains one record per read.
- **Four timers.** These are the RF timeout, the network timeout, the network
  watchdog (1500 ms) and the holdoff (500 ms). The holdoff delays draining the
  queue after a network call starts.
- **Cleanup.** Ending a network call clears the display and resets the
  network addressing. Ending an RF call does so only when no network call is
  in progress.

Files:

- `ysf_defines.dfy` holds the shared vocabulary: the byte type, the frame
  tags, and the decoded FICH and payload results passed in by the
  collaborators.
- `timers.dfy` holds the timer, counted in milliseconds.
- `ring_buffer.dfy` holds the byte queue, seen through its contents.
- `records.dfy` holds the record framing of the queue, with its round trip.
  Parsing the bytes yields back the records pushed, in order.
- `routing.dfy` holds the pure decisions of the RF path: identity resolution
  and the per-frame bit budget.
- `ysf_control.dfy` holds the control class and the dispatch function
  `Classify`.

The class `Control` keeps the fields of the C++ class and updates them in
place: `rfState`, `netState`, the frame and bit counters, `source`, `dest`,
the queue and the four timers. The collaborator calls are appended to a
`trace` of events, in the order YSFControl.cpp makes them. These are the
display calls, the network transport's write and reset, and the payload
reassembler's reset. The trace also holds the log lines that carry call
statistics (lost, end of transmission, watchdog expiry) and the queue
overflow error. A ghost field `pending` lists the records in
the queue. The invariant `Valid()` ties `pending` to the queue bytes and keeps
the facts below, and every method preserves it:

- the bit counter is at least 1 during an RF call, so the bit-error rate
  divisor is never zero;
- while listening, no identity is held and no RF timeout runs;
- a network timeout runs only during a network call.

`WriteModem` is specified against `Classify`. The specification of each
method states its whole new state, except `Clock` on a tick that polls a
network frame (see "Left out"). In addition, the queue's records come back in FIFO
order with their bytes intact (`ReadModem`, `QueueParses`).

## Model

| member | source | states |
|---|---|---|
| YsfControl.Classify | YSFControl.cpp:61-93 | A lost frame ends a call in progress and is ignored otherwise. Any decoded FICH other than a terminator starts a call while listening, and nothing else does. Inside a call every non-lost frame is relayed, by the kind its FICH gives it. All of these are stated as if-and-only-ifs. |
| YsfControl.Control.constructor | YSFControl.cpp:27-51 | Listening and idle, with zero counters, no identity and an empty queue of capacity 5000. The RF and network timeouts are set to the configured seconds, the watchdog to 1500 ms and the holdoff to 500 ms, and none of them runs. |
| YsfControl.Control.WriteModem | YSFControl.cpp:57-275 | The result is true exactly when the frame was relayed and did not end the call. An ignored frame changes nothing. A lost frame in a call ends the call and reports the statistics. A relayed frame: starts a call when `Classify` says so (counters reset, bits 1, RF timeout started, holdoff stopped); adds exactly one to the frame count; is retagged DATA or EOT with byte 1 zeroed and its body kept as received (the body transforms are left out); and has its effect on identity, statistics, network output, queue and display stated per kind. |
| YsfControl.Control.RelayInCall | YSFControl.cpp:95-272 | Inside a call the FICH picks the header, terminator, communications or erasure handling. The frame count grows by one, and the result is false only for a terminator. The state and trace are given per kind. |
| YsfControl.Control.StartRfCall | YSFControl.cpp:80-86 | Entering an RF call: frames 0, errors 0, bits 1, RF timeout restarted, holdoff stopped, payload reset, state AUDIO. |
| YsfControl.Control.RelayHeader | YSFControl.cpp:96-141 | The header, under the identity held before it, is passed to `ForwardToNetwork` (sent only with a network and an unexpired RF timeout) and, in duplex, to `QueueRf` (queued only while the network is idle, the RF timeout has not expired and the record fits, with an overflow report when only room is lacking). The identity is then resolved from the header (`ResolveFromHeader`) and shown. |
| YsfControl.Control.RelayTerminator | YSFControl.cpp:142-167 | The terminator is retagged EOT and passed to `ForwardToNetwork` (sent only with a network and an unexpired RF timeout) and, in duplex, to `QueueRf` (queued only while the network is idle, the RF timeout has not expired and the record fits, with an overflow report when only room is lacking). The statistics (frames, errors x 100, bits) are reported, and the call ends as `EndRf` does. |
| YsfControl.Control.RelayCommunications | YSFControl.cpp:168-255 | Errors and bits grow by `FrameScore` of the data type. Unknown identity fields are filled in (`ResolveFromData`) and shown only when one became known. Then the frame, under the new identity, is passed to `ForwardToNetwork` (sent only with a network and an unexpired RF timeout) and, in duplex, to `QueueRf` (queued only while the network is idle, the RF timeout has not expired and the record fits, with an overflow report when only room is lacking). |
| YsfControl.Control.FillIdentity | YSFControl.cpp:207-240 | The identity becomes `ResolveFromData`'s. A display call is made exactly when the change flag is raised. |
| YsfControl.Control.Relay | YSFControl.cpp:256-272 | The common tail of a relayed frame: tag set, byte 1 zeroed, and the body after the two header bytes kept as received (the body transforms are left out). The frame is passed to `ForwardToNetwork` (sent only with a network and an unexpired RF timeout) and, in duplex, to `QueueRf` (queued only while the network is idle, the RF timeout has not expired and the record fits, with an overflow report when only room is lacking). |
| YsfControl.Control.ReadModem | YSFControl.cpp:277-294 | Returns 0 and changes nothing when the queue is empty or the holdoff runs. Otherwise it removes exactly the oldest record: it returns the record's length byte and copies the record's bytes to the output. |
| YsfControl.Control.QueueParses | YSFControl.cpp:403-405 | The queue bytes split at their length bytes into exactly the pending records, oldest first. |
| YsfControl.Control.EndRf | YSFControl.cpp:296-317 | Listening, RF timeout stopped, identity released, payload reset. The display is cleared and the network reset only when no network call is in progress. |
| YsfControl.Control.EndNet | YSFControl.cpp:319-330 | Idle, network timeout and watchdog stopped, display cleared, network reset when there is a network. |
| YsfControl.Control.PollNetwork | YSFControl.cpp:332-361 | With no frame, or during an RF call while the network is idle, nothing changes. Otherwise the frame is accepted as `AcceptNetFrame` states. |
| YsfControl.Control.AcceptNetFrame | YSFControl.cpp:342-360 | The watchdog restarts. A frame arriving while no network timeout runs is the first of a call: it is shown as unknown, and it starts the network timeout and the holdoff and resets the frame count. The count grows by one. The frame is queued only when the network timeout has not expired and the record fits; when only room is lacking it is dropped with an overflow report. An EOT frame reports the count and ends the call. |
| YsfControl.Control.NoteNetFrame | YSFControl.cpp:342-353 | The first-frame test is whether the network timeout runs, not the network state. The expiry seen by the queue push is the old one on a continuing call and false on a new call. |
| YsfControl.Control.StartNetCall | YSFControl.cpp:344-351 | Network AUDIO, frame count 0, network timeout and holdoff started, display shows an unknown network caller. |
| YsfControl.Control.Clock | YSFControl.cpp:363-383 | On every tick: afterwards the holdoff has not expired and a network call in progress has an unexpired watchdog. The RF state is kept, the RF timeout advances only while running, and the queue gains at most the polled frame's record. Without a polled frame or without a network, the new state is exact: frame count and queue unchanged, the holdoff stopped once it reaches 500 ms, the network timeout advancing while running, and a watchdog reaching 1500 ms during a network call reporting the expiry and ending the call as `EndNet` does. Without such an expiry the trace is unchanged. |
| YsfControl.Control.Tick | YSFControl.cpp:368-382 | The exact timer step: the holdoff is stopped once it reaches 500 ms, and the RF and network timeouts advance while running. During a network call the watchdog advances, and when it reaches 1500 ms the expiry is reported and the call ends as `EndNet` does. |
| YsfControl.Control.TickHoldoff | YSFControl.cpp:368-370 | The holdoff runs on only while its elapsed time stays under 500 ms. Otherwise it is stopped. |
| YsfControl.Control.TickNetwork | YSFControl.cpp:373-382 | The network timeout advances. During a network call the watchdog advances, and it ends the call when it expires. |
| YsfControl.Control.QueueRf | YSFControl.cpp:385-406 | A record is appended only when the network is idle, the RF timeout has not expired and the length byte plus record fit. Otherwise the queue is unchanged, with an overflow report when only room was lacking. |
| YsfControl.Control.QueueNet | YSFControl.cpp:408-426 | A record is appended only when the network timeout has not expired and the record fits. Otherwise the queue is unchanged, with an overflow report when only room was lacking. |
| YsfControl.Control.PushRecord | YSFControl.cpp:403-405 | The bytes gain the length byte then the record, and the pending records gain the record at the end. |
| YsfControl.Control.ForwardToNetwork | YSFControl.cpp:428-439 | With a network and an unexpired RF timeout, the payload after the two header bytes is written with the current identity and an end flag set exactly for an EOT tag. Otherwise nothing happens. |
| Routing.ResolveFromHeader | YSFControl.cpp:114-123 | A group call goes to ALL. A reassembled header overwrites the calling identity, and the destination of a non-group call. One that failed to reassemble keeps both. |
| Routing.ResolveFromData | YSFControl.cpp:207-225 | Only a field still unknown is assigned: the destination becomes ALL for a group call, and otherwise comes from the payload when it is valid. The change flag is raised if and only if an unknown field became known. |
| Routing.ResolveFromDataSettles | YSFControl.cpp:207-225 | Resolving a second time from the same frame changes nothing and raises no flag. |
| Routing.DataValidity | YSFControl.cpp:177-205 | Full-rate voice never counts as reassembled. V/D modes 1 and 2 and data full-rate take their reassembly result. Any other data type keeps the decoded FICH's validity, which is true. |
| Routing.FrameScore | YSFControl.cpp:177-205 | Bits are 235 iff V/D mode 1, 135 iff V/D mode 2, and 720 iff full-rate voice other than frame 0 of total 1; they are 0 in every other case. Audio errors count exactly when bits do. |
| Records.Parse | YSFControl.cpp:288-291 | The records parsed from the bytes are framable and, framed again, give back the bytes. |
| Records.ParseFlatten | YSFControl.cpp:403-405 | Parsing the bytes of pushed records gives those records back. |
| Records.FlattenAppend | YSFControl.cpp:403-405 | Pushing a record appends its frame to the bytes. |
| Records.ParsePush | YSFControl.cpp:403-405 | Pushing a record onto well-framed bytes appends it to the parsed records. |
| Records.HoldsPush | YSFControl.cpp:423-425 | Pushing a record of the common length keeps bytes and records in correspondence. |
| Records.HoldsPop | YSFControl.cpp:288-291 | Non-empty queue bytes start with the oldest record's length byte and bytes. The rest holds the remaining records. |
| Timers.Timer.HasExpired | YSFControl.cpp:392 | Expiry is reported only for a running timer with a non-zero timeout whose elapsed time reached it. |
| Timers.Timer.Start | YSFControl.cpp:83 | Restarts from zero. It runs only when the timeout is non-zero, and it has not expired. |
| Timers.Timer.Stop | YSFControl.cpp:84 | Not running, elapsed zero. |
| Timers.Timer.Clock | YSFControl.cpp:372-373 | Elapsed time grows by the tick only while running. |
| RingBuffers.RingBuffer.FreeSpace | YSFControl.cpp:397 | Free space plus held bytes is the capacity. |
| RingBuffers.RingBuffer.AddData | YSFControl.cpp:403-405 | All bytes are appended when they fit, and nothing otherwise. |
| RingBuffers.RingBuffer.GetData | YSFControl.cpp:289-291 | The n oldest bytes are removed and returned when held, and nothing otherwise. |

## Left out

- The raw-frame dump (`openFile`, `writeFile`, `closeFile`, YSFControl.cpp:441-479, and the `DUMP_YSF` blocks): file I/O on wall-clock names, compiled out.
- Float formatting of seconds and bit-error rates in log lines. Only the integers behind them are recorded (frames, errors x 100, bits). The log lines without statistics (received header/data from ...) are not recorded: the display call beside each carries the same identities.
- The byte-level transforms of the frame body at `data + 2`. These are sync stamping, payload regeneration and the busy-flag FICH re-encode in duplex. The model forwards and queues the body as received, because the FICH and payload codecs are not part of this model.
- The FICH decoder, the payload reassembler (including the uplink and downlink callsigns set in the constructor), the network transport, the display and the logger. Their results are inputs (`Fich`, `PayloadResult`, the polled frame) and their calls are trace events.
- The timer and ring-buffer implementations are not part of this model. The timer is taken to count milliseconds, to start only with a non-zero timeout and to report expiry only while running. The ring buffer is its contents, with free space being capacity minus length.
- `YSF_FRAME_LENGTH_BYTES` is defined in a header that is not part of this model. It is a constructor parameter, and the record length is that plus 2, held in a byte (modulo 256).
- The tag byte values are taken as three distinct constants.
- YsfControl.Control.WriteModem: the frame, error and bit counters are unbounded, so 32-bit wrap-around of `m_rfFrames`, `m_rfErrs`, `m_rfBits` and of `m_rfErrs * 100` is not modelled.
- YsfControl.Control.AcceptNetFrame: the network frame counter is unbounded, so 32-bit wrap-around of `m_netFrames` is not modelled.
- YsfControl.Control.PollNetwork: the polled frame is required to be at least a record long. YSFControl.cpp copies a record's worth of bytes from its 200-byte read buffer whatever length the read returned.
- YsfControl.Control.Clock: with a polled frame its contract states properties of the tick rather than the whole new state. The exact transition is `PollNetwork` followed by `Tick`, each specified in full.
- `m_source` and `m_dest` point into the payload reassembler's storage in the C++ code. Here they are owned optional strings, released when the RF call ends.
