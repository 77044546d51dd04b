/** The System Fusion relay control layer: an RF session fed by modem frames,
    a network session fed by frames polled once per tick, a bounded output
    queue of length-prefixed records drained toward the modem, and four
    timers (RF timeout, network timeout, network watchdog, holdoff). */
module YsfControl {
  import opened YsfDefines
  import opened Timers
  import opened RingBuffers
  import opened Records
  import opened Routing

  const QUEUE_CAPACITY: nat := 5000
  const WATCHDOG_MS: nat := 1500
  const HOLDOFF_MS: nat := 500

  datatype RfState = RfListening | RfAudio
  datatype NetState = NetIdle | NetAudio

  /** Calls into the display, the log and the network transport, in order. */
  datatype Event =
    | NetWrite(source: Option<string>, dest: Option<string>, payload: seq<byte>, end: bool)
    | NetReset
    | PayloadReset
    | ShowCall(shownSource: string, shownDest: string, origin: string)
    | ClearCall
    | RfLost(frames: nat, errs100: nat, bits: nat)
    | RfEnd(frames: nat, errs100: nat, bits: nat)
    | NetEnd(frames: nat)
    | WatchdogExpired(frames: nat)
    | QueueOverflow

  /** How a modem frame inside a call is handled, chosen by its FICH. */
  datatype FrameKind = HeaderFrame | TerminatorFrame | CommunicationsFrame | ErasureFrame

  /** What a modem frame does to the RF session: nothing, end the call as
      lost, or get relayed (after starting a call, when starts is set). */
  datatype Disposition = Ignored | LostCall | Relayed(starts: bool, kind: FrameKind)

  function KindOf(fich: Fich): FrameKind
  {
    if !fich.valid then ErasureFrame
    else match fich.fi
      case FiHeader => HeaderFrame
      case FiTerminator => TerminatorFrame
      case FiCommunications => CommunicationsFrame
      case FiTest => CommunicationsFrame
  }

  /** A lost frame ends a call in progress and is otherwise ignored. Any
      decoded FICH other than a terminator starts a call while listening,
      whatever its frame indicator; nothing else does, so outside a call every
      other frame is dropped. Inside a call every frame other than a lost one
      is relayed, as an erasure when its FICH did not decode. */
  function Classify(tag: byte, rf: RfState, fich: Fich): (d: Disposition)
    ensures d == LostCall <==> tag == TAG_LOST && rf == RfAudio
    ensures d.Relayed? && d.starts <==>
      tag != TAG_LOST && rf == RfListening && fich.valid && fich.fi != FiTerminator
    ensures d == Ignored <==>
      rf == RfListening && (tag == TAG_LOST || !fich.valid || fich.fi == FiTerminator)
    ensures d.Relayed? ==> d.kind == KindOf(fich)
  {
    if tag == TAG_LOST then
      if rf == RfAudio then LostCall else assert rf == RfListening; Ignored
    else if rf == RfListening && !(fich.valid && fich.fi != FiTerminator) then
      Ignored
    else
      Relayed(rf == RfListening, KindOf(fich))
  }

  class Control {
    /** Bytes of a frame after its two-byte tag and reserved field. */
    const frameLength: nat
    /** The record length byte, frameLength + 2 held in an unsigned char. */
    const recLen: byte
    const hasNetwork: bool
    const duplex: bool

    const queue: RingBuffer
    const rfTimeoutTimer: Timer
    const netTimeoutTimer: Timer
    const networkWatchdog: Timer
    const holdoffTimer: Timer

    var rfState: RfState
    var netState: NetState
    var rfFrames: nat
    var rfErrs: nat
    var rfBits: nat
    var netFrames: nat
    var source: Option<string>
    var dest: Option<string>
    /** Display, log and network calls made so far. */
    var trace: seq<Event>
    /** The records waiting in the output queue, oldest first. */
    ghost var pending: seq<seq<byte>>

    ghost predicate Valid()
      reads this, queue, rfTimeoutTimer, netTimeoutTimer, networkWatchdog, holdoffTimer
    {
      rfTimeoutTimer != netTimeoutTimer && rfTimeoutTimer != networkWatchdog
      && rfTimeoutTimer != holdoffTimer && netTimeoutTimer != networkWatchdog
      && netTimeoutTimer != holdoffTimer && networkWatchdog != holdoffTimer
      && rfTimeoutTimer.Valid() && netTimeoutTimer.Valid()
      && networkWatchdog.Valid() && holdoffTimer.Valid()
      && networkWatchdog.timeout == WATCHDOG_MS && holdoffTimer.timeout == HOLDOFF_MS
      && recLen as int == (frameLength + 2) % 256
      && queue.Valid() && queue.capacity == QUEUE_CAPACITY
      && Holds(queue.items, pending, recLen as nat)
      // the bit-error rate divisor is never zero during a call
      && (rfState == RfAudio ==> rfBits >= 1)
      && (rfState == RfListening ==> source.None? && dest.None? && !rfTimeoutTimer.running)
      && (rfState == RfAudio && rfTimeoutTimer.timeout > 0 ==> rfTimeoutTimer.running)
      && (netTimeoutTimer.running ==> netState == NetAudio)
      && (netState == NetAudio && netTimeoutTimer.timeout > 0 ==> netTimeoutTimer.running)
    }

    /** The queue's bytes, split at their length bytes, are the pending
        records in the order they were pushed. */
    lemma QueueParses()
      requires Valid()
      ensures Parse(queue.items) == Some(pending)
    {
      ParseFlatten(pending);
    }

    ghost predicate HasRoom()
      reads queue
      requires queue.Valid()
    {
      queue.FreeSpace() >= recLen as int + 1
    }

    ghost function Forwarded(frame: seq<byte>, id: Identity, expired: bool): seq<Event>
      requires |frame| >= 2
    {
      if hasNetwork && !expired then [NetWrite(id.source, id.dest, frame[2..], frame[0] == TAG_EOT)]
      else []
    }

    ghost function Queued(admitted: bool, room: bool, frame: seq<byte>): seq<seq<byte>>
      requires |frame| >= recLen as int
    {
      if admitted && room then [frame[..recLen]] else []
    }

    ghost function Overflowed(admitted: bool, room: bool): seq<Event>
    {
      if admitted && !room then [QueueOverflow] else []
    }

    ghost function Cleared(): seq<Event>
    {
      [ClearCall] + (if hasNetwork then [NetReset] else [])
    }

    ghost function EndRfEvents(ns: NetState): seq<Event>
    {
      [PayloadReset] + (if ns == NetIdle then Cleared() else [])
    }

    constructor (frameLength: nat, hasNetwork: bool, duplex: bool, timeout: nat)
      ensures Valid()
      ensures this.frameLength == frameLength && this.hasNetwork == hasNetwork && this.duplex == duplex
      ensures fresh(queue) && fresh(rfTimeoutTimer) && fresh(netTimeoutTimer)
      ensures fresh(networkWatchdog) && fresh(holdoffTimer)
      ensures rfTimeoutTimer.timeout == timeout * 1000 && netTimeoutTimer.timeout == timeout * 1000
      ensures !rfTimeoutTimer.running && !netTimeoutTimer.running
      ensures !networkWatchdog.running && !holdoffTimer.running
      ensures rfState == RfListening && netState == NetIdle
      ensures rfFrames == 0 && netFrames == 0 && rfErrs == 0 && rfBits == 0
      ensures source.None? && dest.None? && queue.items == [] && trace == []
    {
      this.frameLength := frameLength;
      recLen := ((frameLength + 2) % 256) as byte;
      this.hasNetwork := hasNetwork;
      this.duplex := duplex;
      queue := new RingBuffer(QUEUE_CAPACITY);
      rfState := RfListening;
      netState := NetIdle;
      rfTimeoutTimer := new Timer(timeout * 1000);
      netTimeoutTimer := new Timer(timeout * 1000);
      networkWatchdog := new Timer(WATCHDOG_MS);
      holdoffTimer := new Timer(HOLDOFF_MS);
      rfFrames, netFrames, rfErrs, rfBits := 0, 0, 0, 0;
      source, dest := None, None;
      trace := [];
      pending := [];
    }

    /** Handles one frame from the modem; true when it was relayed as part
        of a call that goes on. */
    method WriteModem(data: array<byte>, fich: Fich, payload: PayloadResult) returns (consumed: bool)
      requires Valid() && data.Length == frameLength + 2
      modifies this`rfState, this`rfFrames, this`rfErrs, this`rfBits, this`source, this`dest
      modifies this`trace, this`pending, data, queue, rfTimeoutTimer, holdoffTimer
      ensures Valid()
      ensures consumed == (Classify(old(data[0]), old(rfState), fich).Relayed?
                           && Classify(old(data[0]), old(rfState), fich).kind != TerminatorFrame)
      ensures Classify(old(data[0]), old(rfState), fich) == Ignored ==>
        unchanged(this) && unchanged(data) && unchanged(queue)
        && unchanged(rfTimeoutTimer) && unchanged(holdoffTimer)
      ensures Classify(old(data[0]), old(rfState), fich) == LostCall ==>
        data[..] == old(data[..]) && unchanged(queue) && unchanged(holdoffTimer)
        && rfState == RfListening && source.None? && dest.None? && !rfTimeoutTimer.running
        && rfFrames == old(rfFrames) && rfErrs == old(rfErrs) && rfBits == old(rfBits)
        && trace == old(trace) + [RfLost(rfFrames, rfErrs * 100, rfBits)] + EndRfEvents(netState)
      ensures var d := Classify(old(data[0]), old(rfState), fich);
        d.Relayed? ==>
          var starts := d.starts;
          var errs0 := if starts then 0 else old(rfErrs);
          var bits0 := if starts then 1 else old(rfBits);
          var expired := !starts && old(rfTimeoutTimer.HasExpired());
          var admitted := duplex && netState == NetIdle && !expired;
          var room := old(HasRoom());
          var was := old(Identity(source, dest));
          var got := Identity(payload.source, payload.dest);
          var t := if starts then old(trace) + [PayloadReset] else old(trace);
          rfFrames == (if starts then 0 else old(rfFrames)) + 1
          && data[0] == (if d.kind == TerminatorFrame then TAG_EOT else TAG_DATA)
          && data[1] == 0 && data[2..] == old(data[2..])
          && rfState == (if d.kind == TerminatorFrame then RfListening else RfAudio)
          && pending == old(pending) + Queued(admitted, room, data[..])
          && (starts ==> !holdoffTimer.running && holdoffTimer.elapsed == 0)
          && (!starts ==> unchanged(holdoffTimer))
          && (d.kind == TerminatorFrame ==> !rfTimeoutTimer.running)
          && (d.kind != TerminatorFrame && starts ==>
                rfTimeoutTimer.running == (rfTimeoutTimer.timeout > 0) && rfTimeoutTimer.elapsed == 0)
          && (d.kind != TerminatorFrame && !starts ==> unchanged(rfTimeoutTimer))
          && (d.kind == CommunicationsFrame ==>
                var score := FrameScore(fich.dt, fich.fn, fich.ft, payload.audioErrs);
                rfErrs == errs0 + score.errs && rfBits == bits0 + score.bits)
          && (d.kind != CommunicationsFrame ==> rfErrs == errs0 && rfBits == bits0)
          && (d.kind == HeaderFrame ==>
                Identity(source, dest) == ResolveFromHeader(fich.cm, payload.headerValid, was, got)
                && trace == t + Forwarded(data[..], was, expired)
                   + Overflowed(admitted, room) + [ShowCall(Shown(source), Shown(dest), "R")])
          && (d.kind == TerminatorFrame ==>
                source.None? && dest.None?
                && trace == t + Forwarded(data[..], was, expired) + Overflowed(admitted, room)
                   + [RfEnd(rfFrames, errs0 * 100, bits0)] + EndRfEvents(netState))
          && (d.kind == CommunicationsFrame ==>
                var (id, changed) := ResolveFromData(fich.cm, DataValidity(fich.dt, payload.dataValid), was, got);
                var shown := if changed then t + [ShowCall(Shown(source), Shown(dest), "R")] else t;
                Identity(source, dest) == id
                && trace == shown + Forwarded(data[..], id, expired) + Overflowed(admitted, room))
          && (d.kind == ErasureFrame ==>
                Identity(source, dest) == was
                && trace == t + Forwarded(data[..], was, expired) + Overflowed(admitted, room))
    {
      var tag := data[0];

      if tag == TAG_LOST && rfState == RfAudio {
        trace := trace + [RfLost(rfFrames, rfErrs * 100, rfBits)];
        EndRf();
        return false;
      }

      if tag == TAG_LOST {
        return false;
      }

      var valid := fich.valid;

      if valid && rfState == RfListening {
        if fich.fi == FiTerminator {
          return false;
        }
        StartRfCall();
      }

      if rfState != RfAudio {
        return false;
      }

      consumed := RelayInCall(data, fich, payload);
    }

    /** Relays a frame inside a call, by the kind its FICH gives it; true
        unless the frame ended the call. */
    method RelayInCall(data: array<byte>, fich: Fich, payload: PayloadResult) returns (consumed: bool)
      requires Valid() && rfState == RfAudio && data.Length == frameLength + 2
      modifies this`rfState, this`rfFrames, this`rfErrs, this`rfBits, this`source, this`dest
      modifies this`trace, this`pending, data, queue, rfTimeoutTimer
      ensures Valid()
      ensures var kind := KindOf(fich);
        var expired := old(rfTimeoutTimer.HasExpired());
        var admitted := duplex && netState == NetIdle && !expired;
        var room := old(HasRoom());
        var was := old(Identity(source, dest));
        var got := Identity(payload.source, payload.dest);
        consumed == (kind != TerminatorFrame)
        && rfFrames == old(rfFrames) + 1
        && data[0] == (if kind == TerminatorFrame then TAG_EOT else TAG_DATA)
        && data[1] == 0 && data[2..] == old(data[2..])
        && rfState == (if kind == TerminatorFrame then RfListening else RfAudio)
        && pending == old(pending) + Queued(admitted, room, data[..])
        && (kind == TerminatorFrame ==> !rfTimeoutTimer.running)
        && (kind != TerminatorFrame ==> unchanged(rfTimeoutTimer))
        && (kind == CommunicationsFrame ==>
              var score := FrameScore(fich.dt, fich.fn, fich.ft, payload.audioErrs);
              rfErrs == old(rfErrs) + score.errs && rfBits == old(rfBits) + score.bits)
        && (kind != CommunicationsFrame ==> rfErrs == old(rfErrs) && rfBits == old(rfBits))
        && (kind == HeaderFrame ==>
              Identity(source, dest) == ResolveFromHeader(fich.cm, payload.headerValid, was, got)
              && trace == old(trace) + Forwarded(data[..], was, expired)
                 + Overflowed(admitted, room) + [ShowCall(Shown(source), Shown(dest), "R")])
        && (kind == TerminatorFrame ==>
              source.None? && dest.None?
              && trace == old(trace) + Forwarded(data[..], was, expired) + Overflowed(admitted, room)
                 + [RfEnd(rfFrames, old(rfErrs) * 100, old(rfBits))] + EndRfEvents(netState))
        && (kind == CommunicationsFrame ==>
              var (id, changed) := ResolveFromData(fich.cm, DataValidity(fich.dt, payload.dataValid), was, got);
              var shown := if changed then old(trace) + [ShowCall(Shown(source), Shown(dest), "R")] else old(trace);
              Identity(source, dest) == id
              && trace == shown + Forwarded(data[..], id, expired) + Overflowed(admitted, room))
        && (kind == ErasureFrame ==>
              Identity(source, dest) == was
              && trace == old(trace) + Forwarded(data[..], was, expired) + Overflowed(admitted, room))
    {
      var valid := fich.valid;
      if valid && fich.fi == FiHeader {
        RelayHeader(data, fich, payload);
        consumed := true;
      } else if valid && fich.fi == FiTerminator {
        RelayTerminator(data);
        consumed := false;
      } else if valid {
        RelayCommunications(data, fich, payload);
        consumed := true;
      } else {
        rfFrames := rfFrames + 1;
        Relay(data, TAG_DATA);
        consumed := true;
      }
    }

    /** Enters a call: fresh statistics (bits seeded at 1), RF timeout
        started, holdoff stopped. */
    method StartRfCall()
      requires Valid() && rfState == RfListening
      modifies this`rfState, this`rfFrames, this`rfErrs, this`rfBits, this`trace
      modifies rfTimeoutTimer, holdoffTimer
      ensures Valid()
      ensures rfState == RfAudio && rfFrames == 0 && rfErrs == 0 && rfBits == 1
      ensures rfTimeoutTimer.running == (rfTimeoutTimer.timeout > 0) && rfTimeoutTimer.elapsed == 0
      ensures !holdoffTimer.running && holdoffTimer.elapsed == 0
      ensures trace == old(trace) + [PayloadReset]
    {
      rfFrames := 0;
      rfErrs := 0;
      rfBits := 1;
      rfTimeoutTimer.Start();
      holdoffTimer.Stop();
      trace := trace + [PayloadReset];
      rfState := RfAudio;
    }

    /** A header inside a call: relayed as data, then the identity is taken
        from it and shown. */
    method RelayHeader(data: array<byte>, fich: Fich, payload: PayloadResult)
      requires Valid() && rfState == RfAudio && data.Length == frameLength + 2
      modifies this`rfFrames, this`source, this`dest, this`trace, this`pending, data, queue
      ensures Valid()
      ensures rfFrames == old(rfFrames) + 1
      ensures data[0] == TAG_DATA && data[1] == 0 && data[2..] == old(data[2..])
      ensures Identity(source, dest) ==
        ResolveFromHeader(fich.cm, payload.headerValid, old(Identity(source, dest)), Identity(payload.source, payload.dest))
      ensures var admitted := duplex && netState == NetIdle && !rfTimeoutTimer.HasExpired();
        pending == old(pending) + Queued(admitted, old(HasRoom()), data[..])
        && trace == old(trace) + Forwarded(data[..], old(Identity(source, dest)), rfTimeoutTimer.HasExpired())
           + Overflowed(admitted, old(HasRoom())) + [ShowCall(Shown(source), Shown(dest), "R")]
    {
      rfFrames := rfFrames + 1;
      var valid := payload.headerValid;
      Relay(data, TAG_DATA);
      var id := ResolveFromHeader(fich.cm, valid, Identity(source, dest), Identity(payload.source, payload.dest));
      source, dest := id.source, id.dest;
      trace := trace + [ShowCall(Shown(source), Shown(dest), "R")];
    }

    /** A terminator inside a call: relayed as end of transmission, then the
        call's statistics are reported and the call ends. */
    method RelayTerminator(data: array<byte>)
      requires Valid() && rfState == RfAudio && data.Length == frameLength + 2
      modifies this`rfState, this`rfFrames, this`source, this`dest, this`trace, this`pending, data, queue, rfTimeoutTimer
      ensures Valid()
      ensures rfFrames == old(rfFrames) + 1
      ensures data[0] == TAG_EOT && data[1] == 0 && data[2..] == old(data[2..])
      ensures rfState == RfListening && source.None? && dest.None? && !rfTimeoutTimer.running
      ensures var expired := old(rfTimeoutTimer.HasExpired());
        var admitted := duplex && netState == NetIdle && !expired;
        pending == old(pending) + Queued(admitted, old(HasRoom()), data[..])
        && trace == old(trace) + Forwarded(data[..], old(Identity(source, dest)), expired)
           + Overflowed(admitted, old(HasRoom())) + [RfEnd(rfFrames, rfErrs * 100, rfBits)]
           + EndRfEvents(netState)
    {
      rfFrames := rfFrames + 1;
      Relay(data, TAG_EOT);
      trace := trace + [RfEnd(rfFrames, rfErrs * 100, rfBits)];
      EndRf();
    }

    /** Any other decoded frame inside a call: scored by its data type, its
        identity fields filled in where still unknown (shown when one became
        known), then relayed as data. */
    method RelayCommunications(data: array<byte>, fich: Fich, payload: PayloadResult)
      requires Valid() && rfState == RfAudio && data.Length == frameLength + 2
      modifies this`rfFrames, this`rfErrs, this`rfBits, this`source, this`dest, this`trace, this`pending, data, queue
      ensures Valid()
      ensures rfFrames == old(rfFrames) + 1
      ensures var score := FrameScore(fich.dt, fich.fn, fich.ft, payload.audioErrs);
        rfErrs == old(rfErrs) + score.errs && rfBits == old(rfBits) + score.bits
      ensures data[0] == TAG_DATA && data[1] == 0 && data[2..] == old(data[2..])
      ensures var admitted := duplex && netState == NetIdle && !rfTimeoutTimer.HasExpired();
        var (id, changed) := ResolveFromData(fich.cm, DataValidity(fich.dt, payload.dataValid),
                                             old(Identity(source, dest)), Identity(payload.source, payload.dest));
        Identity(source, dest) == id
        && pending == old(pending) + Queued(admitted, old(HasRoom()), data[..])
        && var shown := if changed then old(trace) + [ShowCall(Shown(source), Shown(dest), "R")] else old(trace);
           trace == shown + Forwarded(data[..], id, rfTimeoutTimer.HasExpired()) + Overflowed(admitted, old(HasRoom()))
    {
      rfFrames := rfFrames + 1;
      var score := FrameScore(fich.dt, fich.fn, fich.ft, payload.audioErrs);
      rfErrs := rfErrs + score.errs;
      rfBits := rfBits + score.bits;
      var valid := DataValidity(fich.dt, payload.dataValid);
      FillIdentity(fich.cm, valid, Identity(payload.source, payload.dest));
      Relay(data, TAG_DATA);
    }

    /** Fills in the identity fields still unknown, showing the call when one
        of them became known. */
    method FillIdentity(cm: CallMode, valid: bool, got: Identity)
      requires Valid() && rfState == RfAudio
      modifies this`source, this`dest, this`trace
      ensures Valid()
      ensures var (id, changed) := ResolveFromData(cm, valid, old(Identity(source, dest)), got);
        Identity(source, dest) == id
        && trace == (if changed then old(trace) + [ShowCall(Shown(source), Shown(dest), "R")] else old(trace))
    {
      var (id, changed) := ResolveFromData(cm, valid, Identity(source, dest), got);
      source, dest := id.source, id.dest;
      if changed {
        trace := trace + [ShowCall(Shown(source), Shown(dest), "R")];
      }
    }

    /** The common tail of every relayed frame: retag it, forward it to the
        network, and in duplex mode queue it for repeat. The body after the
        two header bytes is passed on as received: the sync, payload and
        FICH rewrites made by the codecs are not part of this model. */
    method Relay(data: array<byte>, tag: byte)
      requires Valid() && data.Length == frameLength + 2
      modifies this`trace, this`pending, data, queue
      ensures Valid()
      ensures data[0] == tag && data[1] == 0 && data[2..] == old(data[2..])
      ensures var admitted := duplex && netState == NetIdle && !rfTimeoutTimer.HasExpired();
        pending == old(pending) + Queued(admitted, old(HasRoom()), data[..])
        && trace == old(trace) + Forwarded(data[..], Identity(source, dest), rfTimeoutTimer.HasExpired())
           + Overflowed(admitted, old(HasRoom()))
    {
      data[0] := tag;
      data[1] := 0;
      ForwardToNetwork(data[..]);
      if duplex {
        QueueRf(data[..]);
      }
    }

    /** Drains the oldest record toward the modem, unless the queue is empty
        or the holdoff timer is running; returns its length (0 for nothing). */
    method ReadModem(out: array<byte>) returns (len: nat)
      requires Valid() && out.Length >= recLen as int
      modifies this`pending, queue, out
      ensures Valid()
      ensures old(queue.items) == [] || holdoffTimer.running ==>
        len == 0 && queue.items == old(queue.items) && out[..] == old(out[..])
      ensures old(queue.items) != [] && !holdoffTimer.running ==>
        old(pending) != [] && len == |old(pending)[0]| == recLen as int
        && out[..len] == old(pending)[0] && out[len..] == old(out[len..])
        && pending == old(pending)[1..]
        && old(queue.items)[0] as int == len && queue.items == old(queue.items)[1 + len..]
    {
      if queue.IsEmpty() {
        return 0;
      }
      if holdoffTimer.IsRunning() {
        return 0;
      }
      HoldsPop(queue.items, pending, recLen as nat);
      var _, head := queue.GetData(1);
      var n := head[0];
      var _, bytes := queue.GetData(n as nat);
      assert bytes == pending[0];
      forall i | 0 <= i < |bytes| {
        out[i] := bytes[i];
      }
      len := n as nat;
      pending := pending[1..];
    }

    /** Ends the RF call: listening again, RF timeout stopped, identity
        released; the display and the network addressing are reset only when
        no network call is in progress. */
    method EndRf()
      requires Valid()
      modifies this`rfState, this`source, this`dest, this`trace, rfTimeoutTimer
      ensures Valid()
      ensures rfState == RfListening && source.None? && dest.None?
      ensures !rfTimeoutTimer.running && rfTimeoutTimer.elapsed == 0
      ensures trace == old(trace) + EndRfEvents(netState)
    {
      rfState := RfListening;
      rfTimeoutTimer.Stop();
      trace := trace + [PayloadReset];
      source, dest := None, None;
      if netState == NetIdle {
        trace := trace + [ClearCall];
        if hasNetwork {
          trace := trace + [NetReset];
        }
      }
    }

    /** Ends the network call: idle again, network timeout and watchdog
        stopped, display cleared, network addressing reset. */
    method EndNet()
      requires Valid()
      modifies this`netState, this`trace, netTimeoutTimer, networkWatchdog
      ensures Valid()
      ensures netState == NetIdle && !netTimeoutTimer.running && !networkWatchdog.running
      ensures netTimeoutTimer.elapsed == 0 && networkWatchdog.elapsed == 0
      ensures trace == old(trace) + Cleared()
    {
      netState := NetIdle;
      netTimeoutTimer.Stop();
      networkWatchdog.Stop();
      trace := trace + [ClearCall];
      if hasNetwork {
        trace := trace + [NetReset];
      }
    }

    /** Processes the frame (if any) the network delivered this tick. */
    method PollNetwork(frame: Option<seq<byte>>)
      requires Valid() && hasNetwork
      requires frame.Some? ==> 1 <= |frame.value| && recLen as int <= |frame.value|
      modifies this`netState, this`netFrames, this`trace, this`pending, queue
      modifies netTimeoutTimer, networkWatchdog, holdoffTimer
      ensures Valid()
      ensures frame.None? || (old(rfState) != RfListening && old(netState) == NetIdle) ==>
        unchanged(this) && unchanged(queue) && unchanged(netTimeoutTimer)
        && unchanged(networkWatchdog) && unchanged(holdoffTimer)
      ensures frame.Some? && (old(rfState) == RfListening || old(netState) == NetAudio) ==>
        var f := frame.value;
        var first := !old(netTimeoutTimer.running);
        var eot := f[0] == TAG_EOT;
        var expired := !first && old(netTimeoutTimer.HasExpired());
        netFrames == (if first then 0 else old(netFrames)) + 1
        && netState == (if eot then NetIdle else NetAudio)
        && (first ==> holdoffTimer.running && holdoffTimer.elapsed == 0)
        && (!first ==> unchanged(holdoffTimer))
        && (eot ==> !netTimeoutTimer.running && !networkWatchdog.running)
        && (!eot ==> networkWatchdog.running && networkWatchdog.elapsed == 0)
        && (!eot && first ==>
              netTimeoutTimer.running == (netTimeoutTimer.timeout > 0) && netTimeoutTimer.elapsed == 0)
        && (!eot && !first ==> unchanged(netTimeoutTimer))
        && pending == old(pending) + Queued(!expired, old(HasRoom()), f)
        && var ov := Overflowed(!expired, old(HasRoom()));
           var t := if first then old(trace) + [ShowCall(UNKNOWN, UNKNOWN, "N")] else old(trace);
           (eot ==> trace == t + ov + [NetEnd(netFrames)] + Cleared())
           && (!eot ==> trace == t + ov)
    {
      if frame.None? {
        return;
      }
      if rfState != RfListening && netState == NetIdle {
        return;
      }
      AcceptNetFrame(frame.value);
    }

    /** Takes a polled network frame into the network session: the watchdog
        restarts, the first frame of a call starts it, the frame is queued
        for the modem, and an end-of-transmission frame ends the call. */
    method AcceptNetFrame(f: seq<byte>)
      requires Valid() && hasNetwork
      requires 1 <= |f| && recLen as int <= |f|
      modifies this`netState, this`netFrames, this`trace, this`pending, queue
      modifies netTimeoutTimer, networkWatchdog, holdoffTimer
      ensures Valid()
      ensures var first := !old(netTimeoutTimer.running);
        var eot := f[0] == TAG_EOT;
        var expired := !first && old(netTimeoutTimer.HasExpired());
        netFrames == (if first then 0 else old(netFrames)) + 1
        && netState == (if eot then NetIdle else NetAudio)
        && (first ==> holdoffTimer.running && holdoffTimer.elapsed == 0)
        && (!first ==> unchanged(holdoffTimer))
        && (eot ==> !netTimeoutTimer.running && !networkWatchdog.running)
        && (!eot ==> networkWatchdog.running && networkWatchdog.elapsed == 0)
        && (!eot && first ==>
              netTimeoutTimer.running == (netTimeoutTimer.timeout > 0) && netTimeoutTimer.elapsed == 0)
        && (!eot && !first ==> unchanged(netTimeoutTimer))
        && pending == old(pending) + Queued(!expired, old(HasRoom()), f)
        && var ov := Overflowed(!expired, old(HasRoom()));
           var t := if first then old(trace) + [ShowCall(UNKNOWN, UNKNOWN, "N")] else old(trace);
           (eot ==> trace == t + ov + [NetEnd(netFrames)] + Cleared())
           && (!eot ==> trace == t + ov)
    {
      NoteNetFrame();
      QueueNet(f);

      if f[0] == TAG_EOT {
        trace := trace + [NetEnd(netFrames)];
        EndNet();
      }
    }

    /** Counts a network frame: the watchdog restarts, and when no network
        timeout is running the frame is the first of a new call. */
    method NoteNetFrame()
      requires Valid()
      modifies this`netState, this`netFrames, this`trace, netTimeoutTimer, networkWatchdog, holdoffTimer
      ensures Valid()
      ensures var first := !old(netTimeoutTimer.running);
        netFrames == (if first then 0 else old(netFrames)) + 1
        && netState == NetAudio
        && networkWatchdog.running && networkWatchdog.elapsed == 0
        && (first ==> holdoffTimer.running && holdoffTimer.elapsed == 0
                      && netTimeoutTimer.running == (netTimeoutTimer.timeout > 0)
                      && netTimeoutTimer.elapsed == 0
                      && trace == old(trace) + [ShowCall(UNKNOWN, UNKNOWN, "N")])
        && (!first ==> unchanged(holdoffTimer) && unchanged(netTimeoutTimer) && trace == old(trace))
        && netTimeoutTimer.HasExpired() == (!first && old(netTimeoutTimer.HasExpired()))
    {
      networkWatchdog.Start();
      if !netTimeoutTimer.IsRunning() {
        StartNetCall();
      }
      netFrames := netFrames + 1;
    }

    /** Enters a network call: shown with both identities unknown, network
        timeout and holdoff started, frame count reset. */
    method StartNetCall()
      requires Valid() && !netTimeoutTimer.running
      modifies this`netState, this`netFrames, this`trace, netTimeoutTimer, holdoffTimer
      ensures Valid()
      ensures netState == NetAudio && netFrames == 0
      ensures netTimeoutTimer.running == (netTimeoutTimer.timeout > 0) && netTimeoutTimer.elapsed == 0
      ensures holdoffTimer.running && holdoffTimer.elapsed == 0
      ensures trace == old(trace) + [ShowCall(UNKNOWN, UNKNOWN, "N")]
    {
      trace := trace + [ShowCall(UNKNOWN, UNKNOWN, "N")];
      netTimeoutTimer.Start();
      holdoffTimer.Start();
      netState := NetAudio;
      netFrames := 0;
    }

    /** One tick: poll the network (when there is one), then advance the
        timers. */
    method Clock(ms: nat, frame: Option<seq<byte>>)
      requires Valid()
      requires frame.Some? ==> 1 <= |frame.value| && recLen as int <= |frame.value|
      modifies this`netState, this`netFrames, this`trace, this`pending, queue
      modifies rfTimeoutTimer, netTimeoutTimer, networkWatchdog, holdoffTimer
      ensures Valid()
      ensures !holdoffTimer.HasExpired()
      ensures netState == NetAudio ==> !networkWatchdog.HasExpired()
      ensures rfState == old(rfState)
      ensures rfTimeoutTimer.running == old(rfTimeoutTimer.running)
      ensures rfTimeoutTimer.elapsed == old(rfTimeoutTimer.elapsed) + (if rfTimeoutTimer.running then ms else 0)
      ensures pending == old(pending)
        || (hasNetwork && frame.Some? && pending == old(pending) + [frame.value[..recLen]])
      ensures frame.None? || !hasNetwork ==>
        netFrames == old(netFrames) && pending == old(pending) && queue.items == old(queue.items)
        && (var held := old(holdoffTimer.running) && old(holdoffTimer.elapsed) + ms < HOLDOFF_MS;
            holdoffTimer.running == held
            && holdoffTimer.elapsed == (if held then old(holdoffTimer.elapsed) + ms else 0))
        && var stale := old(netState) == NetAudio && old(networkWatchdog.running)
                        && old(networkWatchdog.elapsed) + ms >= WATCHDOG_MS;
           netState == (if stale then NetIdle else old(netState))
           && (stale ==> !netTimeoutTimer.running && !networkWatchdog.running
                         && trace == old(trace) + [WatchdogExpired(netFrames)] + Cleared())
           && (!stale ==> trace == old(trace)
                          && netTimeoutTimer.running == old(netTimeoutTimer.running)
                          && netTimeoutTimer.elapsed == old(netTimeoutTimer.elapsed)
                             + (if netTimeoutTimer.running then ms else 0)
                          && networkWatchdog.running == old(networkWatchdog.running)
                          && networkWatchdog.elapsed == old(networkWatchdog.elapsed)
                             + (if old(netState) == NetAudio && networkWatchdog.running then ms else 0))
    {
      if hasNetwork {
        PollNetwork(frame);
      }
      Tick(ms);
    }

    /** The timer part of a tick: the holdoff is stopped once it expires, the
        RF and network timeouts advance, and during a network call the
        watchdog advances and ends the call when it expires. */
    method Tick(ms: nat)
      requires Valid()
      modifies this`netState, this`trace, rfTimeoutTimer, netTimeoutTimer, networkWatchdog, holdoffTimer
      ensures Valid()
      ensures rfTimeoutTimer.running == old(rfTimeoutTimer.running)
      ensures rfTimeoutTimer.elapsed == old(rfTimeoutTimer.elapsed) + (if rfTimeoutTimer.running then ms else 0)
      ensures var held := old(holdoffTimer.running) && old(holdoffTimer.elapsed) + ms < HOLDOFF_MS;
        holdoffTimer.running == held && holdoffTimer.elapsed == (if held then old(holdoffTimer.elapsed) + ms else 0)
      ensures var stale := old(netState) == NetAudio && old(networkWatchdog.running)
                           && old(networkWatchdog.elapsed) + ms >= WATCHDOG_MS;
        netState == (if stale then NetIdle else old(netState))
        && (stale ==> !netTimeoutTimer.running && !networkWatchdog.running
                      && trace == old(trace) + [WatchdogExpired(netFrames)] + Cleared())
        && (!stale ==> trace == old(trace)
                       && netTimeoutTimer.running == old(netTimeoutTimer.running)
                       && netTimeoutTimer.elapsed == old(netTimeoutTimer.elapsed) + (if netTimeoutTimer.running then ms else 0)
                       && networkWatchdog.running == old(networkWatchdog.running)
                       && networkWatchdog.elapsed == old(networkWatchdog.elapsed)
                          + (if old(netState) == NetAudio && networkWatchdog.running then ms else 0))
    {
      TickHoldoff(ms);
      rfTimeoutTimer.Clock(ms);
      TickNetwork(ms);
    }

    /** The holdoff advances and is stopped once it has expired. */
    method TickHoldoff(ms: nat)
      requires holdoffTimer.Valid() && holdoffTimer.timeout == HOLDOFF_MS
      modifies holdoffTimer
      ensures holdoffTimer.Valid()
      ensures var held := old(holdoffTimer.running) && old(holdoffTimer.elapsed) + ms < HOLDOFF_MS;
        holdoffTimer.running == held && holdoffTimer.elapsed == (if held then old(holdoffTimer.elapsed) + ms else 0)
    {
      holdoffTimer.Clock(ms);
      if holdoffTimer.IsRunning() && holdoffTimer.HasExpired() {
        holdoffTimer.Stop();
      }
    }

    /** The network timeout advances; during a network call the watchdog
        advances too and, once it expires, ends the call. */
    method TickNetwork(ms: nat)
      requires Valid()
      modifies this`netState, this`trace, netTimeoutTimer, networkWatchdog
      ensures Valid()
      ensures var stale := old(netState) == NetAudio && old(networkWatchdog.running)
                           && old(networkWatchdog.elapsed) + ms >= WATCHDOG_MS;
        netState == (if stale then NetIdle else old(netState))
        && (stale ==> !netTimeoutTimer.running && !networkWatchdog.running
                      && trace == old(trace) + [WatchdogExpired(netFrames)] + Cleared())
        && (!stale ==> trace == old(trace)
                       && netTimeoutTimer.running == old(netTimeoutTimer.running)
                       && netTimeoutTimer.elapsed == old(netTimeoutTimer.elapsed) + (if netTimeoutTimer.running then ms else 0)
                       && networkWatchdog.running == old(networkWatchdog.running)
                       && networkWatchdog.elapsed == old(networkWatchdog.elapsed)
                          + (if old(netState) == NetAudio && networkWatchdog.running then ms else 0))
    {
      netTimeoutTimer.Clock(ms);
      if netState == NetAudio {
        networkWatchdog.Clock(ms);
        if networkWatchdog.HasExpired() {
          trace := trace + [WatchdogExpired(netFrames)];
          EndNet();
        }
      }
    }

    /** Queues an RF frame for duplex repeat: refused while a network call is
        in progress or once the RF timeout has expired, dropped with an
        overflow report when the record does not fit. */
    method QueueRf(frame: seq<byte>)
      requires Valid() && |frame| >= recLen as int
      modifies this`trace, this`pending, queue
      ensures Valid()
      ensures var admitted := netState == NetIdle && !rfTimeoutTimer.HasExpired();
        pending == old(pending) + Queued(admitted, old(HasRoom()), frame)
        && trace == old(trace) + Overflowed(admitted, old(HasRoom()))
        && queue.items == old(queue.items) + (if admitted && old(HasRoom()) then Frame(frame[..recLen]) else [])
    {
      if netState != NetIdle {
        return;
      }
      if rfTimeoutTimer.IsRunning() && rfTimeoutTimer.HasExpired() {
        return;
      }
      var space := queue.FreeSpace();
      if space < recLen as int + 1 {
        trace := trace + [QueueOverflow];
        return;
      }
      PushRecord(frame[..recLen]);
    }

    /** Queues a network frame: refused once the network timeout has
        expired, dropped with an overflow report when the record does not fit. */
    method QueueNet(frame: seq<byte>)
      requires Valid() && |frame| >= recLen as int
      modifies this`trace, this`pending, queue
      ensures Valid()
      ensures var admitted := !netTimeoutTimer.HasExpired();
        pending == old(pending) + Queued(admitted, old(HasRoom()), frame)
        && trace == old(trace) + Overflowed(admitted, old(HasRoom()))
        && queue.items == old(queue.items) + (if admitted && old(HasRoom()) then Frame(frame[..recLen]) else [])
    {
      if netTimeoutTimer.IsRunning() && netTimeoutTimer.HasExpired() {
        return;
      }
      var space := queue.FreeSpace();
      if space < recLen as int + 1 {
        trace := trace + [QueueOverflow];
        return;
      }
      PushRecord(frame[..recLen]);
    }

    /** Appends one record: its length byte, then its bytes. */
    method PushRecord(r: seq<byte>)
      requires Valid() && |r| == recLen as int && HasRoom()
      modifies this`pending, queue
      ensures Valid()
      ensures queue.items == old(queue.items) + Frame(r)
      ensures pending == old(pending) + [r]
    {
      HoldsPush(queue.items, pending, r, recLen as nat);
      var len := recLen;
      var _ := queue.AddData([len]);
      var _ := queue.AddData(r);
      assert [len] + r == Frame(r);
      pending := pending + [r];
    }

    /** Sends a frame's payload to the network, unless there is no network
        or the RF timeout has expired. */
    method ForwardToNetwork(frame: seq<byte>)
      requires Valid() && |frame| >= 2
      modifies this`trace
      ensures Valid()
      ensures trace == old(trace) + Forwarded(frame, Identity(source, dest), rfTimeoutTimer.HasExpired())
    {
      if !hasNetwork {
        return;
      }
      if rfTimeoutTimer.IsRunning() && rfTimeoutTimer.HasExpired() {
        return;
      }
      trace := trace + [NetWrite(source, dest, frame[2..], frame[0] == TAG_EOT)];
    }
  }
}
