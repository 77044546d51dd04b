/** Pure decisions of the RF path: who is calling whom, and how many payload
    bits a frame adds to the bit-error statistics. */
module Routing {
  import opened YsfDefines

  /** The synthetic destination of a group call, ten characters wide. */
  const ALL_DEST: string := "ALL       "

  /** Placeholder shown for an identity not yet known, ten characters wide. */
  const UNKNOWN: string := "??????????"

  datatype Identity = Identity(source: Option<string>, dest: Option<string>)

  function Shown(id: Option<string>): string
  {
    match id
    case Some(s) => s
    case None => UNKNOWN
  }

  /** Identity after a header frame: a group call always goes to ALL; a
      header that reassembled overwrites the source, and the destination of
      a non-group call; one that did not leaves them as they were. */
  function ResolveFromHeader(cm: CallMode, valid: bool, cur: Identity, got: Identity): (r: Identity)
    ensures cm == CmGroup ==> r.dest == Some(ALL_DEST)
    ensures valid ==> r.source == got.source && (cm != CmGroup ==> r.dest == got.dest)
    ensures !valid ==> r.source == cur.source && (cm != CmGroup ==> r.dest == cur.dest)
  {
    var source := if valid then got.source else cur.source;
    var dest :=
      if cm == CmGroup then Some(ALL_DEST)
      else if valid then got.dest
      else cur.dest;
    Identity(source, dest)
  }

  /** Identity after a communications frame, and whether it changed. Only a
      field still unknown is filled in (first resolution wins); a group call
      resolves the destination to ALL whatever the payload says; otherwise a
      field is taken from the payload only when its reassembly succeeded. The
      change flag is raised exactly when an unknown field became known. */
  function ResolveFromData(cm: CallMode, valid: bool, cur: Identity, got: Identity): (r: (Identity, bool))
    ensures cur.source.Some? ==> r.0.source == cur.source
    ensures cur.dest.Some? ==> r.0.dest == cur.dest
    ensures cur.source.None? ==> r.0.source == (if valid then got.source else None)
    ensures cur.dest.None? && cm == CmGroup ==> r.0.dest == Some(ALL_DEST)
    ensures cur.dest.None? && cm != CmGroup ==> r.0.dest == (if valid then got.dest else None)
    ensures r.1 <==> (cur.source.None? && r.0.source.Some?) || (cur.dest.None? && r.0.dest.Some?)
  {
    var (dest, destChanged) :=
      if cur.dest.Some? then (cur.dest, false)
      else if cm == CmGroup then (Some(ALL_DEST), true)
      else if valid then (got.dest, got.dest.Some?)
      else (cur.dest, false);
    var (source, sourceChanged) :=
      if valid && cur.source.None? then (got.source, got.source.Some?)
      else (cur.source, false);
    (Identity(source, dest), destChanged || sourceChanged)
  }

  /** A second resolution from the same frame finds nothing new. */
  lemma ResolveFromDataSettles(cm: CallMode, valid: bool, cur: Identity, got: Identity)
    ensures var (id, _) := ResolveFromData(cm, valid, cur, got);
      ResolveFromData(cm, valid, id, got) == (id, false)
  {
  }

  /** Whether the payload of a communications frame counts as reassembled:
      the data reassembly result for the voice/data modes, never for full-rate
      voice (it is not regenerated), and unchanged (still true) for any other
      data type. */
  function DataValidity(dt: DataType, dataValid: bool): (v: bool)
    ensures dt == DtVoiceFr ==> !v
    ensures dt == DtOther ==> v
    ensures dt in {DtVdMode1, DtVdMode2, DtDataFr} ==> v == dataValid
  {
    match dt
    case DtVdMode1 => dataValid
    case DtVdMode2 => dataValid
    case DtDataFr => dataValid
    case DtVoiceFr => false
    case DtOther => true
  }

  /** Error bits and payload bits one communications frame adds to the call's statistics. */
  datatype Score = Score(errs: nat, bits: nat)

  /** Bit budget per data type: 235 for V/D mode 1, 135 for V/D mode 2, 720
      for full-rate voice except the irregular frame right after the header
      (fn 0 of ft 1), nothing otherwise. Audio errors count only where the
      budget does. */
  function FrameScore(dt: DataType, fn: nat, ft: nat, audioErrs: nat): (s: Score)
    ensures s.bits == 235 <==> dt == DtVdMode1
    ensures s.bits == 135 <==> dt == DtVdMode2
    ensures s.bits == 720 <==> dt == DtVoiceFr && (fn != 0 || ft != 1)
    ensures s.bits == 0 <==> dt in {DtDataFr, DtOther} || (dt == DtVoiceFr && fn == 0 && ft == 1)
    ensures s.errs == if s.bits == 0 then 0 else audioErrs
  {
    match dt
    case DtVdMode1 => Score(audioErrs, 235)
    case DtVdMode2 => Score(audioErrs, 135)
    case DtVoiceFr => if fn != 0 || ft != 1 then Score(audioErrs, 720) else Score(0, 0)
    case DtDataFr => Score(0, 0)
    case DtOther => Score(0, 0)
  }
}
