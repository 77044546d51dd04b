/** Values the System Fusion control layer receives from its collaborators:
    raw bytes, frame tags, the decoded FICH (frame information channel) and the
    results of payload reassembly. */
module YsfDefines {

  newtype byte = x: int | 0 <= x < 256

  datatype Option<T> = None | Some(value: T)

  /** Tag byte (byte 0 of every frame). Only their distinctness matters here. */
  const TAG_DATA: byte := 0x01
  const TAG_LOST: byte := 0x02
  const TAG_EOT: byte := 0x03

  /** Frame indicator carried by the FICH. */
  datatype FrameIndicator = FiHeader | FiCommunications | FiTerminator | FiTest

  /** Call mode carried by the FICH; only the group mode is singled out. */
  datatype CallMode = CmGroup | CmRadioId | CmReserved | CmIndividual

  /** Data type carried by the FICH; DtOther stands for any other code. */
  datatype DataType = DtVdMode1 | DtDataFr | DtVdMode2 | DtVoiceFr | DtOther

  /** What the FICH decoder reports for one frame: whether it decoded, and the fields. */
  datatype Fich = Fich(valid: bool, fi: FrameIndicator, cm: CallMode, dt: DataType, fn: nat, ft: nat)

  /** What the payload reassembler reports for one frame: the result of
      header reassembly, of data reassembly for the frame's data type, the
      number of audio bit errors it counted, and the identities it holds. */
  datatype PayloadResult = PayloadResult(
    headerValid: bool,
    dataValid: bool,
    audioErrs: nat,
    source: Option<string>,
    dest: Option<string>)
}
