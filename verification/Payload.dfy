/** What each -b and -u option becomes: the two ways fs_payload_setup fills a node. */
module Payload {
  import opened Wrappers
  import opened Context
  import opened SipMessage

  /** One -b or -u option. A custom payload comes with what reading its file gives. */
  datatype PayloadInfo = Sip(uri: Option<string>, draws: Draws) | Custom(file: Option<seq<byte>>)

  function Bytes(s: string): seq<byte>
  {
    seq(|s|, i requires 0 <= i < |s| => s[i] as int % 0x100)
  }

  /** The text in bytes, one for each character. */
  predicate IsTextOf(bytes: seq<byte>, text: string)
  {
    |bytes| == |text| && forall i | 0 <= i < |text| && text[i] as int < 0x100 :: bytes[i] == text[i] as int
  }

  lemma BytesCarryText(s: string)
    ensures IsTextOf(Bytes(s), s)
  {
  }

  /** A file longer than the buffer is refused. */
  function MakeCustom(file: Option<seq<byte>>, bufferSize: nat): Option<seq<byte>>
  {
    if file.None? || |file.value| > bufferSize then None else file
  }

  /** What one entry becomes, or None when its preparation fails. */
  function Prepare(info: PayloadInfo): Option<seq<byte>>
  {
    match info
    case Sip(uri, draws) =>
      var r := MakeSipInvite(uri, draws, BUFFLEN);
      if r.None? then None else Some(Bytes(r.value))
    case Custom(file) => MakeCustom(file, BUFFLEN)
  }

  /** Every prepared payload fits what the packet builders can carry. */
  lemma PreparedFits(info: PayloadInfo)
    requires Prepare(info).Some?
    ensures |Prepare(info).value| <= BUFFLEN
  {
    if info.Sip? {
      FailsOnlyOnRejectedUri(info.uri, info.draws);
    }
  }
}
