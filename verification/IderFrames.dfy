// Outbound frames of the IDE-R engine: the 8-byte header and the payloads of
// the commands that carry one.
module IderFrames {
  import opened Bytes

  const CMD_OPEN_SESSION: byte := 0x40
  const CMD_RESET_OCCURRED_RESPONSE: byte := 0x47
  const CMD_DISABLE_ENABLE_FEATURES: byte := 0x48
  const CMD_COMMAND_END_RESPONSE: byte := 0x51
  const CMD_GET_DATA_FROM_HOST: byte := 0x52
  const CMD_DATA_TO_HOST: byte := 0x54

  const DEVICE_FLOPPY: byte := 0xA0
  const DEVICE_CDROM: byte := 0xB0

  function Header(cmd: byte, seqno: nat, completed: bool, dma: bool): (h: seq<byte>)
    ensures |h| == 8
  {
    [cmd, 0, 0, (if dma then 1 else 0) + (if completed && cmd > 50 then 2 else 0)] + LE(seqno, 4)
  }

  /** COMMAND_END_RESPONSE; the error form does not transmit the sense triple. */
  function EndPayload(error: bool, sense: byte, device: byte, asc: byte, asq: byte): (p: seq<byte>)
    ensures |p| == 23
  {
    if error then Zeros(12) + [0xC5, 0, 3, 0, 0, 0, device, 0x50, 0, 0, 0]
    else Zeros(12) + [0x87, sense * 16 % 256, 3, 0, 0, 0, device, 0x51, sense, asc, asq]
  }

  /** The 26 bytes in front of the data of a DATA_TO_HOST; lengths are cut to 16 bits. */
  function DataPrefix(device: byte, completed: bool, length: nat, dma: bool): (p: seq<byte>)
    ensures |p| == 26
  {
    [0] + LE(length, 2) + [0, if dma then 0xB4 else 0xB5, 0, 2, 0] + LE(if dma then 0 else length, 2) + [device, 0x58]
    + (if completed then [0x85, 0, 3, 0, 0, 0, device, 0x50, 0, 0, 0, 0, 0, 0] else Zeros(14))
  }

  function DataPayload(device: byte, completed: bool, data: seq<byte>, dma: bool): seq<byte> {
    DataPrefix(device, completed, |data|, dma) + data
  }

  function GetDataPayload(device: byte, chunk: nat): (p: seq<byte>)
    ensures |p| == 23
  {
    [0] + LE(chunk, 2) + [0, 0xB5, 0, 0, 0] + LE(chunk, 2) + [device, 0x58] + Zeros(11)
  }
}
