// READ CAPACITY: when the reply can be packed at all, and that firmware reads
// the medium's own size out of it.
module IderCapacity {
  import opened Bytes
  import opened Framing
  import opened IderFrames
  import opened IderTarget
  import opened IderInvariants
  import opened IderReads

  /** The medium has data, but fewer than one sector or more sectors than four bytes count. */
  predicate Unpackable(image: Image) {
    image.size != 0 && (image.size < image.SectorSize() || image.Blocks() > TWO32)
  }

  /** The one command that can raise out of `feed` in mid-session does so exactly for an unpackable medium. */
  lemma RaisesIff(t: Target, device: byte, cdb: seq<byte>, feature: byte, flags: byte)
    requires |cdb| == 12
    ensures HandleScsi(t, device, cdb, feature, flags).1 == Raise(StructError, false) <==>
            cdb[0] == 0x25 && Slot(t.media, device).Some? && Unpackable(Slot(t.media, device).value)
  {
    hide ScsiRead, ScsiWrite, ScsiOther;
    if Slot(t.media, device).Some? {
      BlocksPositive(Slot(t.media, device).value);
    }
  }

  lemma BlocksPositive(image: Image)
    ensures image.Blocks() >= 1 <==> image.size >= image.SectorSize()
  {
  }

  /** Among the images the engine opens, only a CD of less than 2048 bytes is too small. */
  lemma TooSmallIsACd(m: Media, device: byte)
    requires MediaOk(m) && Slot(m, device).Some?
    ensures var image := Slot(m, device).value;
            image.size < image.SectorSize() && image.size != 0 <==> device == DEVICE_CDROM && image.size in {512, 1024, 1536}
  {
  }

  /** What firmware makes of the eight bytes. */
  function LastBlock(data: seq<byte>): nat
    requires |data| == 8
  {
    FromBE(data[..4])
  }

  function BlockLength(data: seq<byte>): nat
    requires |data| == 8
  {
    FromBE(data[4..])
  }

  /** One completed frame, from which firmware computes the image's own size (in whole sectors). */
  lemma CapacityReported(t: Target, device: byte, flags: byte, dma: bool)
    requires MediaOk(t.media) && Slot(t.media, device).Some?
    requires Slot(t.media, device).value.size != 0 && !Unpackable(Slot(t.media, device).value)
    ensures var image := Slot(t.media, device).value;
            var u := ReadCapacity(t, device, flags, dma).0;
            && t.out.sent <= u.out.sent
            && |Emitted(t, u)| == 1
            && Emitted(t, u)[0].DataToHost? && Emitted(t, u)[0].completed && Emitted(t, u)[0].device == flags
            && var data := Emitted(t, u)[0].data;
               |data| == 8 && BlockLength(data) == image.SectorSize() && LastBlock(data) + 1 == image.Blocks()
               && (LastBlock(data) + 1) * BlockLength(data) == image.size - image.size % image.SectorSize()
  {
    hide FromBE, BE, LE;
    var image := Slot(t.media, device).value;
    var last := image.Blocks() - 1;
    var tail: seq<byte> := [0, 0, if device == DEVICE_CDROM then 8 else 2, 0];
    var payload := BE(last, 4) + tail;
    BlocksPositive(image);
    var u := SendData(t, flags, true, payload, dma);
    assert ReadCapacity(t, device, flags, dma).0 == u;
    SentEvent(t, CMD_DATA_TO_HOST, DataPayload(flags, true, payload, dma), true, dma, u);
    DecodeData(t.out.seqno, flags, true, payload, dma);
    Pow256Values();
    BERoundTrip(last, 4);
    assert payload[..4] == BE(last, 4) && payload[4..] == tail;
    TailLength(tail);
    BlocksTimesSector(image);
  }

  lemma TailLength(tail: seq<byte>)
    requires |tail| == 4 && tail[0] == tail[1] == tail[3] == 0
    ensures FromBE(tail) == 256 * (tail[2] as int)
  {
    var a, b, c := tail[..3], tail[..2], tail[..1];
    assert a[..2] == b && b[..1] == c && c[..0] == [];
    assert FromBE(c) == 0;
    assert FromBE(b) == 0;
    assert FromBE(a) == tail[2] as int;
  }

  lemma BlocksTimesSector(image: Image)
    ensures image.Blocks() * image.SectorSize() == image.size - image.size % image.SectorSize()
  {
  }
}
