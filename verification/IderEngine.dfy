// The IDE-R engine as it runs: one object whose fields change message by
// message, two image objects that count what is read and written, and the file
// system underneath them. Every method is tied to the function of the same
// name on the engine's abstract state.
module IderEngine {
  import opened Wrappers
  import opened Bytes
  import opened Framing
  import opened IderFrames
  import T = IderTarget
  import opened IderInvariants

  /** The files of the controller, shared with whatever else runs there. */
  class FileSystem {
    var files: map<T.FileId, seq<byte>>

    constructor (files: map<T.FileId, seq<byte>>)
      ensures this.files == files
    {
      this.files := files;
    }
  }

  class MediaImage {
    const fs: FileSystem
    const file: T.FileId
    const device: byte
    const size: nat
    const writable: bool
    var changeReported: bool
    var bytesRead: nat
    var bytesWritten: nat

    ghost function Abs(): T.Image
      reads this
    {
      T.Image(file, device, size, writable, changeReported, bytesRead, bytesWritten)
    }

    constructor (fs: FileSystem, file: T.FileId, device: byte, size: nat, writable: bool)
      ensures this.fs == fs && Abs() == T.Image(file, device, size, writable, false, 0, 0)
    {
      this.fs, this.file, this.device, this.size, this.writable := fs, file, device, size, writable;
      changeReported, bytesRead, bytesWritten := false, 0, 0;
    }

    static ghost predicate Openable(files: map<T.FileId, seq<byte>>, file: T.FileId, device: byte, writable: bool) {
      && device in {DEVICE_FLOPPY, DEVICE_CDROM}
      && !(device == DEVICE_CDROM && writable)
      && file in files && |files[file]| % 512 == 0
    }

    /** Refuses an unknown device code, a writable CD/DVD, a missing file and a size that is not a multiple of 512. */
    static method Open(fs: FileSystem, file: T.FileId, device: byte, writable: bool) returns (image: MediaImage?)
      ensures image != null <==> Openable(fs.files, file, device, writable)
      ensures image != null ==>
                && fresh(image) && image.fs == fs
                && image.Abs() == T.Image(file, device, |fs.files[file]|, writable, false, 0, 0)
                && SlotOk(Some(image.Abs()), device, fs.files)
    {
      if device != DEVICE_FLOPPY && device != DEVICE_CDROM {
        return null;
      }
      if device == DEVICE_CDROM && writable {
        return null;
      }
      if file !in fs.files || |fs.files[file]| % 512 != 0 {
        return null;
      }
      image := new MediaImage(fs, file, device, |fs.files[file]|, writable);
    }

    method Read(offset: nat, length: nat) returns (data: seq<byte>)
      requires file in fs.files
      modifies this`bytesRead
      ensures data == T.ReadAt(fs.files[file], offset, length)
      ensures bytesRead == old(bytesRead) + |data|
    {
      data := T.ReadAt(fs.files[file], offset, length);
      bytesRead := bytesRead + |data|;
    }

    /** Never against a read-only image, never past the size the image was opened with. */
    method Write(offset: nat, data: seq<byte>) returns (ok: bool)
      requires file in fs.files
      modifies this`bytesWritten, fs
      ensures ok <==> writable && offset + |data| <= size
      ensures ok ==> fs.files == old(fs.files)[file := T.WriteAt(old(fs.files)[file], offset, data)]
                     && bytesWritten == old(bytesWritten) + |data|
      ensures !ok ==> fs.files == old(fs.files) && bytesWritten == old(bytesWritten)
    {
      if !writable || offset + |data| > size {
        return false;
      }
      fs.files := fs.files[file := T.WriteAt(fs.files[file], offset, data)];
      bytesWritten := bytesWritten + |data|;
      return true;
    }
  }

  class IderEngine {
    const fs: FileSystem
    const floppy: MediaImage?
    const cdrom: MediaImage?
    const tables: T.Tables
    const startMode: nat

    // The transport: every frame handed to `send`, and what it delivers while the pump is sending.
    var sent: seq<seq<byte>>
    var reentry: seq<seq<T.Reentry>>

    var inSeq: nat
    var outSeq: nat
    var buf: seq<byte>
    var stopped: bool
    var info: T.SessionInfo
    var sessionOpen: bool
    var enabled: bool
    var toggleOk: Option<bool>
    var errorsSeen: seq<byte>
    var pendingWrite: Option<T.PendingWrite>
    var readState: Option<T.ReadRequest>
    var readQueue: seq<T.ReadRequest>
    var resetPending: bool
    var bytesToAmt: nat
    var bytesFromAmt: nat

    ghost function Media(): T.Media
      reads this, floppy, cdrom, fs
    {
      T.Media(if floppy == null then None else Some(floppy.Abs()),
              if cdrom == null then None else Some(cdrom.Abs()),
              fs.files)
    }

    /** The engine's state apart from inbound framing. */
    ghost function State(): T.Target
      reads this, floppy, cdrom, fs
    {
      T.Target(T.Out(outSeq, sent, bytesToAmt),
               T.Session(info, sessionOpen, enabled, toggleOk, errorsSeen, startMode),
               Media(), pendingWrite, T.Pump(readState, readQueue, resetPending), tables, reentry)
    }

    ghost function Abs(): T.Engine
      reads this, floppy, cdrom, fs
    {
      Framer(buf, inSeq, stopped, State())
    }

    /** Each slot holds an image for that slot, backed by a file that exists. */
    ghost predicate Wired()
      reads this, floppy, cdrom, fs
    {
      && (floppy != null ==> floppy.fs == fs && floppy.device == DEVICE_FLOPPY && floppy.file in fs.files)
      && (cdrom != null ==> cdrom.fs == fs && cdrom.device == DEVICE_CDROM && cdrom.file in fs.files)
    }

    /** Between messages. */
    ghost predicate Valid()
      reads this, floppy, cdrom, fs
    {
      Wired() && Quiet(State())
    }

    /** The images attached to the device slots. */
    ghost function Images(): set<object> {
      (if floppy == null then {} else {floppy as object}) + (if cdrom == null then {} else {cdrom as object})
    }

    constructor (fs: FileSystem, floppy: MediaImage?, cdrom: MediaImage?, tables: T.Tables, startMode: nat)
      requires floppy != null ==> floppy.fs == fs && SlotOk(Some(floppy.Abs()), DEVICE_FLOPPY, fs.files)
      requires cdrom != null ==> cdrom.fs == fs && SlotOk(Some(cdrom.Abs()), DEVICE_CDROM, fs.files)
      ensures Valid()
      ensures this.fs == fs && this.floppy == floppy && this.cdrom == cdrom
      ensures Abs() == T.Initial(startMode, tables, Media().floppy, Media().cdrom, fs.files)
      ensures bytesFromAmt == 0
    {
      this.fs, this.floppy, this.cdrom, this.tables, this.startMode := fs, floppy, cdrom, tables, startMode;
      sent, reentry, inSeq, outSeq, buf, stopped := [], [], 0, 0, [], false;
      info, sessionOpen, enabled, toggleOk, errorsSeen := T.NO_INFO, false, false, None, [];
      pendingWrite, readState, readQueue, resetPending := None, None, [], false;
      bytesToAmt, bytesFromAmt := 0, 0;
    }

    function Device(device: byte): MediaImage? {
      if device == DEVICE_FLOPPY then floppy else if device == DEVICE_CDROM then cdrom else null
    }

    // --- Outbound framing ---

    method SendCommand(cmd: byte, payload: seq<byte>, completed: bool, dma: bool)
      modifies this`sent, this`outSeq, this`bytesToAmt
      ensures State() == T.Send(old(State()), cmd, payload, completed, dma)
    {
      var frame := Header(cmd, outSeq, completed, dma) + payload;
      outSeq := (outSeq + 1) % TWO32;
      bytesToAmt := bytesToAmt + |frame|;
      sent := sent + [frame];
    }

    method SendCommandEndResponse(error: bool, sense: byte, device: byte, asc: byte, asq: byte)
      modifies this`sent, this`outSeq, this`bytesToAmt
      ensures State() == T.SendEnd(old(State()), error, sense, device, asc, asq)
    {
      SendCommand(CMD_COMMAND_END_RESPONSE, EndPayload(error, sense, device, asc, asq), true, false);
    }

    method SendDataToHost(device: byte, completed: bool, data: seq<byte>, dma: bool)
      modifies this`sent, this`outSeq, this`bytesToAmt
      ensures State() == T.SendData(old(State()), device, completed, data, dma)
    {
      SendCommand(CMD_DATA_TO_HOST, DataPayload(device, completed, data, dma), completed, dma);
    }

    method SendDisableEnableFeatures()
      modifies this`sent, this`outSeq, this`bytesToAmt
      ensures State() == T.SendFeatures(old(State()))
    {
      SendCommand(CMD_DISABLE_ENABLE_FEATURES, [3] + LE(startMode, 4), false, false);
    }

    /** OPEN_SESSION, once, right after the handshake. */
    method Start(rxTimeout: nat, txTimeout: nat, heartbeat: nat)
      requires Valid()
      requires rxTimeout < 65536 && txTimeout < 65536 && heartbeat < 65536
      modifies this`sent, this`outSeq, this`bytesToAmt
      ensures Valid() && QuietStep(old(State()), State())
      ensures State() == T.Start(old(State()), rxTimeout, txTimeout, heartbeat)
    {
      var payload := LE(rxTimeout, 2) + LE(txTimeout, 2) + LE(heartbeat, 2) + LE(1, 4);
      SendStep(State(), CMD_OPEN_SESSION, payload, false, false);
      SendCommand(CMD_OPEN_SESSION, payload, false, false);
    }

    // --- Read path ---

    method AdmitRead(device: byte, lba: nat, length: nat, dma: bool)
      requires Wired()
      modifies this`sent, this`outSeq, this`bytesToAmt, this`readState, this`readQueue
      ensures State() == T.AdmitRead(old(State()), device, lba, length, dma)
    {
      var image := Device(device);
      if image == null {
        SendCommandEndResponse(true, 0x02, device, 0x3A, 0);
        return;
      }
      var sectorSize := if image.device == DEVICE_CDROM then 2048 else 512;
      if lba + length > image.size / sectorSize {
        SendCommandEndResponse(true, 0x05, device, 0x21, 0);
        return;
      }
      if length == 0 {
        SendCommandEndResponse(true, 0, device, 0, 0);
        return;
      }
      var request := T.ReadRequest(device, lba * sectorSize, length * sectorSize, dma);
      if readState.Some? {
        readQueue := readQueue + [request];
      } else {
        readState := Some(request);
      }
    }

    method OnResetOccurred()
      requires Wired()
      modifies this`sent, this`outSeq, this`bytesToAmt, this`resetPending
      ensures State() == T.ResetOccurred(old(State()))
    {
      if readState.None? {
        SendCommand(CMD_RESET_OCCURRED_RESPONSE, [], false, false);
      } else {
        resetPending := true;
      }
    }

    /** What the environment does while a DATA_TO_HOST frame is on its way out. */
    method TransportReenters()
      requires Wired() && readState.Some?
      modifies this`sent, this`outSeq, this`bytesToAmt, this`readState, this`readQueue, this`resetPending, this`reentry
      ensures State() == T.Reenter(old(State()))
    {
      if reentry == [] {
        return;
      }
      var batch := reentry[0];
      reentry := reentry[1..];
      ghost var entered := State();
      while batch != []
        invariant readState.Some?
        invariant T.DeliverAll(State(), batch) == T.DeliverAll(entered, old(reentry)[0])
        decreases |batch|
      {
        match batch[0] {
          case ReadArrives(device, lba, length, dma) => AdmitRead(device, lba, length, dma);
          case ResetArrives => OnResetOccurred();
        }
        batch := batch[1..];
      }
    }

    method ReadChunk() returns (data: seq<byte>)
      requires Wired() && readState.Some? && RequestOk(Media(), readState.value)
      modifies Images()
      ensures Wired()
      ensures data == T.NextChunk(old(State())).0
      ensures State() == old(State()).(media := T.NextChunk(old(State())).1)
    {
      var state := readState.value;
      var chunk := if 0 < info.readbfr < state.remaining then info.readbfr else state.remaining;
      var image := Device(state.device);
      data := image.Read(state.byteOffset, chunk);
    }

    method SendChunk(data: seq<byte>)
      requires Wired() && readState.Some? && |data| <= readState.value.remaining
      modifies this`sent, this`outSeq, this`bytesToAmt, this`readState, this`readQueue, this`resetPending, this`reentry
      ensures State() == T.SendChunk(old(State()), data)
    {
      hide T.SendData, T.Reenter;
      var state := readState.value;
      state := state.(byteOffset := state.byteOffset + |data|, remaining := state.remaining - |data|);
      readState := Some(state);
      ghost var moved := State();
      SendDataToHost(state.device, state.remaining == 0, data, state.dma);
      assert State() == T.SendData(moved, state.device, state.remaining == 0, data, state.dma);
      TransportReenters();
    }

    /** The teardown at the end of each request. */
    method FinishRead()
      requires readState.Some?
      modifies this`sent, this`outSeq, this`bytesToAmt, this`readState, this`readQueue, this`resetPending
      ensures State() == T.FinishRead(old(State()))
    {
      readState := None;
      if resetPending {
        SendCommand(CMD_RESET_OCCURRED_RESPONSE, [], false, false);
        readQueue := [];
        resetPending := false;
      } else if readQueue != [] {
        readState := Some(readQueue[0]);
        readQueue := readQueue[1..];
      }
    }

    /** One chunk, or the end of a transfer the file cannot complete. */
    method PumpOne()
      requires Wired() && readState.Some? && RequestOk(Media(), readState.value)
      modifies this`sent, this`outSeq, this`bytesToAmt, this`readState, this`readQueue, this`resetPending, this`reentry
      modifies Images()
      ensures Wired() && State() == T.PumpStep(old(State()))
    {
      var device := readState.value.device;
      var data := ReadChunk();
      if data == [] {
        SendCommandEndResponse(false, 0x03, device, 0x11, 0);
        FinishRead();
      } else {
        SendChunk(data);
        if readState.value.remaining == 0 || resetPending {
          FinishRead();
        }
      }
    }

    method PumpRead()
      requires Wired() && Inv(State())
      modifies this`sent, this`outSeq, this`bytesToAmt, this`readState, this`readQueue, this`resetPending, this`reentry
      modifies Images()
      ensures Wired() && State() == T.PumpAll(old(State()))
    {
      while readState.Some?
        invariant Wired() && Inv(State())
        invariant T.PumpAll(State()) == T.PumpAll(old(State()))
        decreases |reentry|, T.Outstanding(T.Pump(readState, readQueue, resetPending))
      {
        PumpStepStep(State());
        PumpOne();
      }
    }

    method ScsiRead(device: byte, lba: nat, length: nat, dma: bool)
      requires Valid()
      modifies this`sent, this`outSeq, this`bytesToAmt, this`readState, this`readQueue, this`resetPending, this`reentry
      modifies Images()
      ensures Wired() && State() == T.ScsiRead(old(State()), device, lba, length, dma)
    {
      AdmitStep(State(), device, lba, length, dma);
      AdmitRead(device, lba, length, dma);
      PumpRead();
    }

    // --- Write path ---

    method ScsiWrite(device: byte, lba: nat, length: nat)
      requires Wired()
      modifies this`sent, this`outSeq, this`bytesToAmt, this`pendingWrite
      ensures State() == T.ScsiWrite(old(State()), device, lba, length)
    {
      if device != DEVICE_FLOPPY || floppy == null {
        SendCommandEndResponse(true, 0x02, device, 0x3A, 0);
        return;
      }
      if lba + length > floppy.size / 512 {
        SendCommandEndResponse(true, 0x05, device, 0x21, 0);
        return;
      }
      if length == 0 {
        SendCommandEndResponse(true, 0, device, 0, 0);
        return;
      }
      if !floppy.writable {
        SendCommandEndResponse(false, 0x07, device, 0x27, 0);
        return;
      }
      pendingWrite := Some(T.PendingWrite(device, lba * 512, 512 * length, 0));
      SendCommand(CMD_GET_DATA_FROM_HOST, GetDataPayload(device, 512 * length), false, false);
    }

    /** The image behind a pending write takes the bytes, unless one of its guards fires. */
    method WriteMedia(p: T.PendingWrite, data: seq<byte>) returns (ok: bool)
      requires Wired()
      modifies Images(), fs
      ensures Wired()
      ensures var media := T.MediaWrite(old(Media()), p.device, p.byteOffset + p.received, data);
              ok == media.Some? && State() == if ok then old(State()).(media := media.value) else old(State())
    {
      var image := Device(p.device);
      if image == null {
        return false;
      }
      ok := image.Write(p.byteOffset + p.received, data);
    }

    method OnDataFromHost(data: seq<byte>) returns (verdict: Verdict)
      requires Wired()
      modifies this`sent, this`outSeq, this`bytesToAmt, this`pendingWrite
      modifies Images(), fs
      ensures Wired() && (State(), verdict) == T.OnDataFromHost(old(State()), data)
    {
      hide T.MediaWrite;
      verdict := Continue;
      if pendingWrite.None? {
        SendCommandEndResponse(false, 0x05, DEVICE_FLOPPY, 0x20, 0);
        return;
      }
      var p := pendingWrite.value;
      if p.received + |data| > p.expected {
        pendingWrite := None;
        SendCommandEndResponse(false, 0x05, p.device, 0x21, 0);
        return;
      }
      var ok := WriteMedia(p, data);
      if !ok {
        return Raise(WriteGuard, false);
      }
      p := p.(received := p.received + |data|);
      pendingWrite := Some(p);
      if p.received >= p.expected {
        pendingWrite := None;
        SendCommandEndResponse(false, 0, p.device, 0, 0);
      }
    }

    // --- SCSI dispatch ---

    method TestUnitReady(device: byte)
      requires Wired()
      modifies this`sent, this`outSeq, this`bytesToAmt, Images()
      ensures Wired() && State() == T.TestUnitReady(old(State()), device)
    {
      var image := Device(device);
      if image == null {
        SendCommandEndResponse(true, 0x02, device, 0x3A, 0);
      } else if !image.changeReported {
        image.changeReported := true;
        SendCommandEndResponse(true, 0x06, device, 0x28, 0);
      } else {
        SendCommandEndResponse(true, 0, device, 0, 0);
      }
    }

    method ReadCapacity(device: byte, flags: byte, dma: bool) returns (verdict: Verdict)
      requires Wired()
      modifies this`sent, this`outSeq, this`bytesToAmt
      ensures (State(), verdict) == T.ReadCapacity(old(State()), device, flags, dma)
    {
      var image := Device(device);
      if image == null || image.size == 0 {
        SendCommandEndResponse(false, 0x02, device, 0x3A, 0);
        return Continue;
      }
      var blocks := image.size / (if image.device == DEVICE_CDROM then 2048 else 512);
      if blocks == 0 || blocks > TWO32 {
        return Raise(StructError, false);
      }
      SendDataToHost(flags, true, BE(blocks - 1, 4) + [0, 0, if device == DEVICE_CDROM then 8 else 2, 0], dma);
      return Continue;
    }
  
    method ModeSense6(device: byte, cdb: seq<byte>, dma: bool)
      requires |cdb| == 12
      modifies this`sent, this`outSeq, this`bytesToAmt
      ensures State() == T.ModeSense6(old(State()), device, cdb, dma)
    {
      var image := Device(device);
      if cdb[2] == 0x3F && cdb[3] == 0 {
        if image == null {
          SendCommandEndResponse(true, 0x02, device, 0x3A, 0);
          return;
        }
        SendDataToHost(device, true, [0, if device == DEVICE_FLOPPY then 0 else 5, if image.writable then 0 else 0x80, 0], dma);
        return;
      }
      SendCommandEndResponse(true, 0x05, device, 0x24, 0);
    }

    method AllowRemoval(device: byte)
      modifies this`sent, this`outSeq, this`bytesToAmt
      ensures State() == T.AllowRemoval(old(State()), device)
    {
      if Device(device) == null {
        SendCommandEndResponse(true, 0x02, device, 0x3A, 0);
      } else {
        SendCommandEndResponse(true, 0, device, 0, 0);
      }
    }

    method ReadFormatCapacities(device: byte, dma: bool)
      modifies this`sent, this`outSeq, this`bytesToAmt
      ensures State() == T.ReadFormatCapacities(old(State()), device, dma)
    {
      var image := Device(device);
      if image == null || image.size == 0 {
        SendCommandEndResponse(false, 0x05, device, 0x24, 0);
        return;
      }
      SendDataToHost(device, true, [0, 0, 0, 8, 0, 0, 0x0B, 0x40, 2, 0, 2, 0], dma);
    }

    method ScsiOther(device: byte, cdb: seq<byte>, dma: bool)
      requires Wired() && |cdb| == 12
      modifies this`sent, this`outSeq, this`bytesToAmt, Images()
      ensures Wired() && State() == T.ScsiOther(old(State()), device, cdb, dma)
    {
      var op := cdb[0];
      if op == 0x00 {
        TestUnitReady(device);
      } else if op == 0x1A {
        ModeSense6(device, cdb, dma);
      } else if op == 0x1B {
        SendCommandEndResponse(true, 0, device, 0, 0);
      } else if op == 0x1E {
        AllowRemoval(device);
      } else if op == 0x23 {
        ReadFormatCapacities(device, dma);
      } else if op == 0x43 || op == 0x46 || op == 0x4A || op == 0x5A {
        CannedReply(device, cdb, dma);
      } else if op == 0x51 {
        SendCommandEndResponse(false, 0x05, device, 0x20, 0);
      } else if op == 0x55 {
        SendCommandEndResponse(true, 0x05, device, 0x20, 0);
      } else if op == 0xAC {
        SendDataToHost(device, true, [0, 0, 0, 4, 2, 0, 0, 0], dma);
      } else {
        SendCommandEndResponse(false, 0x05, device, 0x20, 0);
      }
    }

    /** The tables see the image as it is attached; its counters do not matter to them. */
    method CannedReply(device: byte, cdb: seq<byte>, dma: bool)
      modifies this`sent, this`outSeq, this`bytesToAmt
      ensures State() == T.SendReply(old(State()), device, tables(device, T.Slot(old(Media()), device), cdb), dma)
    {
      var image := Device(device);
      var view := if image == null then None
                  else Some(T.Image(image.file, image.device, image.size, image.writable, image.changeReported, image.bytesRead, image.bytesWritten));
      match tables(device, view, cdb) {
        case NoReply =>
        case DataReply(data) => SendDataToHost(device, true, data, dma);
        case EndReply(error, sense, asc, asq) => SendCommandEndResponse(error, sense, device, asc, asq);
      }
    }

    method HandleScsi(device: byte, cdb: seq<byte>, feature: byte, flags: byte) returns (verdict: Verdict)
      requires Valid() && |cdb| == 12
      modifies this`sent, this`outSeq, this`bytesToAmt, this`readState, this`readQueue, this`resetPending, this`reentry, this`pendingWrite
      modifies Images()
      ensures Wired() && (State(), verdict) == T.HandleScsi(old(State()), device, cdb, feature, flags)
    {
      var dma := feature % 2 == 1;
      var op := cdb[0];
      verdict := Continue;
      if op == 0x08 {
        ScsiRead(device, T.Lba6(cdb), T.Length6(cdb), dma);
      } else if op == 0x0A {
        ScsiWrite(device, T.Lba6(cdb), T.Length6(cdb));
      } else if op == 0x25 {
        verdict := ReadCapacity(device, flags, dma);
      } else if op == 0x28 {
        ScsiRead(device, FromBE(cdb[2..6]), FromBE(cdb[7..9]), dma);
      } else if op == 0x2A || op == 0x2E {
        ScsiWrite(device, FromBE(cdb[2..6]), FromBE(cdb[7..9]));
      } else {
        ScsiOther(device, cdb, dma);
      }
    }

    // --- Session messages ---

    method OnOpenSessionReply(m: seq<byte>) returns (verdict: Verdict)
      requires |m| >= 30
      modifies this`sent, this`outSeq, this`bytesToAmt, this`info, this`sessionOpen
      ensures (State(), verdict) == T.OnOpenSessionReply(old(State()), m)
    {
      var reply := T.ParseInfo(m);
      if reply.proto != 0 || reply.readbfr > T.MAX_READ_WRITE_BUFFER || reply.writebfr > T.MAX_READ_WRITE_BUFFER {
        return Raise(BadOpenReply, true);
      }
      info := reply;
      sessionOpen := true;
      SendDisableEnableFeatures();
      return Continue;
    }

    method OnStatusData(kind: byte, value: nat)
      modifies this`sent, this`outSeq, this`bytesToAmt, this`enabled, this`toggleOk
      ensures State() == T.OnStatusData(old(State()), kind, value)
    {
      if kind == 1 {
        if value % 2 == 1 {
          SendDisableEnableFeatures();
        }
      } else if kind == 2 {
        enabled := value / 2 % 2 == 1;
      } else if kind == 3 {
        toggleOk := Some(value == 1);
      }
    }

    method Dispatch(m: seq<byte>) returns (verdict: Verdict)
      requires Valid() && T.WellFormed(m)
      modifies this, Images(), fs
      ensures buf == old(buf) && inSeq == old(inSeq) && stopped == old(stopped) && bytesFromAmt == old(bytesFromAmt)
      ensures Valid() && (State(), verdict) == T.Dispatch(old(State()), m)
    {
      hide T.Dispatch, T.WellFormed, Peek;
      DispatchStep(State(), m);
      verdict := Handle(m);
    }

    method Handle(m: seq<byte>) returns (verdict: Verdict)
      requires Valid() && T.WellFormed(m)
      modifies this`sent, this`outSeq, this`bytesToAmt, this`readState, this`readQueue, this`resetPending, this`reentry, this`pendingWrite
      modifies this`info, this`sessionOpen, this`enabled, this`toggleOk, this`errorsSeen
      modifies Images(), fs
      ensures Wired() && (State(), verdict) == T.Dispatch(old(State()), m)
    {
      var cmd := m[0];
      verdict := Continue;
      if cmd == CMD_OPEN_SESSION_REPLY {
        verdict := OnOpenSessionReply(m);
      } else if cmd == CMD_CLOSE {
        verdict := Close;
      } else if cmd == CMD_KEEPALIVE_PING {
        SendCommand(CMD_KEEPALIVE_PONG, [], false, false);
      } else if cmd == CMD_RESET_OCCURRED {
        OnResetOccurred();
      } else if cmd == CMD_STATUS_DATA {
        OnStatusData(m[8], FromLE(m[9..13]));
      } else if cmd == CMD_ERROR_OCCURRED {
        errorsSeen := errorsSeen + [m[8]];
      } else if cmd == CMD_COMMAND_WRITTEN {
        var device := if m[14] / 16 % 2 == 1 then DEVICE_CDROM else DEVICE_FLOPPY;
        verdict := HandleScsi(device, m[16..28], m[9], m[14]);
      } else if cmd == CMD_DATA_FROM_HOST {
        verdict := OnDataFromHost(m[14..14 + FromLE(m[9..11])]);
      }
    }

    /** Cut the message of length `n` off the buffer and handle it. */
    method TakeMessage(n: nat) returns (verdict: Verdict)
      requires Valid() && !Settled(buf) && Peek(buf) == Length(n)
      modifies this, Images(), fs
      ensures Valid() && stopped == old(stopped) && bytesFromAmt == old(bytesFromAmt)
      ensures (Abs(), verdict) == Take(T.Dispatch, old(Abs()), n)
    {
      var message := buf[..n];
      PeekPrefix(buf, n);
      buf := buf[n..];
      inSeq := Advance(inSeq);
      verdict := Dispatch(message);
    }

    /** One turn of the receive loop; `done` when the loop is left. */
    method Receive() returns (done: bool, outcome: Outcome)
      requires Valid() && !Settled(buf)
      modifies this, Images(), fs
      ensures Valid() && bytesFromAmt == old(bytesFromAmt)
      ensures done ==> (Abs(), outcome) == Drain(T.Dispatch, old(Abs()))
      ensures !done ==> Drain(T.Dispatch, Abs()) == Drain(T.Dispatch, old(Abs())) && |buf| < |old(buf)|
    {
      hide T.Dispatch, Quiet, Peek, FromLE;
      match Next(buf, inSeq) {
        case Refuse(e) =>
          stopped := true;
          buf := [];
          return true, Raised(e);
        case TakeNext(n) =>
          var verdict := TakeMessage(n);
          match verdict {
            case Continue =>
              return false, Ok;
            case Close =>
              stopped := true;
              return true, Ok;
            case Raise(e, teardown) =>
              stopped := stopped || teardown;
              return true, Raised(e);
          }
      }
    }

    /** Bytes in; zero or more complete messages handled. */
    method Feed(data: seq<byte>) returns (outcome: Outcome)
      requires Valid()
      modifies this, Images(), fs
      ensures Valid()
      ensures (Abs(), outcome) == T.Feed(old(Abs()), data)
      ensures bytesFromAmt == old(bytesFromAmt) + (if old(stopped) then 0 else |data|)
    {
      if stopped {
        return Raised(AfterTeardown);
      }
      bytesFromAmt := bytesFromAmt + |data|;
      buf := buf + data;
      assert Abs() == old(Abs()).(buf := old(buf) + data);
      while !Settled(buf)
        invariant Valid()
        invariant bytesFromAmt == old(bytesFromAmt) + |data|
        invariant Drain(T.Dispatch, Abs()) == T.Feed(old(Abs()), data)
        decreases |buf|
      {
        var done, left := Receive();
        if done {
          return left;
        }
      }
      return Ok;
    }
  }
}
