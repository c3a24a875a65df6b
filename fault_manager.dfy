/**
 * The resource manager behind /dev/fault_manager: the read handler that
 * serves a fixed status text through a per-open cursor, the write handler
 * that turns a payload into a fault number and logs it, and the pulse
 * handler that logs the value of every pulse carrying the fault code.
 */
module FaultManager {
  import opened Wrappers
  import opened Decimal
  import opened Timestamp
  import opened FaultLog

  /** The text every reader receives. */
  const StatusText: string := "Fault manager works ok\n"

  /**
   * The bytes a reader can fetch: the text and the NUL that ends it, since the
   * advertised size is strlen(text) + 1.
   */
  const StatusBytes: string := StatusText + ['\0']

  /** The pulse code that announces a fault. */
  const FaultPulseNumber: int := 15

  /** sizeof(io_write_t): the header in front of the data of a write message. */
  const WriteHeaderSize: nat := 16

  /** _IO_XTYPE_MASK and _IO_XTYPE_NONE: only plain reads and writes are supported. */
  const XtypeMask: bv32 := 0xFF
  const XtypeNone: bv32 := 0

  /** One more than the largest `size_t` (64 bits). */
  const SizeModulus: int := 0x1_0000_0000_0000_0000

  /** The time stamps of the device marked as out of date (IOFUNC_ATTR_ATIME, _MTIME, _CTIME). */
  datatype AttrFlag = ATime | MTime | CTime

  /** Why a handler refused a message; each becomes the errno the client sees. */
  datatype Error =
    | Rejected(status: int)  // the status iofunc_read_verify or iofunc_write_verify returned
    | Unsupported            // ENOSYS: an xtype other than _IO_XTYPE_NONE
    | BadMessage             // EBADMSG: more data claimed than the message carries
    | OutOfMemory            // ENOMEM: no buffer for the payload

  /** What a handler hands back to the framework: an error, or _RESMGR_NPARTS(nparts) with the byte count set for the client. */
  datatype Reply = Failed(error: Error) | Done(nparts: nat, nbytes: nat)

  // ----- the read path -----

  /**
   * How many bytes a read returns when the cursor is at `offset` of an
   * `nbytes`-byte resource and the client asks for `requested`: as many as
   * asked, cut at the end of the resource, and none from past the end.
   */
  function ReadCount(nbytes: nat, offset: nat, requested: nat): (n: nat)
    ensures n <= requested
    ensures n > 0 ==> offset + n <= nbytes
    ensures n < requested ==> offset + n >= nbytes
  {
    if offset >= nbytes then 0 else Min(requested, nbytes - offset)
  }

  /** The count as io_read computes it: `nleft` is a `size_t`, so nbytes - offset wraps when the offset is past the end. */
  function ReadCountAsWritten(nbytes: nat, offset: nat, requested: nat): nat
  {
    Min(requested, (nbytes - offset) % SizeModulus)
  }

  /** Within the resource the count as written and the corrected count agree. */
  lemma ReadCountAsWrittenWithinBounds(nbytes: nat, offset: nat, requested: nat)
    requires offset <= nbytes < SizeModulus
    ensures ReadCountAsWritten(nbytes, offset, requested) == ReadCount(nbytes, offset, requested)
  {
  }

  /**
   * With the cursor one byte past the end of the 24-byte status, a request for
   * 10 bytes is answered with 10 bytes starting at byte 25: io_read as written
   * points the reply past the end of the status text.
   */
  lemma ReadPastEndAsWritten()
    ensures ReadCountAsWritten(|StatusBytes|, 25, 10) == 10
    ensures 25 + ReadCountAsWritten(|StatusBytes|, 25, 10) > |StatusBytes|
    ensures ReadCount(|StatusBytes|, 25, 10) == 0
  {
    assert |StatusBytes| == 24;
  }

  /** The bytes one read returns from a cursor at `offset` of the buffer `status`. */
  function Served(status: string, offset: nat, requested: nat): (data: string)
    ensures |data| == ReadCount(|status|, offset, requested)
    ensures data != [] ==> data == status[offset..offset + |data|]
  {
    var n := ReadCount(|status|, offset, requested);
    if n == 0 then [] else status[offset..offset + n]
  }

  function Sum(requests: seq<nat>): nat
  {
    if requests == [] then 0 else requests[0] + Sum(requests[1..])
  }

  /** Successive reads through one cursor: everything they return, in order, and where the cursor ends. */
  function ReadSeries(status: string, offset: nat, requests: seq<nat>): (string, nat)
    decreases |requests|
  {
    if requests == [] then ([], offset)
    else
      var chunk := Served(status, offset, requests[0]);
      var rest := ReadSeries(status, offset + |chunk|, requests[1..]);
      (chunk + rest.0, rest.1)
  }

  /**
   * Successive reads from a cursor inside the buffer return the buffer from
   * that cursor on, without gap, repetition or reordering, and move the cursor
   * by as much as was asked for, up to the end.
   */
  lemma {:induction false} ReadSeriesIsSlice(status: string, offset: nat, requests: seq<nat>)
    requires offset <= |status|
    ensures ReadSeries(status, offset, requests).1 == Min(offset + Sum(requests), |status|)
    ensures ReadSeries(status, offset, requests).0 == status[offset..ReadSeries(status, offset, requests).1]
    decreases |requests|
  {
    if requests != [] {
      var chunk := Served(status, offset, requests[0]);
      var next := offset + |chunk|;
      assert chunk == status[offset..next];
      ReadSeriesIsSlice(status, next, requests[1..]);
      var end := ReadSeries(status, next, requests[1..]).1;
      assert status[offset..end] == status[offset..next] + status[next..end];
    }
  }

  /**
   * Reads from a fresh cursor asking for at least 24 bytes in all return the
   * whole status text and its NUL, and every read after them returns nothing.
   */
  lemma FreshCursorReadsStatus(requests: seq<nat>)
    requires Sum(requests) >= |StatusBytes|
    ensures ReadSeries(StatusBytes, 0, requests).0 == StatusBytes
    ensures forall requested :: Served(StatusBytes, ReadSeries(StatusBytes, 0, requests).1, requested) == []
  {
    ReadSeriesIsSlice(StatusBytes, 0, requests);
  }

  // ----- the write path -----

  /** The fault number io_write logs for a payload: strtol of the NUL-terminated copy, converted to `int`. */
  function FaultNumberOf(payload: string): (id: Int32)
    ensures -0x8000_0000 <= LeadingInt(payload) < 0x8000_0000 ==> id == LeadingInt(payload)
  {
    ToInt32(Strtol(payload))
  }

  /** A payload holding the decimal text of an `int`, with or without trailing non-digits, logs that number. */
  lemma DecimalPayloadLogsItsNumber(n: Int32, rest: string)
    requires rest == [] || !IsDigit(rest[0])
    ensures FaultNumberOf(IntText(n) + rest) == n
  {
    LeadingIntOfText(n, rest);
  }

  /** A payload that does not start with white space, a sign or a digit logs fault number 0. */
  lemma NonNumericPayloadLogsZero(payload: string)
    requires payload != [] && !IsSpace(payload[0]) && !IsDigit(payload[0])
    requires payload[0] != '-' && payload[0] != '+'
    ensures FaultNumberOf(payload) == 0
  {
    NonNumericReadsZero(payload);
  }

  /** The device's attributes (iofunc_attr_t), shared by every open of the device. */
  class Attr {
    var nbytes: nat
    var flags: set<AttrFlag>

    constructor (size: nat)
      ensures nbytes == size && flags == {}
    {
      nbytes := size;
      flags := {};
    }
  }

  /** One open of the device (iofunc_ocb_t): its own cursor into the status. */
  class Ocb {
    var offset: nat
    const attr: Attr

    /** A fresh open starts reading at the beginning. */
    constructor (attr: Attr)
      ensures this.attr == attr && offset == 0
    {
      this.attr := attr;
      offset := 0;
    }
  }

  /** The handlers registered for /dev/fault_manager, with the device attributes and the fault log they act on. */
  class ResourceManager {
    const attr: Attr
    const log: LogFile

    /** The size of the device is the status text and its NUL. */
    ghost predicate Valid()
      reads this, attr
    {
      attr.nbytes == |StatusBytes|
    }

    /** The set-up of the attributes before the name is attached: attr.nbytes = strlen(status) + 1. */
    constructor (log: LogFile)
      ensures Valid() && fresh(attr) && this.log == log
      ensures attr.nbytes == 24 && attr.flags == {}
    {
      attr := new Attr(|StatusText| + 1);
      this.log := log;
    }

    /** io_read: `verified` is what iofunc_read_verify returned, `requested` the size of the client's buffer. */
    method Read(ocb: Ocb, verified: int, xtype: bv32, requested: nat) returns (reply: Reply, data: string)
      requires Valid() && ocb.attr == attr
      modifies ocb, attr
      ensures Valid()
      ensures verified != 0 ==>
                reply == Failed(Rejected(verified)) && data == [] && unchanged(ocb, attr)
      ensures verified == 0 && xtype & XtypeMask != XtypeNone ==>
                reply == Failed(Unsupported) && data == [] && unchanged(ocb, attr)
      ensures verified == 0 && xtype & XtypeMask == XtypeNone ==>
                && data == Served(StatusBytes, old(ocb.offset), requested)
                && ocb.offset == old(ocb.offset) + |data|
                && (old(ocb.offset) <= attr.nbytes ==> ocb.offset <= attr.nbytes)
                && reply == Done(if data == [] then 0 else 1, |data|)
                && attr.flags == old(attr.flags) + (if requested > 0 then {ATime} else {})
    {
      if verified != 0 {
        return Failed(Rejected(verified)), [];
      }
      if xtype & XtypeMask != XtypeNone {
        return Failed(Unsupported), [];
      }
      var count := ReadCount(ocb.attr.nbytes, ocb.offset, requested);
      if count > 0 {
        data := StatusBytes[ocb.offset..ocb.offset + count];
        reply := Done(1, count);
        ocb.offset := ocb.offset + count;
      } else {
        data := [];
        reply := Done(0, 0);
      }
      if requested > 0 {
        ocb.attr.flags := ocb.attr.flags + {ATime};
      }
    }

    /**
     * io_write. `verified` is what iofunc_write_verify returned; `claimed` is the
     * length the client gave; `msgLen` and `msgOffset` locate the message in
     * what was received and `message` is the data that follows its header;
     * `bufferAllocated` says whether malloc succeeded; `env` is what log_fault meets.
     */
    method Write(ocb: Ocb, verified: int, xtype: bv32, claimed: nat, msgLen: nat, msgOffset: nat,
                 message: string, bufferAllocated: bool, env: LogEnv) returns (reply: Reply)
      requires Valid() && ocb.attr == attr
      requires msgOffset + WriteHeaderSize <= msgLen
      requires |message| == msgLen - msgOffset - WriteHeaderSize
      requires ValidTm(env.now)
      modifies attr, log
      ensures Valid()
      ensures verified != 0 ==>
                reply == Failed(Rejected(verified)) && unchanged(attr, log)
      ensures verified == 0 && xtype & XtypeMask != XtypeNone ==>
                reply == Failed(Unsupported) && unchanged(attr, log)
      ensures verified == 0 && xtype & XtypeMask == XtypeNone && claimed > |message| ==>
                reply == Failed(BadMessage) && unchanged(attr, log)
      ensures verified == 0 && xtype & XtypeMask == XtypeNone && claimed <= |message| && !bufferAllocated ==>
                reply == Failed(OutOfMemory) && unchanged(attr, log)
      ensures verified == 0 && xtype & XtypeMask == XtypeNone && claimed <= |message| && bufferAllocated ==>
                && reply == Done(0, claimed)
                && log.content == old(log.content) + LoggedBytes(FaultNumberOf(message[..claimed]), env)
                && attr.flags == old(attr.flags) + (if claimed > 0 then {MTime, CTime} else {})
    {
      if verified != 0 {
        return Failed(Rejected(verified));
      }
      if xtype & XtypeMask != XtypeNone {
        return Failed(Unsupported);
      }
      if claimed > msgLen - msgOffset - WriteHeaderSize {
        return Failed(BadMessage);
      }
      if !bufferAllocated {
        return Failed(OutOfMemory);
      }
      // resmgr_msgget copies the claimed bytes; the copy is then NUL-terminated.
      var buf := message[..claimed] + ['\0'];
      LeadingIntStopsAt(message[..claimed], ['\0']);
      var faultNumber := ToInt32(Strtol(buf));
      assert faultNumber == FaultNumberOf(message[..claimed]);
      var _ := log.LogFault(faultNumber, env);
      if claimed > 0 {
        ocb.attr.flags := ocb.attr.flags + {MTime, CTime};
      }
      reply := Done(0, claimed);
    }

    /** fault_pulse_handler: a pulse with the fault code logs its value as the fault number; any other code is ignored. */
    method HandlePulse(code: int, value: Int32, env: LogEnv) returns (r: int)
      requires ValidTm(env.now)
      modifies log
      ensures r == 0
      ensures code == FaultPulseNumber ==> log.content == old(log.content) + LoggedBytes(value, env)
      ensures code != FaultPulseNumber ==> log.content == old(log.content)
    {
      if code == FaultPulseNumber {
        var _ := log.LogFault(value, env);
      }
      return 0;
    }
  }

  /**
   * A client session on a freshly started manager: one open writes "3" while
   * the log accepts the whole record, then another open reads twice with a
   * 1024-byte buffer. The log gains the record of fault 3, the first read
   * returns the whole status with its NUL and the second returns nothing.
   */
  method WriteThenReadTwice(now: Tm, initialLog: string) returns (logged: string, first: string, second: string)
    requires ValidTm(now)
    ensures logged == initialLog + Entry(Strftime(now), 3)
    ensures first == StatusBytes && second == []
  {
    var log := new LogFile(initialLog);
    var manager := new ResourceManager(log);
    var writer := new Ocb(manager.attr);
    EntryFits(now, 3);
    assert "3" == IntText(3) + [];
    DecimalPayloadLogsItsNumber(3, []);
    var _ := manager.Write(writer, 0, 0, 1, WriteHeaderSize + 1, 0, "3", true, LogEnv(now, true, Wrote(39)));
    logged := log.content;
    var reader := new Ocb(manager.attr);
    var reply, data := manager.Read(reader, 0, 0, 1024);
    first := data;
    reply, data := manager.Read(reader, 0, 0, 1024);
    second := data;
  }
}
