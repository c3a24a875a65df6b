/**
 * log_fault: one record "<YYYY-MM-DD HH:MM:SS> <fault number>\n" appended to
 * the file /data/fault_log. The file is its sequence of bytes; the clock and
 * the outcome of open(2) and write(2) are inputs.
 */
module FaultLog {
  import opened Wrappers
  import opened Decimal
  import opened Timestamp

  /** Size of the `log_entry` buffer the record is formatted into. */
  const EntryCapacity: nat := 128

  /** What write(2) returned: -1, or the number of bytes the file accepted. */
  datatype WriteResult = WriteFailed | Wrote(count: nat)

  /** Everything log_fault learns from outside: the local time, whether open(2) succeeded, what write(2) did. */
  datatype LogEnv = LogEnv(now: Tm, openSucceeded: bool, written: WriteResult)

  /** The record snprintf builds with "%s %d\n" from the stamp and the fault number. */
  function Entry(timestamp: string, faultNumber: int): (line: string)
    ensures |line| == |timestamp| + |IntText(faultNumber)| + 2
    ensures line[..|timestamp|] == timestamp && line[|timestamp|] == ' '
    ensures line[|timestamp| + 1..|line| - 1] == IntText(faultNumber) && line[|line| - 1] == '\n'
  {
    timestamp + " " + IntText(faultNumber) + "\n"
  }

  /**
   * snprintf(buf, n, ...) for a text `text` (C11 section 7.21.6.5): at most
   * n - 1 characters are stored, and the length of the whole text is returned.
   */
  function Snprintf(n: nat, text: string): (r: (string, nat))
    requires n >= 1
    ensures r.1 == |text|
    ensures r.0 <= text && |r.0| < n
    ensures |text| < n ==> r.0 == text
  {
    (text[..Min(|text|, n - 1)], |text|)
  }

  /** Reading one record of the file back: its stamp and its fault number. */
  function ParseEntry(line: string): Option<(Tm, int)>
  {
    if |line| >= 22 && line[19] == ' ' && line[|line| - 1] == '\n' then
      match ParseTimestamp(line[..19])
      case None => None
      case Some(t) =>
        match ParseInt(line[20..|line| - 1])
        case None => None
        case Some(n) => Some((t, n))
    else None
  }

  /** The value log_fault returns: -1 when open fails or write returns -1, 0 otherwise (a short write included). */
  function LogStatus(env: LogEnv): (r: int)
    ensures r == -1 <==> !env.openSucceeded || env.written.WriteFailed?
    ensures r == 0 <==> env.openSucceeded && env.written.Wrote?
  {
    if env.openSucceeded && env.written.Wrote? then 0 else -1
  }

  /**
   * The bytes one call of log_fault adds to the end of the file: nothing when
   * open or write fails, the whole record when write takes it all, and only
   * the first bytes of it after a short write.
   */
  function LoggedBytes(faultNumber: Int32, env: LogEnv): (b: string)
    requires ValidTm(env.now)
    ensures b <= Entry(Strftime(env.now), faultNumber)
    ensures LogStatus(env) == -1 ==> b == []
    ensures env.openSucceeded && env.written.Wrote? ==>
              |b| == Min(env.written.count, |Entry(Strftime(env.now), faultNumber)|)
    ensures env.openSucceeded && env.written.Wrote? && env.written.count >= |Entry(Strftime(env.now), faultNumber)| ==>
              b == Entry(Strftime(env.now), faultNumber)
  {
    var entry := Entry(Strftime(env.now), faultNumber);
    if env.openSucceeded && env.written.Wrote? then entry[..Min(env.written.count, |entry|)] else []
  }

  /**
   * A record is at most 39 bytes (at most 32 for a four-digit year), so it
   * always fits the 128-byte buffer and snprintf never truncates it.
   */
  lemma EntryFits(now: Tm, faultNumber: Int32)
    requires ValidTm(now)
    ensures |Entry(Strftime(now), faultNumber)| <= 39 < EntryCapacity
    ensures FourDigitYear(now) ==> |Entry(Strftime(now), faultNumber)| <= 32
  {
    StrftimeLength(now);
    IntTextOfInt32(faultNumber);
  }

  /** For four-digit years a record reads back as the time and the fault number it was made from. */
  lemma EntryRoundTrip(now: Tm, faultNumber: int)
    requires ValidTm(now) && FourDigitYear(now)
    ensures ParseEntry(Entry(Strftime(now), faultNumber)) == Some((now, faultNumber))
  {
    var line := Entry(Strftime(now), faultNumber);
    StrftimeLength(now);
    TimestampRoundTrip(now);
    ParseIntRoundTrip(faultNumber);
    assert line[..19] == Strftime(now);
    assert line[20..|line| - 1] == IntText(faultNumber);
  }

  /** The file /data/fault_log, opened with O_CREAT | O_WRONLY | O_APPEND. */
  class LogFile {
    var content: string

    constructor (initial: string)
      ensures content == initial
    {
      content := initial;
    }

    /** log_fault(faultNumber). */
    method LogFault(faultNumber: Int32, env: LogEnv) returns (status: int)
      requires ValidTm(env.now)
      modifies this
      ensures status == LogStatus(env)
      ensures content == old(content) + LoggedBytes(faultNumber, env)
    {
      if !env.openSucceeded {
        return -1;
      }
      var timestamp := Strftime(env.now);
      var entry := Snprintf(EntryCapacity, Entry(timestamp, faultNumber));
      var logEntry, entryLength := entry.0, entry.1;
      EntryFits(env.now, faultNumber);
      match env.written
      case WriteFailed =>
        status := -1;
      case Wrote(count) =>
        content := content + logEntry[..Min(count, entryLength)];
        status := 0;
    }
  }
}
