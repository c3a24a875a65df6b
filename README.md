# Fault manager resource manager, modelled in Dafny

This project models the QNX resource manager that serves `/dev/fault_manager`
(`FaultManager_ResMgr/FaultManager/src/FaultManager.c`). The model covers four handlers:

- **`io_read`** serves the fixed status `"Fault manager works ok\n"`. The device
  advertises `strlen + 1` = 24 bytes, so the terminating NUL is part of what can be read.
  Each open has its own cursor.
- **`io_write`** checks the message, copies the payload into a NUL-terminated buffer,
  reads a fault number from it with `strtol(buf, 0, 10)`, logs that number and reports
  the payload as consumed.
- **`fault_pulse_handler`** logs the value of every pulse whose code is
  `fault_pulse_number` (15).
- **`log_fault`** formats `"<YYYY-MM-DD HH:MM:SS> <number>\n"` and appends it to
  `/data/fault_log`.

Modules, one file each:

| file | module | what it holds |
|---|---|---|
| `wrappers.dfy` | `Wrappers` | `Option` and `Min` |
| `decimal.dfy` | `Decimal` | `printf`'s `%d` (`IntText`), `strtol` (`LeadingInt`, `Strtol`), the `long` to `int` conversion (`ToInt32`), and a strict reader of `%d` output (`ParseInt`) |
| `timestamp.dfy` | `Timestamp` | `struct tm`, `strftime` with `"%Y-%m-%d %H:%M:%S"`, and a reader for the stamp |
| `fault_log.dfy` | `FaultLog` | the record format, `snprintf` into the 128-byte buffer, the outcome of one `log_fault`, and the class `LogFile` whose `LogFault` appends to the file |
| `fault_manager.dfy` | `FaultManager` | the status buffer, the read count and read series, the fault number of a payload, and the classes `Attr` (`iofunc_attr_t`), `Ocb` (`iofunc_ocb_t`) and `ResourceManager` with `Read`, `Write` and `HandlePulse` |

The log file is modelled as its bytes. The outcome of `open(2)` and `write(2)` and the
broken-down local time are inputs (`LogEnv`). The result of `Read` and of `Write` is either an error
(`Rejected`, `Unsupported` = ENOSYS, `BadMessage` = EBADMSG, `OutOfMemory` = ENOMEM) or
`Done(nparts, nbytes)`.

Three behaviours of the code are worth stating, because a reader might expect otherwise:

- A short write to the log is not detected. `log_fault` returns 0, and the file can keep a
  partial record: the first bytes of the line, with no newline. `LoggedBytes` and
  `LogFile.LogFault` model this.
- `log_fault` opens the file before it reads the clock. It reports failure only as -1, and
  both callers ignore that result.
- `io_write` checks the xtype before the claimed length, so a message that breaks both
  rules gets ENOSYS.

## Model

| member | source | states |
|---|---|---|
| `Decimal.NatText` | FaultManager_ResMgr/FaultManager/src/FaultManager.c:44-45 | `%d` prints at least one digit, only digits, and no leading zero unless the value is 0 |
| `Decimal.IntText` | FaultManager_ResMgr/FaultManager/src/FaultManager.c:44-45 | definition of `%d`: the text starts with `-` exactly for a negative value, and is digits otherwise; characterised by `NatText`, `ParseIntRoundTrip`, `IntTextOfInt32` and `LeadingIntOfText` |
| `Decimal.NatTextValue` | FaultManager_ResMgr/FaultManager/src/FaultManager.c:44-45 | reading the digits `%d` printed gives back the number printed |
| `Decimal.NatTextLength` | FaultManager_ResMgr/FaultManager/src/FaultManager.c:44-45 | `%d` prints at most k digits exactly when the value is below 10^k |
| `Decimal.IntTextOfInt32` | FaultManager_ResMgr/FaultManager/src/FaultManager.c:44-45 | every C `int` prints as 1 to 11 characters |
| `Decimal.ParseIntRoundTrip` | FaultManager_ResMgr/FaultManager/src/FaultManager.c:44-45 | the strict reader of the number field inverts `%d` for every integer |
| `Decimal.SpaceRun` | FaultManager_ResMgr/FaultManager/src/FaultManager.c:100 | the white space `strtol` skips is the longest prefix that `isspace` accepts |
| `Decimal.DigitRun` | FaultManager_ResMgr/FaultManager/src/FaultManager.c:100 | the digits `strtol` reads are the longest run of decimal digits |
| `Decimal.LeadingInt` | FaultManager_ResMgr/FaultManager/src/FaultManager.c:100 | definition of the number `strtol(buf, 0, 10)` reads: a negative result means the first non-space character is `-`, a positive one that it is not; characterised by `LeadingIntOfDigits`, `LeadingIntNoDigits`, `LeadingIntOfText`, `LeadingIntSkipsSpace` and `LeadingIntStopsAt` |
| `Decimal.Strtol` | FaultManager_ResMgr/FaultManager/src/FaultManager.c:100 | the result is always within `long` range; it is the leading integer when that fits, and saturates at LONG_MIN or LONG_MAX otherwise |
| `Decimal.ToInt32` | FaultManager_ResMgr/FaultManager/src/FaultManager.c:100 | `int fault_no = strtol(...)` keeps every value in `int` range and otherwise is congruent to it modulo 2^32 |
| `Decimal.LeadingIntOfText` | FaultManager_ResMgr/FaultManager/src/FaultManager.c:100 | the decimal text of any integer, followed by anything that is not a digit, parses to that integer: `"12xyz"` gives 12 |
| `Decimal.LeadingIntOfDigits` | FaultManager_ResMgr/FaultManager/src/FaultManager.c:100 | white space, then no sign, `+` or `-`, then one or more digits (leading zeros included), then anything that is not a digit, reads as the value of the digits, negated after `-`: `"+5"` gives 5 and `"007"` gives 7 |
| `Decimal.LeadingIntNoDigits` | FaultManager_ResMgr/FaultManager/src/FaultManager.c:100 | white space and an optional sign with no digit after them read as 0: `"-x"`, `"+"` and `"  -"` give 0 |
| `Decimal.LeadingIntSkipsSpace` | FaultManager_ResMgr/FaultManager/src/FaultManager.c:100 | leading white space never changes the parsed number |
| `Decimal.LeadingIntStopsAt` | FaultManager_ResMgr/FaultManager/src/FaultManager.c:97-100 | a character that is not white space, a sign or a digit ends the parse, so nothing after it is read; in particular the NUL of line 97 |
| `Decimal.NonNumericReadsZero` | FaultManager_ResMgr/FaultManager/src/FaultManager.c:100 | text that cannot start a number parses to 0: `"abc"` gives 0 |
| `Timestamp.TwoDigits` | FaultManager_ResMgr/FaultManager/src/FaultManager.c:40 | `%m %d %H %M %S` are two zero-padded digits that read back as the field |
| `Timestamp.Strftime` | FaultManager_ResMgr/FaultManager/src/FaultManager.c:40 | definition of `strftime` with `"%Y-%m-%d %H:%M:%S"`: the year as `%d` prints it, followed by 15 characters; characterised by `StrftimeLength` and `TimestampRoundTrip` |
| `Timestamp.StrftimeLength` | FaultManager_ResMgr/FaultManager/src/FaultManager.c:39-40 | the stamp is the year text plus 15 characters, with `-`, `-`, space, `:` and `:` at fixed places from its end; it is 19 characters for a four-digit year and never more than 26, so it fits `timestamp[64]` |
| `Timestamp.TimestampRoundTrip` | FaultManager_ResMgr/FaultManager/src/FaultManager.c:40 | for four-digit years the stamp reads back as exactly the broken-down time it was made from |
| `FaultLog.Entry` | FaultManager_ResMgr/FaultManager/src/FaultManager.c:44 | definition of the `"%s %d\n"` record: the stamp, one space, the `%d` text of the fault number and a final newline; characterised by `EntryFits` and `EntryRoundTrip` |
| `FaultLog.Snprintf` | FaultManager_ResMgr/FaultManager/src/FaultManager.c:43-45 | `snprintf` stores a prefix of the text shorter than the buffer, the whole text when it fits, and returns the full length |
| `FaultLog.LogStatus` | FaultManager_ResMgr/FaultManager/src/FaultManager.c:25-58 | `log_fault` returns -1 exactly when open fails or write returns -1, and 0 otherwise, a short write included |
| `FaultLog.LoggedBytes` | FaultManager_ResMgr/FaultManager/src/FaultManager.c:43-58 | one call adds a prefix of its record to the file: nothing on failure, the first `count` bytes after a short write, and the whole record when write takes it all |
| `FaultLog.EntryFits` | FaultManager_ResMgr/FaultManager/src/FaultManager.c:39-48 | a record is at most 39 bytes, and at most 32 for a four-digit year, so `snprintf` never truncates it in the 128-byte buffer and `write` sends exactly the record |
| `FaultLog.EntryRoundTrip` | FaultManager_ResMgr/FaultManager/src/FaultManager.c:40-45 | for four-digit years a record reads back as its time and its fault number |
| `FaultLog.LogFile.LogFault` | FaultManager_ResMgr/FaultManager/src/FaultManager.c:23-59 | returns `LogStatus`, and the file becomes its old content followed by `LoggedBytes`; nothing already in the file changes |
| `FaultManager.ReadCount` | FaultManager_ResMgr/FaultManager/src/FaultManager.c:130-131 | a read returns at most what was asked, never goes past the end, and returns less only when it reaches the end: `min(requested, nbytes - offset)` inside the buffer |
| `FaultManager.ReadCountAsWritten` | FaultManager_ResMgr/FaultManager/src/FaultManager.c:130-131 | the count with `nleft` computed in `size_t`, as written (see Findings) |
| `FaultManager.ReadCountAsWrittenWithinBounds` | FaultManager_ResMgr/FaultManager/src/FaultManager.c:130-131 | for a cursor inside the buffer, the count as written equals `ReadCount` |
| `FaultManager.ReadPastEndAsWritten` | FaultManager_ResMgr/FaultManager/src/FaultManager.c:130-143 | a cursor at 25 and a request of 10 give 10 bytes starting past the end of the 24-byte status; the corrected count gives 0 |
| `FaultManager.Served` | FaultManager_ResMgr/FaultManager/src/FaultManager.c:130-138 | a read returns `ReadCount` bytes, and they are the buffer's bytes from the cursor on |
| `FaultManager.ReadSeriesIsSlice` | FaultManager_ResMgr/FaultManager/src/FaultManager.c:130-143 | successive reads return the buffer from the cursor on, without gap, repetition or reordering, and leave the cursor at `min(start + total requested, nbytes)` |
| `FaultManager.FreshCursorReadsStatus` | FaultManager_ResMgr/FaultManager/src/FaultManager.c:130-143 | reads from a fresh cursor that ask for 24 bytes or more in all return the whole status and its NUL, and every later read returns 0 bytes |
| `FaultManager.FaultNumberOf` | FaultManager_ResMgr/FaultManager/src/FaultManager.c:96-100 | the fault number of a payload is its leading integer whenever that is within `int` range |
| `FaultManager.DecimalPayloadLogsItsNumber` | FaultManager_ResMgr/FaultManager/src/FaultManager.c:96-102 | writing the decimal text of any `int`, with or without trailing non-digits such as `"\n"`, logs that number |
| `FaultManager.NonNumericPayloadLogsZero` | FaultManager_ResMgr/FaultManager/src/FaultManager.c:96-102 | a payload such as `"hello"` logs fault number 0 |
| `FaultManager.ResourceManager.constructor` | FaultManager_ResMgr/FaultManager/src/FaultManager.c:215-217 | the device starts with no flags and a size of `strlen(status) + 1` = 24 |
| `FaultManager.ResourceManager.Read` | FaultManager_ResMgr/FaultManager/src/FaultManager.c:113-161 | a failed verify or an xtype other than NONE returns the error and changes nothing; otherwise the read returns `Served` and moves the cursor forward by exactly the bytes returned, so a cursor inside the buffer stays inside; it replies with one part, or none when 0 bytes are returned, and sets ATIME exactly when `requested > 0` |
| `FaultManager.ResourceManager.Write` | FaultManager_ResMgr/FaultManager/src/FaultManager.c:62-110 | a failed verify, an unsupported xtype, a claim larger than the data the message carries, or a failed allocation each returns its error with no log change and no flag change; otherwise the write reports `claimed` bytes consumed whatever `log_fault` did, and appends `LoggedBytes` of the payload's fault number; it sets MTIME and CTIME exactly when `claimed > 0` |
| `FaultManager.ResourceManager.HandlePulse` | FaultManager_ResMgr/FaultManager/src/FaultManager.c:163-172 | the handler returns 0; the log gains `LoggedBytes(value)` if and only if the code is 15, and any other code leaves the log unchanged |
| `FaultManager.WriteThenReadTwice` | FaultManager_ResMgr/FaultManager/src/FaultManager.c:62-161 | on a fresh manager, writing `"3"` while the log takes the whole record appends exactly the record of fault 3; a fresh open reading 1024 bytes gets the whole 24-byte status, and its next read gets 0 bytes |

## Findings

| source | as written | input that shows it | evidently intended | confidence | as-written member | corrected member |
|---|---|---|---|---|---|---|
| FaultManager_ResMgr/FaultManager/src/FaultManager.c:130-131 | `nleft = ocb->attr->nbytes - ocb->offset` is a `size_t`, so it wraps when the cursor is past the end | seek the open to offset 25 (the default `lseek` handler that `iofunc_func_init` installs at lines 208-209 accepts offsets beyond the end, as POSIX `lseek` does), then read 10 bytes: 10 bytes are returned from beyond the 24-byte status | a cursor at or past the end returns 0 bytes | medium: depends on the default `lseek` handler accepting such offsets; not executed | `FaultManager.ReadCountAsWritten`, shown by `FaultManager.ReadPastEndAsWritten` | `FaultManager.ReadCount`, used by `FaultManager.ResourceManager.Read` |

## Left out

- `main` is left out: the slog2 buffer registration, the channel, `resmgr_attach`, `pulse_attach` and the dispatch loop. Only the set-up of the device size (lines 215-217) is modelled, in `ResourceManager.constructor`.
- Handlers run one at a time because the dispatch loop is single-threaded, so there is no concurrency to model.
- `iofunc_read_verify` and `iofunc_write_verify` are inputs, `verified`: 0 means EOK, and any other value is returned as it is.
- `resmgr_msgget` is modelled as copying the first `claimed` bytes of `message`, the data that follows the write header.
- `_IO_XTYPE_MASK` (0xFF), `_IO_XTYPE_NONE` (0) and `sizeof(io_write_t)` (16) are constants from the QNX headers, which are not part of this model.
- `malloc` failure is the input `bufferAllocated`. `free` has no observable effect.
- `time` and `localtime` read the wall clock. The broken-down time is an input, restricted to the field ranges of C11 section 7.27.1.
- `open`, `write` and `close` on `/data/fault_log` are inputs in `LogEnv`. `write` never takes more bytes than it was given, so the appended bytes are the first `min(count, length)` bytes of the record. The result of `close` is ignored, as in the source.
- `slog2f`, `printf` and `perror` are diagnostics with no effect on any result, so they are left out.
- The iofunc default handlers are left out, including open and `lseek`. An `Ocb` starts at offset 0 and may hold any offset afterwards, which is why the Finding above matters.
- The test client `FaultMgr_Test.cpp` has no logic of its own. Its pulse (code 15, value 0x44) is `HandlePulse(15, 68, env)`.
- Other bits of `attr.flags` are left out. The set of flags only grows, as the `|=` does.
- ResourceManager.Write: requires `msgOffset + 16 <= msgLen`, so the `size_t` underflow of the bound on line 79 is left out. It also requires that `message` is exactly the data after the header.
- Decimal.Strtol: assumes a 64-bit `long`. Decimal.ToInt32 follows GCC's modulo-2^32 conversion, which C leaves implementation-defined.
- Timestamp.TimestampRoundTrip and FaultLog.EntryRoundTrip: stated only for four-digit years. `%Y` prints other years with more or fewer characters, and the record reader expects 19.
- Timestamp.Strftime: computes `tm_year + 1900` without `int` overflow.
