# twig — a verified model of the dispatch pipeline

twig is a tiny C logging library. A logger holds a label, a NULL-terminated
list of sinks and a formatter callback. `twig()` renders the message once with
the formatter and then offers one record (severity flag, label, file, line)
with the rendered buffer to every sink whose level accepts the flag, in list
order, giving up at the first sink that fails. The reference program adds two
sinks: a stream sink that writes a timestamped, prefixed line, and a
system-log sink that sends a bracketed message at a mapped priority. It also
adds a formatter that renders into a reusable memory stream.

This project models that pipeline in Dafny:

- `optional.dfy` (module `Optional`): the `Option` type used for absent results.
- `text.dfy` (module `TextFormat`): the two printf conversions the sinks use,
  `%d` for the source line and `%09lu` for nanoseconds. It also has the field
  splitting used to read a line back.
- `twig.dfy` (module `Twig`, for `twig.h`):
  - the severity flags and the cumulative levels as 32-bit vectors;
  - the acceptance test `level & lflag != 0`;
  - `Dispatch`, a loop-free specification of one `twig()` call;
  - `Dispatcher`, the `twig()` loop itself, proved against `Dispatch`;
  - the four call-site macros.
- `backends.dfy` (module `Backends`, for `main.c`):
  - the severity-name and syslog-priority tables;
  - the stream-line and syslog-message layouts, each with a parser and a
    round-trip lemma;
  - classes for a stream destination (`OutStream`), the system log
    (`SystemLog`) and the formatter's memory stream (`FmtData`);
  - the early-return chains of `stream_write_cb` and `logger_fmt_cb` as
    methods over those classes.

Callbacks are modelled by their outcomes:

- The formatter's outcome is an `Option<string>`: the rendered buffer, or
  `None` when it fails.
- Each slot of the sink list has a write outcome, in `writeOk`.
- `Dispatcher` returns the result plus a trace of calls: one `FormatCall`,
  then one `WriteCall(sink index, record, buffer)` per sink written.
- Each I/O step of a sink or of the formatter takes its success as a
  parameter.

The NULL sentinel is a `None` slot of a `seq<Option<Sink>>`.

The code returns a single `TWIG_ERRNO_ERROR` for both a formatter failure and
a sink failure. The model follows the code: its `Errno` is `Ok | Error`. It
does not carry separate format and write error kinds.

## Model

| member | source | states |
|---|---|---|
| Twig.FlagsAreSingleBits | twig.h:7-12 | The four severity flags are 1, 2, 4 and 8. Each is a single bit, and any two distinct flags share no bit. |
| Twig.LevelsAreCumulative | twig.h:14-21 | Each named level strictly contains the previous one, and the flag it adds was not already in it: NONE ⊂ ERROR ⊂ WARN ⊂ INFO ⊂ DEBUG, with values 0, 8, 12, 14 and 15. ALL equals DEBUG. |
| Twig.Accepts | twig.h:87 | The acceptance test `level & lflag != 0`. For a single-bit flag it holds exactly when the level already contains the flag (`level OR lflag == level`). |
| Twig.AcceptanceTable | twig.h:87 | For each of the five named levels and each flag: the level accepts the flag exactly when the flag is at or above the level's threshold. NONE accepts nothing; DEBUG and ALL accept every flag. |
| Twig.Sentinel | twig.h:84 | The iteration ends at the first NULL slot: every slot before it holds a sink. |
| Twig.AcceptingBelowExact | twig.h:84-89 | The sinks offered the record are exactly the sinks before the sentinel whose level accepts the flag. They are listed in strictly increasing list order. |
| Twig.FirstFailure | twig.h:97-100 | Gives the position of the first accepting sink whose write fails, or the count of accepting sinks when none fails. Every sink before that position succeeds. |
| Twig.Attempted | twig.h:97-100 | The sinks written form a prefix of the accepting sinks. It is the whole list when every write succeeds, and ends at the first failing sink otherwise. |
| Twig.Dispatch | twig.h:71-106 | The loop-free description of one `twig()` call that `Dispatcher` is proved against. The trace always starts with the one format call, and its length is at most one more than the number of slots before the sentinel. On Ok the formatter succeeded and the trace has one entry per accepting sink besides the format call. Which sinks are written, and in what order, is stated by `WritesInListOrder`. |
| Twig.Dispatcher | twig.h:71-106 | The `twig()` loop over the sink list, with its `continue` and early returns. Its result and call trace equal `Dispatch` for every logger, formatter outcome and write outcome. |
| Twig.FormatOnceFirst | twig.h:79-82 | The formatter is called exactly once, as the first call, and never again. When it fails, the result is Error and no sink is written. |
| Twig.WritesInListOrder | twig.h:84-101 | On Ok, the writes are exactly the accepting sinks in list order. On Error after a successful format, the writes are a nonempty prefix of that list; only the last of them fails and no later sink is written. |
| Twig.OkIffAllAcceptingSucceed | twig.h:79-105 | The result is Ok exactly when the formatter succeeds and every accepting sink's write succeeds. |
| Twig.SameRecordAndBuffer | twig.h:90-97 | Every write receives the record (call's flag, logger's label, call's file and line) and the one buffer produced by the single format call. |
| Twig.InfoSkipsWarnSink | twig.h:87-89 | A WARN-level sink is never written for an info record, even when its write would fail. The call returns Ok after the one format call. |
| Twig.SecondSinkFails | twig.h:97-100 | With two DEBUG sinks where the second fails, each sink is written once, in order, and the call returns Error. |
| Twig.Debug | twig.h:59-60 | `twig_debug` dispatches with the DEBUG flag. |
| Twig.Info | twig.h:62-63 | `twig_info` dispatches with the INFO flag. |
| Twig.Warn | twig.h:65-66 | `twig_warn` dispatches with the WARN flag. |
| Twig.Err | twig.h:68-69 | `twig_error` dispatches with the ERROR flag. |
| TextFormat.Digits | main.c:100 | The `%d`/`%lu` digits of a natural number: at least one digit, all decimal, no leading zero, denoting the number. |
| TextFormat.ZeroPadded | main.c:100 | `%0<width>lu`: all decimal digits denoting the number, with length equal to the larger of the width and the number's digit count. |
| TextFormat.ZeroPaddedWidth | main.c:100 | A number below 10^width is printed in exactly width characters. |
| TextFormat.Decimal | main.c:100 | `%d` on an int: at least one character; a minus sign exactly when the value is negative, followed only by digits, with no leading zero unless the value is 0. `DecimalRoundTrip` gives its value. |
| TextFormat.DecimalRoundTrip | main.c:100 | Reading the `%d` text back yields the original int. |
| Backends.SeverityName | main.c:84-89 | The name printed for a flag is four or five capital letters, so it never contains a field delimiter of the stream line. |
| Backends.SeverityNamesIdentifyFlags | main.c:84-89 | The name table maps DEBUG, INFO, WARN and ERROR to "DEBUG", "INFO", "WARN" and "ERROR". It is injective, and reading a name back yields its flag. |
| Backends.SyslogPriority | main.c:135-140 | The priority is one of the four RFC 5424 codes LOG_ERR, LOG_WARNING, LOG_INFO and LOG_DEBUG. It is warning or more severe exactly when the flag is WARN or ERROR. |
| Backends.SyslogPriorityTable | main.c:135-140 | The priority table maps DEBUG, INFO, WARN and ERROR to LOG_DEBUG (7), LOG_INFO (6), LOG_WARNING (4) and LOG_ERR (3). It is injective, stays within 0..7, and gives a more urgent flag a numerically lower priority. |
| Backends.Nanos | main.c:100-102 | The `%09lu` field: at least nine decimal digits that denote the nanosecond count. |
| Backends.NanosIsNineDigits | main.c:100-102 | For every nanosecond count below 10^9, the field is exactly nine zero-padded decimal digits that denote the count. |
| Backends.Site | main.c:100-105 | The site field's length is that of the label, the file and the `%d` text of the line plus two, with the vertical bar right after the label and the colon right after the file. `SiteFields` places every field. |
| Backends.SiteFields | main.c:100-105 | The site field is exactly the label, a vertical bar, the file, a colon, then the `%d` text of the line. |
| Backends.StreamPrefix | main.c:98-107 | The prefix's length is that of its fields plus the seven fixed characters. It opens with a bracket, has a dot right after the time, and closes with a bracket and a space. `StreamPrefixFields` places every field. |
| Backends.StreamPrefixFields | main.c:98-107 | The prefix is exactly: a bracket, the time, a dot, the nine-digit nanoseconds, "Z" and a vertical bar, the site, a vertical bar, the severity name, then a bracket and a space. |
| Backends.StreamLine | main.c:118-126 | A stream record is as long as the prefix plus the buffer plus one, and ends with a newline. `StreamLineFields` places the prefix and the buffer. |
| Backends.StreamLineFields | main.c:118-126 | A stream record is exactly the prefix, then the rendered buffer, then one newline. |
| Backends.SyslogMessage | main.c:142-149 | The system-log message is as long as the site plus the buffer plus three. It opens with a bracket, and a bracket and a space follow the site. `SyslogMessageFields` places the site and the buffer. |
| Backends.SyslogMessageFields | main.c:142-149 | The system-log message is exactly a bracket, the site, a bracket and a space, then the rendered buffer. |
| Backends.SiteRoundTrip | main.c:100-105 | The site field (label, a vertical bar, file, a colon, line), followed by its closing delimiter, reads back as the label, file and line. This holds whenever the label has no vertical bar and the file no colon. |
| Backends.StreamLineRoundTrip | main.c:98-127 | A stream line (bracketed time, nine-digit nanoseconds, site and severity name, then the buffer and a newline) reads back as exactly the time, nanoseconds, record and buffer it was written from. |
| Backends.SyslogMessageRoundTrip | main.c:142-149 | The system-log message (bracketed site, a space, then the buffer) reads back as exactly the label, file, line and buffer. |
| Backends.OutStream.Put | main.c:121-126 | One write on a stream: it is always requested, and its text is delivered only on success; the result reports the outcome. |
| Backends.WritePrefix | main.c:81-113 | `stream_write_prefix` requests the prefix once. On success it delivers the prefix and returns Ok; on failure it returns Error. |
| Backends.StreamWrite | main.c:115-128 | Returns Ok exactly when the prefix, body and newline writes all succeed, and then the destination gains the whole stream line. On the first failing step it returns Error, and no later step is requested. |
| Backends.SystemLog.Send | main.c:142-149 | `syslog(3)` appends one (priority, message) entry. |
| Backends.SyslogWrite | main.c:130-152 | Ignores the sink, appends one entry at the record's mapped priority holding the bracketed message, and always returns Ok. |
| Backends.Overwrite | main.c:162 | Writing text at a position keeps what precedes it, places the text there, and keeps any longer old tail. |
| Backends.FmtData.Rewind | main.c:159-161 | `fseek` to 0: on success the position becomes 0. The contents and the published buffer are unchanged. |
| Backends.FmtData.Render | main.c:162-164 | `vfprintf`: on success the text is written over the contents at the position, and the position advances past it. |
| Backends.FmtData.Flush | main.c:165-167 | `fflush`: on success the published buffer becomes the contents up to the position. |
| Backends.FmtData.Format | main.c:154-171 | Returns Ok exactly when rewind, render and flush all succeed. Then it hands out the published buffer, which equals the rendered text. After success the contents are the old contents overwritten from position 0 by the rendered text. On the first failing step it returns Error, hands out nothing, leaves the published buffer as it was, and makes no later stream operation. A failed rewind leaves the contents and position as they were. A failed render leaves the contents as they were, at position 0. |

## Left out

- `main()` (main.c:34-79) is left out: it is demo wiring (`open_memstream`, `openlog`/`closelog`, `fclose`/`free`).
- The clock and the calendar conversion (`clock_gettime`, `gmtime_r`, `strftime`, main.c:94-96) are left out. The stream sink takes the formatted time string and the nanosecond count as parameters.
- printf-style rendering and `va_list` handling are left out. The rendered text is an input string, and the formatter outcome is an input `Option<string>`.
- Byte delivery is not modelled. Each I/O step's success is a parameter, and a failed step delivers nothing, so partial output from a failing write is not represented.
- The memory stream's growth is not modelled. The published buffer is the contents up to the stream position. This follows glibc, which writes a NUL byte at the current position on `fflush`, so a shorter message after a longer one is read without the older tail. POSIX's wording for `open_memstream` adds the NUL only when the stream grows; that behaviour is not modelled.
- The formatter's published buffer is a value taken at `fflush`, not an alias of the memory stream's storage (main.c:41, 168). So the model does not capture that the buffer handed to sinks is overwritten by the next format call. It also does not capture that, after a successful render and a failed flush, the storage already holds the new text.
- Sinks receive the record and the buffer through pointers (twig.h:32, 97). The model passes both by value, so a write callback that changes them, and with them what later sinks see, is not represented.
- C strings are bytes ending at the first NUL, and `%s` and `fputs` stop there. The model's strings are sequences of characters and may contain '\0'; truncation at an embedded NUL and byte encodings are not modelled.
- Function pointers and `void *` state are not modelled. Each sink is represented by its level, and its write callback by an outcome per slot.
- Flags other than the four single-bit ones are left out; every record's flag is one of the four flags. `twig()` does not check the flag, and the name and priority tables of main.c:84-89 and main.c:135-140 have nine entries, indexed 0 to 8. So flag 0 is accepted by no sink, since `level & 0` is 0 (twig.h:87). Flags 3, 5, 6 and 7 land inside the tables on empty entries: a NULL name reaches `%s` in the stream prefix (main.c:106), and the syslog priority is 0, LOG_EMERG (main.c:143). Flags of 9 or more index past the end of both tables.
- `int` width is not modelled: the source line is an unbounded integer.
- Concurrency is left out; the library has none.
- StreamLineRoundTrip: holds only when the time has no '.', the label no '|' and the file no ':'. Without these, the layout is ambiguous.
- SiteRoundTrip: holds only when the label has no '|' and the file no ':'.
- SyslogMessageRoundTrip: holds only when the label has no '|' and the file no ':'.
