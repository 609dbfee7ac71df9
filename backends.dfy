/** The reference collaborators of main.c: the stream sink (a timestamped,
    prefixed line per record), the system-log sink (a bracketed message at a
    mapped priority), and the formatter that renders into a reusable memory
    stream. Each I/O step's success is supplied by the caller; the clock and
    the calendar conversion are replaced by the already formatted time and
    the nanosecond count. */
module Backends {

  import opened Optional
  import opened TextFormat
  import opened Twig

  // ---------------------------------------------------------------------
  // Lookup tables

  /** lflag_strings: the name printed for each severity. */
  function SeverityName(f: LFlag): (s: string)
    ensures 4 <= |s| <= 5
    ensures forall i :: 0 <= i < |s| ==> 'A' <= s[i] <= 'Z'
  {
    if f == LFDEBUG then "DEBUG"
    else if f == LFINFO then "INFO"
    else if f == LFWARN then "WARN"
    else "ERROR"
  }

  /** Reads a severity name back. */
  function FlagOfName(s: string): Option<LFlag>
  {
    if s == "DEBUG" then Some(LFDEBUG)
    else if s == "INFO" then Some(LFINFO)
    else if s == "WARN" then Some(LFWARN)
    else if s == "ERROR" then Some(LFERROR)
    else None
  }

  /** The name table is total and names each flag by its own severity; the
      names are distinct, so a name identifies its flag. */
  lemma SeverityNamesIdentifyFlags(f: LFlag)
    ensures FlagOfName(SeverityName(f)) == Some(f)
    ensures SeverityName(LFDEBUG) == "DEBUG" && SeverityName(LFINFO) == "INFO"
    ensures SeverityName(LFWARN) == "WARN" && SeverityName(LFERROR) == "ERROR"
    ensures forall g: LFlag :: SeverityName(g) == SeverityName(f) ==> g == f
  {
  }

  // Severity codes of section 6.2.1 of RFC 5424, as <syslog.h> names them.
  const LOG_ERR: int := 3
  const LOG_WARNING: int := 4
  const LOG_INFO: int := 6
  const LOG_DEBUG: int := 7

  /** lflag_to_syslog_level: the priority a record is logged at. */
  function SyslogPriority(f: LFlag): (p: int)
    ensures p == LOG_ERR || p == LOG_WARNING || p == LOG_INFO || p == LOG_DEBUG
    ensures p <= LOG_WARNING <==> Urgency(f) >= 2
  {
    if f == LFDEBUG then LOG_DEBUG
    else if f == LFINFO then LOG_INFO
    else if f == LFWARN then LOG_WARNING
    else LOG_ERR
  }

  /** The priority table maps DEBUG, INFO, WARN, ERROR to debug, info,
      warning and error; it is a valid RFC 5424 severity, injective, and a more
      urgent flag always gets a numerically lower (more severe) priority. */
  lemma SyslogPriorityTable(f: LFlag, g: LFlag)
    ensures SyslogPriority(LFDEBUG) == LOG_DEBUG && SyslogPriority(LFINFO) == LOG_INFO
    ensures SyslogPriority(LFWARN) == LOG_WARNING && SyslogPriority(LFERROR) == LOG_ERR
    ensures 0 <= SyslogPriority(f) <= 7
    ensures SyslogPriority(f) == SyslogPriority(g) ==> f == g
    ensures Urgency(f) < Urgency(g) <==> SyslogPriority(f) > SyslogPriority(g)
  {
  }

  // ---------------------------------------------------------------------
  // Text layouts

  /** The "%09lu" nanosecond field. */
  function Nanos(nsec: nat): (s: string)
    ensures |s| >= 9 && AllDigits(s) && Value(s) == nsec
  {
    ZeroPadded(nsec, 9)
  }

  /** For every tv_nsec below 10^9 the field is exactly nine zero-padded
      decimal digits denoting tv_nsec. */
  lemma NanosIsNineDigits(nsec: nat)
    requires nsec < 1000000000
    ensures |Nanos(nsec)| == 9 && AllDigits(Nanos(nsec)) && Value(Nanos(nsec)) == nsec
  {
    assert Pow10(9) == 1000000000;
    ZeroPaddedWidth(nsec, 9);
  }

  /** The call site both sinks print: "<label>|<file>:<line>". */
  function Site(rec: Record): (s: string)
    ensures |s| == |rec.logLabel| + |rec.sfile| + 2 + |Decimal(rec.sline)|
    ensures s[|rec.logLabel|] == '|' && s[|rec.logLabel| + 1 + |rec.sfile|] == ':'
  {
    rec.logLabel + "|" + rec.sfile + ":" + Decimal(rec.sline)
  }

  /** stream_write_prefix: "[<time>.<nsec>Z|<label>|<file>:<line>|<NAME>] ". */
  function StreamPrefix(time: string, nsec: nat, rec: Record): (s: string)
    ensures |s| == |time| + |Site(rec)| + |SeverityName(rec.lflag)| + |Nanos(nsec)| + 7
    ensures s[0] == '[' && s[|time| + 1] == '.' && s[|s| - 2] == ']' && s[|s| - 1] == ' '
  {
    "[" + time + "." + Nanos(nsec) + "Z|" + Site(rec) + "|" + SeverityName(rec.lflag) + "] "
  }

  /** A whole stream line: the prefix, the rendered buffer, a newline. */
  function StreamLine(time: string, nsec: nat, rec: Record, buffer: string): (s: string)
    ensures |s| == |StreamPrefix(time, nsec, rec)| + |buffer| + 1 && s[|s| - 1] == '\n'
  {
    StreamPrefix(time, nsec, rec) + buffer + "\n"
  }

  /** syslog_write_cb's message: "[<label>|<file>:<line>] <buffer>". */
  function SyslogMessage(rec: Record, buffer: string): (s: string)
    ensures |s| == |Site(rec)| + 3 + |buffer|
    ensures s[0] == '[' && s[|Site(rec)| + 1] == ']' && s[|Site(rec)| + 2] == ' '
  {
    "[" + Site(rec) + "] " + buffer
  }

  /** Reads "<label>|<file>:<line>" followed by `end` back, with what follows. */
  function ParseSite(s: string, end: char): Option<(string, string, int, string)>
  {
    match Split(s, '|')
    case None => None
    case Some((lbl, r1)) =>
      match Split(r1, ':')
      case None => None
      case Some((file, r2)) =>
        match Split(r2, end)
        case None => None
        case Some((lineText, rest)) =>
          match ParseDecimal(lineText)
          case None => None
          case Some(sline) => Some((lbl, file, sline, rest))
  }

  /** The fields a stream line carries. */
  datatype StreamFields = StreamFields(time: string, nsec: nat, rec: Record, buffer: string)

  /** Reads a stream line back into its fields. */
  function ParseStreamLine(line: string): Option<StreamFields>
  {
    if |line| < 2 || line[0] != '[' || line[|line| - 1] != '\n' then None
    else
      match Split(line[1..|line| - 1], '.')
      case None => None
      case Some((time, r1)) =>
        match Split(r1, 'Z')
        case None => None
        case Some((nanos, r2)) =>
          if !AllDigits(nanos) then None
          else
            match ParseStreamTail(r2)
            case None => None
            case Some((rec, buffer)) => Some(StreamFields(time, Value(nanos), rec, buffer))
  }

  /** Reads "|<label>|<file>:<line>|<NAME>] <buffer>", the part of a stream
      line after the nanoseconds. */
  function ParseStreamTail(r2: string): Option<(Record, string)>
  {
    if r2 == [] || r2[0] != '|' then None
    else
      match ParseSite(r2[1..], '|')
      case None => None
      case Some((lbl, file, sline, r3)) =>
        match Split(r3, ']')
        case None => None
        case Some((name, r4)) =>
          match FlagOfName(name)
          case None => None
          case Some(flag) =>
            if r4 == [] || r4[0] != ' ' then None
            else Some((Record(flag, lbl, file, sline), r4[1..]))
  }

  /** The fields a system-log message carries besides its priority. */
  datatype SyslogFields = SyslogFields(logLabel: string, sfile: string, sline: int, buffer: string)

  /** Reads a system-log message back into its fields. */
  function ParseSyslogMessage(msg: string): Option<SyslogFields>
  {
    if msg == [] || msg[0] != '[' then None
    else
      match ParseSite(msg[1..], ']')
      case None => None
      case Some((lbl, file, sline, r)) =>
        if r == [] || r[0] != ' ' then None
        else Some(SyslogFields(lbl, file, sline, r[1..]))
  }

  lemma DecimalHasNoDelimiters(i: int)
    ensures '|' !in Decimal(i) && ']' !in Decimal(i) && ':' !in Decimal(i)
  {
    var d := Decimal(i);
    if i < 0 {
      assert forall k :: 1 <= k < |d| ==> d[1..][k - 1] == d[k];
    }
  }

  lemma NanosHasNoZ(nsec: nat)
    ensures 'Z' !in Nanos(nsec)
  {
  }

  lemma NameHasNoBracket(f: LFlag)
    ensures ']' !in SeverityName(f)
  {
  }

  /** The site field holds the label, a '|', the file, a ':' and the "%d"
      text of the line, in that order and nothing else. */
  lemma SiteFields(rec: Record)
    ensures var s := Site(rec);
      var a := |rec.logLabel|;
      var b := a + 1 + |rec.sfile|;
      && |s| > b && s[..a] == rec.logLabel && s[a] == '|' && s[a + 1..b] == rec.sfile
      && s[b] == ':' && s[b + 1..] == Decimal(rec.sline)
  {
  }

  /** The prefix holds, in order: '[', the time, '.', the nanoseconds, "Z|",
      the site, '|', the severity name and "] ". */
  lemma StreamPrefixFields(time: string, nsec: nat, rec: Record)
    ensures var s := StreamPrefix(time, nsec, rec);
      var t := |time| + 1;
      var n := t + 1 + |Nanos(nsec)|;
      var st := n + 2 + |Site(rec)|;
      var m := st + 1 + |SeverityName(rec.lflag)|;
      && |s| == m + 2 && s[0] == '[' && s[1..t] == time && s[t] == '.'
      && s[t + 1..n] == Nanos(nsec) && s[n..n + 2] == "Z|" && s[n + 2..st] == Site(rec)
      && s[st] == '|' && s[st + 1..m] == SeverityName(rec.lflag) && s[m..] == "] "
  {
    PrefixSlices(time, Nanos(nsec), Site(rec), SeverityName(rec.lflag));
  }

  /** StreamPrefixFields over plain strings, so that no layout function is
      unfolded. */
  lemma PrefixSlices(time: string, nanos: string, site: string, name: string)
    ensures var s := "[" + time + "." + nanos + "Z|" + site + "|" + name + "] ";
      var t := |time| + 1;
      var n := t + 1 + |nanos|;
      var st := n + 2 + |site|;
      var m := st + 1 + |name|;
      && |s| == m + 2 && s[0] == '[' && s[1..t] == time && s[t] == '.'
      && s[t + 1..n] == nanos && s[n..n + 2] == "Z|" && s[n + 2..st] == site
      && s[st] == '|' && s[st + 1..m] == name && s[m..] == "] "
  {
  }

  /** A stream line is the prefix, then the rendered buffer, then one newline. */
  lemma StreamLineFields(time: string, nsec: nat, rec: Record, buffer: string)
    ensures var s := StreamLine(time, nsec, rec, buffer);
      var p := StreamPrefix(time, nsec, rec);
      && |s| == |p| + |buffer| + 1 && s[..|p|] == p
      && s[|p|..|s| - 1] == buffer && s[|s| - 1] == '\n'
  {
  }

  /** A system-log message is '[', the site, "] ", then the rendered buffer. */
  lemma SyslogMessageFields(rec: Record, buffer: string)
    ensures var s := SyslogMessage(rec, buffer);
      var st := |Site(rec)| + 1;
      && |s| == st + 2 + |buffer| && s[0] == '[' && s[1..st] == Site(rec)
      && s[st..st + 2] == "] " && s[st + 2..] == buffer
  {
  }

  /** The site field reads back when the label has no '|' and the file no ':'. */
  lemma SiteRoundTrip(rec: Record, end: char, rest: string)
    requires '|' !in rec.logLabel && ':' !in rec.sfile && (end == '|' || end == ']')
    ensures ParseSite(Site(rec) + [end] + rest, end) == Some((rec.logLabel, rec.sfile, rec.sline, rest))
  {
    var d := Decimal(rec.sline);
    var r2 := d + [end] + rest;
    var r1 := rec.sfile + ":" + r2;
    assert Site(rec) + [end] + rest == rec.logLabel + "|" + r1;
    DecimalHasNoDelimiters(rec.sline);
    SplitConcat(rec.logLabel, '|', r1);
    SplitConcat(rec.sfile, ':', r2);
    SplitConcat(d, end, rest);
    DecimalRoundTrip(rec.sline);
  }

  /** The stream layout is unambiguous: whenever the time has no '.', the label
      no '|' and the file no ':', the line reads back as exactly the time,
      nanoseconds, record and buffer it was written from. */
  lemma StreamLineRoundTrip(time: string, nsec: nat, rec: Record, buffer: string)
    requires '.' !in time && '|' !in rec.logLabel && ':' !in rec.sfile
    ensures ParseStreamLine(StreamLine(time, nsec, rec, buffer)) == Some(StreamFields(time, nsec, rec, buffer))
  {
    var r2 := ['|'] + (Site(rec) + ['|'] + (SeverityName(rec.lflag) + [']'] + (" " + buffer)));
    StreamLineShape(time, nsec, rec, buffer);
    NanosHasNoZ(nsec);
    StreamTailRoundTrip(rec, buffer);
    StreamHeadRoundTrip(StreamLine(time, nsec, rec, buffer), time, Nanos(nsec), r2);
  }

  /** The bracket, the time and the nanoseconds read back, leaving the tail. */
  lemma StreamHeadRoundTrip(line: string, time: string, nanos: string, r2: string)
    requires line == "[" + (time + ['.'] + (nanos + ['Z'] + r2)) + "\n"
    requires '.' !in time && 'Z' !in nanos && AllDigits(nanos)
    ensures ParseStreamLine(line) ==
      match ParseStreamTail(r2)
      case None => None
      case Some((rec, buffer)) => Some(StreamFields(time, Value(nanos), rec, buffer))
  {
    var r1 := nanos + ['Z'] + r2;
    var mid := time + ['.'] + r1;
    assert |line| == |mid| + 2 && line[0] == '[' && line[|line| - 1] == '\n';
    assert line[1..|line| - 1] == mid;
    SplitConcat(time, '.', r1);
    SplitConcat(nanos, 'Z', r2);
  }

  /** A stream line regrouped around the delimiters its reader splits at. */
  lemma StreamLineShape(time: string, nsec: nat, rec: Record, buffer: string)
    ensures StreamLine(time, nsec, rec, buffer) ==
      "[" + (time + ['.'] + (Nanos(nsec) + ['Z'] + (['|'] + (Site(rec) + ['|']
        + (SeverityName(rec.lflag) + [']'] + (" " + buffer)))))) + "\n"
  {
    StreamLineFlat(time, nsec, rec, buffer);
    Regroup(time, Nanos(nsec), Site(rec), SeverityName(rec.lflag), buffer);
  }

  /** The stream layout's concatenation, regrouped; stated over plain strings
      so that no layout function is unfolded. */
  lemma Regroup(t: string, n: string, site: string, name: string, b: string)
    ensures "[" + t + "." + n + "Z|" + site + "|" + name + "] " + b + "\n" ==
      "[" + (t + ['.'] + (n + ['Z'] + (['|'] + (site + ['|'] + (name + [']'] + (" " + b)))))) + "\n"
  {
  }

  /** The part of a stream line after the nanoseconds' 'Z' reads back as the
      record and the buffer. */
  lemma StreamTailRoundTrip(rec: Record, buffer: string)
    requires '|' !in rec.logLabel && ':' !in rec.sfile
    ensures ParseStreamTail(['|'] + (Site(rec) + ['|'] + (SeverityName(rec.lflag) + [']'] + (" " + buffer))))
      == Some((rec, buffer))
  {
    var name := SeverityName(rec.lflag);
    var r4 := " " + buffer;
    var r3 := name + [']'] + r4;
    var r2 := ['|'] + (Site(rec) + ['|'] + r3);
    assert r2[1..] == Site(rec) + ['|'] + r3;
    SiteRoundTrip(rec, '|', r3);
    NameHasNoBracket(rec.lflag);
    SplitConcat(name, ']', r4);
    SeverityNamesIdentifyFlags(rec.lflag);
    assert r4[1..] == buffer;
  }

  /** The system-log layout is unambiguous: whenever the label has no '|' and
      the file no ':', the message reads back as exactly the label, file, line
      and buffer it was written from. */
  lemma SyslogMessageRoundTrip(rec: Record, buffer: string)
    requires '|' !in rec.logLabel && ':' !in rec.sfile
    ensures ParseSyslogMessage(SyslogMessage(rec, buffer)) ==
      Some(SyslogFields(rec.logLabel, rec.sfile, rec.sline, buffer))
  {
    var msg := SyslogMessage(rec, buffer);
    var rest := " " + buffer;
    assert msg[1..] == Site(rec) + [']'] + rest by {
      assert msg == "[" + (Site(rec) + [']'] + rest);
    }
    SiteRoundTrip(rec, ']', rest);
    assert msg[0] == '[';
    assert rest[1..] == buffer;
  }

  // ---------------------------------------------------------------------
  // The stream sink

  /** A FILE* destination as the stream sink sees it: the text delivered so
      far and the write requests made on it, in order. Whether a request
      succeeds is decided by the caller of Put. */
  class OutStream {
    var text: string
    var requests: seq<string>

    constructor ()
      ensures text == [] && requests == []
    {
      text := [];
      requests := [];
    }

    /** One fprintf/fputs/fputc: requested always, delivered only on success. */
    method Put(s: string, ok: bool) returns (r: Errno)
      modifies this
      ensures r == (if ok then Ok else Error)
      ensures requests == old(requests) + [s]
      ensures text == (if ok then old(text) + s else old(text))
    {
      requests := requests + [s];
      if ok {
        text := text + s;
        r := Ok;
      } else {
        r := Error;
      }
    }
  }

  /** stream_write_prefix: one formatted write of the prefix; a negative
      character count becomes an error. */
  method WritePrefix(dest: OutStream, time: string, nsec: nat, rec: Record, ok: bool)
    returns (r: Errno)
    modifies dest
    ensures r == (if ok then Ok else Error)
    ensures dest.requests == old(dest.requests) + [StreamPrefix(time, nsec, rec)]
    ensures dest.text == (if ok then old(dest.text) + StreamPrefix(time, nsec, rec) else old(dest.text))
  {
    r := dest.Put(StreamPrefix(time, nsec, rec), ok);
  }

  /** The rest of stream_write_cb once the prefix is out: the buffer, then a
      newline unless the buffer's write failed. */
  method WriteBody(dest: OutStream, buffer: string, bodyOk: bool, newlineOk: bool)
    returns (r: Errno)
    modifies dest
    ensures r == Ok <==> bodyOk && newlineOk
    ensures dest.requests == old(dest.requests) + (if !bodyOk then [buffer] else [buffer, "\n"])
    ensures dest.text == old(dest.text) +
      (if !bodyOk then [] else if !newlineOk then buffer else buffer + "\n")
  {
    var b := dest.Put(buffer, bodyOk);
    if b != Ok {
      return Error;
    }
    var n := dest.Put("\n", newlineOk);
    if n != Ok {
      return Error;
    }
    return Ok;
  }

  /** stream_write_cb: the prefix, then the buffer, then a newline, giving up
      at the first step that fails. */
  method StreamWrite(dest: OutStream, time: string, nsec: nat, rec: Record, buffer: string,
                     prefixOk: bool, bodyOk: bool, newlineOk: bool)
    returns (r: Errno)
    modifies dest
    ensures r == Ok <==> prefixOk && bodyOk && newlineOk
    ensures dest.requests == old(dest.requests) +
      (if !prefixOk then [StreamPrefix(time, nsec, rec)]
       else if !bodyOk then [StreamPrefix(time, nsec, rec), buffer]
       else [StreamPrefix(time, nsec, rec), buffer, "\n"])
    ensures r == Ok ==> dest.text == old(dest.text) + StreamLine(time, nsec, rec, buffer)
    ensures r == Error ==> (dest.text == old(dest.text) +
      (if !prefixOk then [] else if !bodyOk then StreamPrefix(time, nsec, rec)
       else StreamPrefix(time, nsec, rec) + buffer))
  {
    ghost var pre := StreamPrefix(time, nsec, rec);
    var p := WritePrefix(dest, time, nsec, rec, prefixOk);
    if p != Ok {
      return Error;
    }
    ghost var mid := dest.text;
    r := WriteBody(dest, buffer, bodyOk, newlineOk);
    if r == Ok {
      assert dest.text == old(dest.text) + StreamLine(time, nsec, rec, buffer) by {
        AppendThree(old(dest.text), pre, buffer, "\n");
        StreamLineParts(time, nsec, rec, buffer);
      }
    }
  }

  /** Proof plumbing that keeps the solver's work small: the line as its
      three writes, without unfolding the prefix. */
  lemma StreamLineParts(time: string, nsec: nat, rec: Record, buffer: string)
    ensures StreamLine(time, nsec, rec, buffer) == StreamPrefix(time, nsec, rec) + buffer + "\n"
  {
  }

  lemma StreamLineFlat(time: string, nsec: nat, rec: Record, buffer: string)
    ensures StreamLine(time, nsec, rec, buffer) ==
      "[" + time + "." + Nanos(nsec) + "Z|" + Site(rec) + "|" + SeverityName(rec.lflag) + "] " + buffer + "\n"
  {
    StreamLineParts(time, nsec, rec, buffer);
  }

  /** Proof plumbing that keeps the solver's work small: regrouping appends. */
  lemma AppendThree(a: string, b: string, c: string, d: string)
    ensures a + b + c + d == a + (b + c + d)
  {
  }

  // ---------------------------------------------------------------------
  // The system-log sink

  /** The process-wide system log: the (priority, message) entries sent. */
  class SystemLog {
    var entries: seq<(int, string)>

    constructor ()
      ensures entries == []
    {
      entries := [];
    }

    /** syslog(3): the entry is appended; the call reports no failure. */
    method Send(priority: int, msg: string)
      modifies this
      ensures entries == old(entries) + [(priority, msg)]
    {
      entries := entries + [(priority, msg)];
    }
  }

  /** syslog_write_cb: ignores the sink, sends the bracketed message at the
      record's mapped priority, and always succeeds. */
  method SyslogWrite(sys: SystemLog, sink: Sink, rec: Record, buffer: string) returns (r: Errno)
    modifies sys
    ensures r == Ok
    ensures sys.entries == old(sys.entries) + [(SyslogPriority(rec.lflag), SyslogMessage(rec, buffer))]
  {
    sys.Send(SyslogPriority(rec.lflag), SyslogMessage(rec, buffer));
    r := Ok;
  }

  // ---------------------------------------------------------------------
  // The formatter

  /** `t` written over `data` starting at position `at`, extending it if
      needed, as a write on a memory stream does. */
  function Overwrite(data: string, at: nat, t: string): (d: string)
    requires at <= |data|
    ensures |d| == if at + |t| <= |data| then |data| else at + |t|
    ensures d[..at] == data[..at] && d[at..at + |t|] == t
    ensures d[at + |t|..] == if at + |t| <= |data| then data[at + |t|..] else []
  {
    if at + |t| <= |data| then data[..at] + t + data[at + |t|..] else data[..at] + t
  }

  /** logger_fmt_data_t over an open_memstream stream: the stream's contents
      and position, and the buffer the stream publishes when flushed (a view
      of the contents up to the position), with the stream operations made. */
  class FmtData {
    var data: string
    var pos: nat
    var buffer: string
    var ops: seq<StreamOp>

    ghost predicate Valid()
      reads this
    {
      pos <= |data|
    }

    /** open_memstream: empty contents, position 0, an empty published buffer. */
    constructor ()
      ensures Valid() && data == [] && pos == 0 && buffer == [] && ops == []
    {
      data := [];
      pos := 0;
      buffer := [];
      ops := [];
    }

    /** fseek(stream, 0, SEEK_SET). */
    method Rewind(ok: bool) returns (r: Errno)
      requires Valid()
      modifies this
      ensures Valid() && r == (if ok then Ok else Error)
      ensures ops == old(ops) + [Seek]
      ensures data == old(data) && buffer == old(buffer)
      ensures pos == if ok then 0 else old(pos)
    {
      ops := ops + [Seek];
      if ok {
        pos := 0;
        r := Ok;
      } else {
        r := Error;
      }
    }

    /** vfprintf: the rendered text is written at the position. */
    method Render(rendered: string, ok: bool) returns (r: Errno)
      requires Valid()
      modifies this
      ensures Valid() && r == (if ok then Ok else Error)
      ensures ops == old(ops) + [Print(rendered)]
      ensures buffer == old(buffer)
      ensures ok ==> data == Overwrite(old(data), old(pos), rendered) && pos == old(pos) + |rendered|
      ensures !ok ==> data == old(data) && pos == old(pos)
    {
      ops := ops + [Print(rendered)];
      if ok {
        data := Overwrite(data, pos, rendered);
        pos := pos + |rendered|;
        r := Ok;
      } else {
        r := Error;
      }
    }

    /** fflush: the published buffer becomes the contents up to the position. */
    method Flush(ok: bool) returns (r: Errno)
      requires Valid()
      modifies this
      ensures Valid() && r == (if ok then Ok else Error)
      ensures ops == old(ops) + [FlushOp]
      ensures data == old(data) && pos == old(pos)
      ensures buffer == if ok then data[..pos] else old(buffer)
    {
      ops := ops + [FlushOp];
      if ok {
        buffer := data[..pos];
        r := Ok;
      } else {
        r := Error;
      }
    }

    /** logger_fmt_cb: rewind, render, flush, and only then hand out the
        buffer; the first failing step ends the call with no buffer handed
        out. */
    method Format(rendered: string, seekOk: bool, printOk: bool, flushOk: bool)
      returns (r: Errno, out: Option<string>)
      requires Valid()
      modifies this
      ensures Valid()
      ensures r == Ok <==> seekOk && printOk && flushOk
      ensures r == Ok ==> out == Some(rendered) && buffer == rendered
      ensures r == Error ==> out == None
      ensures ops == old(ops) +
        (if !seekOk then [Seek] else if !printOk then [Seek, Print(rendered)]
         else [Seek, Print(rendered), FlushOp])
      ensures seekOk && printOk ==> pos == |rendered| && data[..pos] == rendered
      ensures seekOk && printOk ==> data == Overwrite(old(data), 0, rendered)
      ensures !seekOk ==> data == old(data) && pos == old(pos)
      ensures seekOk && !printOk ==> data == old(data) && pos == 0
      ensures !(seekOk && printOk && flushOk) ==> buffer == old(buffer)
    {
      out := None;
      r := Rewind(seekOk);
      if r != Ok {
        return;
      }
      r := Render(rendered, printOk);
      if r != Ok {
        return;
      }
      r := Flush(flushOk);
      if r != Ok {
        return;
      }
      out := Some(buffer);
    }
  }

  /** The operations logger_fmt_cb makes on its memory stream. */
  datatype StreamOp = Seek | Print(text: string) | FlushOp
}
