/** The dispatch core of twig.h: severity flags, cumulative levels, the
    acceptance test, and the dispatcher that formats a message once and fans it
    out to every accepting sink of a NULL-terminated sink list. The formatter
    and the sinks' write callbacks are supplied as their outcomes. */
module Twig {

  import opened Optional

  /** C's twig_errno_t. */
  datatype Errno = Ok | Error

  // twig_lflag_t: one bit per severity (a C enum, so a 32-bit int).
  const LFDEBUG: bv32 := 1 << 0
  const LFINFO: bv32 := 1 << 1
  const LFWARN: bv32 := 1 << 2
  const LFERROR: bv32 := 1 << 3

  /** The flags a log call may carry; twig() itself does not check this. */
  type LFlag = f: bv32 | f == LFDEBUG || f == LFINFO || f == LFWARN || f == LFERROR
    witness LFDEBUG

  // twig_level_t: each level is the previous one plus one more severity.
  const LNONE: bv32 := 0
  const LERROR: bv32 := LNONE | LFERROR
  const LWARN: bv32 := LERROR | LFWARN
  const LINFO: bv32 := LWARN | LFINFO
  const LDEBUG: bv32 := LINFO | LFDEBUG
  const LALL: bv32 := LDEBUG

  /** The named levels, from the least to the most verbose. */
  const NamedLevels: seq<bv32> := [LNONE, LERROR, LWARN, LINFO, LDEBUG]

  /** Urgency of a severity: DEBUG lowest, ERROR highest. */
  function Urgency(f: LFlag): (u: nat)
    ensures u < 4
  {
    if f == LFDEBUG then 0 else if f == LFINFO then 1 else if f == LFWARN then 2 else 3
  }

  /** The acceptance test of the dispatcher loop: a sink at `level` takes a
      record flagged `lflag` when the two share a bit. */
  predicate Accepts(level: bv32, lflag: bv32)
    ensures SingleBit(lflag) ==> (Accepts(level, lflag) <==> level | lflag == level)
  {
    level & lflag != 0
  }

  predicate SingleBit(x: bv32) { x != 0 && x & (x - 1) == 0 }

  predicate Disjoint(x: bv32, y: bv32) { x & y == 0 }

  /** The four flags are distinct single bits. */
  lemma FlagsAreSingleBits()
    ensures forall f: LFlag :: SingleBit(f)
    ensures forall f: LFlag, g: LFlag :: f != g ==> Disjoint(f, g)
    ensures [LFDEBUG, LFINFO, LFWARN, LFERROR] == [1, 2, 4, 8]
  {
  }

  /** Levels are cumulative: each named level adds exactly one new flag to the
      previous one, so NONE < ERROR < WARN < INFO < DEBUG as sets of bits, and
      ALL is DEBUG. */
  lemma LevelsAreCumulative()
    ensures forall i :: 0 <= i < 4 ==>
      NamedLevels[i] & NamedLevels[i + 1] == NamedLevels[i] && NamedLevels[i] != NamedLevels[i + 1]
    ensures LNONE & LFERROR == 0 && LERROR & LFWARN == 0 && LWARN & LFINFO == 0 && LINFO & LFDEBUG == 0
    ensures [LNONE, LERROR, LWARN, LINFO, LDEBUG, LALL] == [0, 8, 12, 14, 15, 15]
  {
  }

  /** The acceptance truth table: the named level at verbosity i (NONE = 0 …
      DEBUG = 4) accepts exactly the flags whose urgency is at or above its
      threshold; NONE accepts nothing, DEBUG and ALL accept every flag. */
  lemma AcceptanceTable(f: LFlag)
    ensures forall i :: 0 <= i < |NamedLevels| ==> (Accepts(NamedLevels[i], f) <==> Urgency(f) + i >= 4)
    ensures !Accepts(LNONE, f) && Accepts(LDEBUG, f) && Accepts(LALL, f)
  {
  }

  /** Per-call metadata handed to a sink (twig_record_t). */
  datatype Record = Record(lflag: LFlag, logLabel: string, sfile: string, sline: int)

  /** A sink as the core sees it: its level. Its destination and write callback
      are represented by the write outcome supplied for its slot. */
  datatype Sink = Sink(level: bv32)

  /** A logger: its NULL-terminated sink array (None is NULL) and its label.
      The formatter is represented by the format outcome supplied per call. */
  datatype Logger = Logger(sinks: seq<Option<Sink>>, logLabel: string)

  /** One callback invocation made by the dispatcher. */
  datatype Call = FormatCall(fmt: string) | WriteCall(sink: nat, record: Record, buffer: string)

  /** The position of the NULL sentinel: the first empty slot. */
  function Sentinel(sinks: seq<Option<Sink>>): (n: nat)
    requires None in sinks
    ensures n < |sinks| && sinks[n] == None
    ensures forall j :: 0 <= j < n ==> sinks[j].Some?
  {
    if sinks[0] == None then 0 else
      assert None in sinks[1..] by { var k :| 0 <= k < |sinks| && sinks[k] == None; assert sinks[1..][k - 1] == None; }
      1 + Sentinel(sinks[1..])
  }

  /** Indices below n of the sinks whose level accepts lflag, in list order. */
  function AcceptingBelow(sinks: seq<Option<Sink>>, n: nat, lflag: bv32): (ks: seq<nat>)
    requires n <= |sinks|
    requires forall j :: 0 <= j < n ==> sinks[j].Some?
    ensures |ks| <= n
    ensures forall j :: 0 <= j < |ks| ==> ks[j] < n
  {
    if n == 0 then []
    else
      var rest := AcceptingBelow(sinks, n - 1, lflag);
      if Accepts(sinks[n - 1].value.level, lflag) then rest + [n - 1] else rest
  }

  /** The accepting sinks of the whole list, up to the sentinel. */
  function Accepting(sinks: seq<Option<Sink>>, lflag: bv32): seq<nat>
    requires None in sinks
  {
    AcceptingBelow(sinks, Sentinel(sinks), lflag)
  }

  /** Position in ks of the first sink whose write fails, |ks| when none does. */
  function FirstFailure(ks: seq<nat>, ok: seq<bool>): (i: nat)
    requires forall j :: 0 <= j < |ks| ==> ks[j] < |ok|
    ensures i <= |ks|
    ensures forall j :: 0 <= j < i ==> ok[ks[j]]
    ensures i < |ks| ==> !ok[ks[i]]
  {
    if ks == [] then 0 else if !ok[ks[0]] then 0 else 1 + FirstFailure(ks[1..], ok)
  }

  /** The accepting sinks that get written: all of them when every write
      succeeds, otherwise those up to and including the first failing one. */
  function Attempted(ks: seq<nat>, ok: seq<bool>): (att: seq<nat>)
    requires forall j :: 0 <= j < |ks| ==> ks[j] < |ok|
    ensures att <= ks
    ensures FirstFailure(ks, ok) == |ks| ==> att == ks
    ensures FirstFailure(ks, ok) < |ks| ==> |att| == FirstFailure(ks, ok) + 1
  {
    var n := FirstFailure(ks, ok);
    if n == |ks| then ks else ks[..n + 1]
  }

  /** One write call per sink index, all with the same record and buffer. */
  function WriteCalls(ks: seq<nat>, rec: Record, buffer: string): (calls: seq<Call>)
    ensures |calls| == |ks|
  {
    if ks == [] then [] else WriteCalls(ks[..|ks| - 1], rec, buffer) + [WriteCall(ks[|ks| - 1], rec, buffer)]
  }

  ghost predicate WellFormed(logger: Logger, writeOk: seq<bool>)
  {
    None in logger.sinks && |writeOk| == |logger.sinks|
  }

  /** What one call of twig() does, stated without its loop: the formatter is
      called first, and if it fails nothing else happens; otherwise the
      accepting sinks before the sentinel are written in list order, up to
      and including the first whose write fails. */
  function Dispatch(logger: Logger, sfile: string, sline: int, lflag: LFlag, fmt: string,
                    formatted: Option<string>, writeOk: seq<bool>): (r: (Errno, seq<Call>))
    requires WellFormed(logger, writeOk)
    ensures |r.1| >= 1 && r.1[0] == FormatCall(fmt)
    ensures |r.1| <= 1 + Sentinel(logger.sinks)
    ensures r.0 == Ok ==> formatted.Some? && |r.1| == 1 + |Accepting(logger.sinks, lflag)|
  {
    if formatted.None? then (Error, [FormatCall(fmt)])
    else
      var ks := Accepting(logger.sinks, lflag);
      var rec := Record(lflag, logger.logLabel, sfile, sline);
      (if FirstFailure(ks, writeOk) == |ks| then Ok else Error,
       [FormatCall(fmt)] + WriteCalls(Attempted(ks, writeOk), rec, formatted.value))
  }

  lemma {:induction false} AcceptingBelowPrefix(sinks: seq<Option<Sink>>, n: nat, m: nat, lflag: bv32)
    requires n <= m <= |sinks|
    requires forall j :: 0 <= j < m ==> sinks[j].Some?
    ensures AcceptingBelow(sinks, n, lflag) <= AcceptingBelow(sinks, m, lflag)
    decreases m - n
  {
    if n < m {
      AcceptingBelowPrefix(sinks, n, m - 1, lflag);
    }
  }

  lemma {:induction false} FirstFailureOfPrefix(ks: seq<nat>, ok: seq<bool>, p: nat)
    requires p <= |ks|
    requires forall j :: 0 <= j < |ks| ==> ks[j] < |ok|
    requires FirstFailure(ks[..p], ok) < p
    ensures FirstFailure(ks, ok) == FirstFailure(ks[..p], ok)
  {
    var n := FirstFailure(ks[..p], ok);
    assert ks[..p][n] == ks[n];
    assert forall j :: 0 <= j < n ==> ks[..p][j] == ks[j];
  }

  lemma WriteCallsSnoc(ks: seq<nat>, k: nat, rec: Record, buffer: string)
    ensures WriteCalls(ks + [k], rec, buffer) == WriteCalls(ks, rec, buffer) + [WriteCall(k, rec, buffer)]
  {
    assert (ks + [k])[..|ks|] == ks;
  }

  lemma AllSucceededSnoc(ks: seq<nat>, k: nat, ok: seq<bool>)
    requires k < |ok| && ok[k]
    requires forall j :: 0 <= j < |ks| ==> ks[j] < |ok| && ok[ks[j]]
    ensures forall j :: 0 <= j < |ks + [k]| ==> ok[(ks + [k])[j]]
  {
    forall j | 0 <= j < |ks + [k]|
      ensures ok[(ks + [k])[j]]
    {
      if j < |ks| {
        assert (ks + [k])[j] == ks[j];
      }
    }
  }

  lemma LastFails(ks: seq<nat>, k: nat, ok: seq<bool>)
    requires k < |ok| && !ok[k]
    requires forall j :: 0 <= j < |ks| ==> ks[j] < |ok| && ok[ks[j]]
    ensures FirstFailure(ks + [k], ok) == |ks|
  {
    assert (ks + [k])[|ks|] == k;
  }

  /** When the sink at slot i accepts, every earlier accepting write succeeded
      and this one fails, the writes stop right after slot i. */
  lemma {:induction false} StopsAtFailure(sinks: seq<Option<Sink>>, i: nat, lflag: bv32, ok: seq<bool>)
    requires None in sinks && |ok| == |sinks|
    requires i < Sentinel(sinks) && Accepts(sinks[i].value.level, lflag) && !ok[i]
    requires forall j :: 0 <= j < |AcceptingBelow(sinks, i, lflag)| ==> ok[AcceptingBelow(sinks, i, lflag)[j]]
    ensures FirstFailure(Accepting(sinks, lflag), ok) < |Accepting(sinks, lflag)|
    ensures Attempted(Accepting(sinks, lflag), ok) == AcceptingBelow(sinks, i, lflag) + [i]
  {
    var below := AcceptingBelow(sinks, i, lflag);
    var done := AcceptingBelow(sinks, i + 1, lflag);
    var acc := Accepting(sinks, lflag);
    assert done == below + [i] by {
      AcceptingStep(sinks, i, lflag);
    }
    assert acc[..|done|] == done by {
      AcceptingBelowPrefix(sinks, i + 1, Sentinel(sinks), lflag);
    }
    assert FirstFailure(done, ok) == |done| - 1 by {
      LastFails(below, i, ok);
    }
    AttemptedUpTo(acc, done, ok);
  }

  /** The write pass over acc ends with done when done is a prefix of acc
      whose last sink alone fails. */
  lemma AttemptedUpTo(acc: seq<nat>, done: seq<nat>, ok: seq<bool>)
    requires forall j :: 0 <= j < |acc| ==> acc[j] < |ok|
    requires 1 <= |done| <= |acc| && acc[..|done|] == done
    requires FirstFailure(done, ok) == |done| - 1
    ensures FirstFailure(acc, ok) < |acc|
    ensures Attempted(acc, ok) == done
  {
    FirstFailureOfPrefix(acc, ok, |done|);
  }

  lemma DispatchStopsAt(logger: Logger, sfile: string, sline: int, lflag: LFlag, fmt: string,
                        buffer: string, writeOk: seq<bool>, i: nat, done: seq<nat>)
    requires WellFormed(logger, writeOk)
    requires i < Sentinel(logger.sinks) && Accepts(logger.sinks[i].value.level, lflag) && !writeOk[i]
    requires done == AcceptingBelow(logger.sinks, i, lflag)
    requires forall j :: 0 <= j < |done| ==> writeOk[done[j]]
    ensures Dispatch(logger, sfile, sline, lflag, fmt, Some(buffer), writeOk) ==
      (Error, [FormatCall(fmt)] + WriteCalls(done + [i], Record(lflag, logger.logLabel, sfile, sline), buffer))
  {
    var ks := Accepting(logger.sinks, lflag);
    var rec := Record(lflag, logger.logLabel, sfile, sline);
    StopsAtFailure(logger.sinks, i, lflag, writeOk);
    assert FirstFailure(ks, writeOk) != |ks|;
    assert Dispatch(logger, sfile, sline, lflag, fmt, Some(buffer), writeOk) ==
      (Error, [FormatCall(fmt)] + WriteCalls(Attempted(ks, writeOk), rec, buffer));
  }

  lemma AcceptingStep(sinks: seq<Option<Sink>>, i: nat, lflag: bv32)
    requires i < |sinks| && forall j :: 0 <= j <= i ==> sinks[j].Some?
    ensures AcceptingBelow(sinks, i + 1, lflag) ==
      AcceptingBelow(sinks, i, lflag) + (if Accepts(sinks[i].value.level, lflag) then [i] else [])
  {
  }

  lemma DispatchCompletes(logger: Logger, sfile: string, sline: int, lflag: LFlag, fmt: string,
                          buffer: string, writeOk: seq<bool>, i: nat, done: seq<nat>)
    requires WellFormed(logger, writeOk)
    requires i <= Sentinel(logger.sinks) && logger.sinks[i] == None
    requires done == AcceptingBelow(logger.sinks, i, lflag)
    requires forall j :: 0 <= j < |done| ==> writeOk[done[j]]
    ensures Dispatch(logger, sfile, sline, lflag, fmt, Some(buffer), writeOk) ==
      (Ok, [FormatCall(fmt)] + WriteCalls(done, Record(lflag, logger.logLabel, sfile, sline), buffer))
  {
    assert i == Sentinel(logger.sinks);
  }

  /** twig(): format once; on success walk the sink array up to the NULL
      sentinel, skip the sinks whose level rejects lflag, write the others with
      the same record and buffer, and stop at the first failing write. Returns
      the result and the callbacks invoked, in order. */
  method Dispatcher(logger: Logger, sfile: string, sline: int, lflag: LFlag, fmt: string,
                    formatted: Option<string>, writeOk: seq<bool>)
    returns (r: Errno, trace: seq<Call>)
    requires WellFormed(logger, writeOk)
    ensures (r, trace) == Dispatch(logger, sfile, sline, lflag, fmt, formatted, writeOk)
  {
    if formatted.None? {
      return Error, [FormatCall(fmt)];
    }
    var buffer := formatted.value;
    var sinks := logger.sinks;
    var record := Record(lflag, logger.logLabel, sfile, sline);
    ghost var n := Sentinel(sinks);
    ghost var done: seq<nat> := [];
    var writes: seq<Call> := [];
    var i := 0;
    while sinks[i].Some?
      invariant i <= n
      invariant done == AcceptingBelow(sinks, i, lflag)
      invariant forall j :: 0 <= j < |done| ==> writeOk[done[j]]
      invariant writes == WriteCalls(done, record, buffer)
      decreases n - i
    {
      var sink := sinks[i].value;
      assert i < n;
      AcceptingStep(sinks, i, lflag);
      if !Accepts(sink.level, lflag) {
        i := i + 1;
        continue;
      }
      WriteCallsSnoc(done, i, record, buffer);
      writes := writes + [WriteCall(i, record, buffer)];
      if !writeOk[i] {
        DispatchStopsAt(logger, sfile, sline, lflag, fmt, buffer, writeOk, i, done);
        return Error, [FormatCall(fmt)] + writes;
      }
      AllSucceededSnoc(done, i, writeOk);
      done := done + [i];
      i := i + 1;
    }
    DispatchCompletes(logger, sfile, sline, lflag, fmt, buffer, writeOk, i, done);
    return Ok, [FormatCall(fmt)] + writes;
  }

  // Properties of a dispatch, for every logger, outcome and flag.

  /** The sink indices written to by a sequence of calls, in order. */
  function Written(calls: seq<Call>): (ks: seq<nat>)
    ensures |ks| <= |calls|
  {
    if calls == [] then []
    else
      var last := calls[|calls| - 1];
      Written(calls[..|calls| - 1]) + (if last.WriteCall? then [last.sink] else [])
  }

  lemma {:induction false} WriteCallsShape(ks: seq<nat>, rec: Record, buffer: string)
    ensures Written(WriteCalls(ks, rec, buffer)) == ks
    ensures forall j :: 0 <= j < |ks| ==> WriteCalls(ks, rec, buffer)[j] == WriteCall(ks[j], rec, buffer)
  {
    if ks != [] {
      var init := ks[..|ks| - 1];
      var k := ks[|ks| - 1];
      WriteCallsShape(init, rec, buffer);
      var calls := WriteCalls(ks, rec, buffer);
      assert calls == WriteCalls(init, rec, buffer) + [WriteCall(k, rec, buffer)];
      assert calls[..|calls| - 1] == WriteCalls(init, rec, buffer);
      assert Written(calls) == init + [k];
      assert init + [k] == ks;
      forall j | 0 <= j < |ks|
        ensures calls[j] == WriteCall(ks[j], rec, buffer)
      {
        if j < |init| {
          assert calls[j] == WriteCalls(init, rec, buffer)[j];
        }
      }
    }
  }

  /** The accepting sinks are exactly the listed sinks whose level accepts the
      flag, in strictly increasing list order. */
  lemma {:induction false} AcceptingBelowExact(sinks: seq<Option<Sink>>, n: nat, lflag: bv32)
    requires n <= |sinks|
    requires forall j :: 0 <= j < n ==> sinks[j].Some?
    ensures forall a, b :: 0 <= a < b < |AcceptingBelow(sinks, n, lflag)| ==>
      AcceptingBelow(sinks, n, lflag)[a] < AcceptingBelow(sinks, n, lflag)[b]
    ensures forall k: nat :: k in AcceptingBelow(sinks, n, lflag) <==> k < n && Accepts(sinks[k].value.level, lflag)
  {
    if n > 0 {
      AcceptingBelowExact(sinks, n - 1, lflag);
    }
  }

  /** Format once, first: the first call is the single format call and every
      later one is a sink write; a failed format ends the call with an error
      before any sink is consulted. */
  lemma FormatOnceFirst(logger: Logger, sfile: string, sline: int, lflag: LFlag, fmt: string,
                        formatted: Option<string>, writeOk: seq<bool>)
    requires WellFormed(logger, writeOk)
    ensures Dispatch(logger, sfile, sline, lflag, fmt, formatted, writeOk).1[0] == FormatCall(fmt)
    ensures forall j :: 1 <= j < |Dispatch(logger, sfile, sline, lflag, fmt, formatted, writeOk).1| ==>
      Dispatch(logger, sfile, sline, lflag, fmt, formatted, writeOk).1[j].WriteCall?
    ensures formatted.None? ==> Dispatch(logger, sfile, sline, lflag, fmt, formatted, writeOk) == (Error, [FormatCall(fmt)])
  {
    if formatted.Some? {
      var ks := Attempted(Accepting(logger.sinks, lflag), writeOk);
      WriteCallsShape(ks, Record(lflag, logger.logLabel, sfile, sline), formatted.value);
    }
  }

  /** Every sink write carries the call's flag, file, line and the logger's
      label, and the one buffer the formatter produced. */
  lemma SameRecordAndBuffer(logger: Logger, sfile: string, sline: int, lflag: LFlag, fmt: string,
                            buffer: string, writeOk: seq<bool>)
    requires WellFormed(logger, writeOk)
    ensures forall j :: 1 <= j < |Dispatch(logger, sfile, sline, lflag, fmt, Some(buffer), writeOk).1| ==>
      var call := Dispatch(logger, sfile, sline, lflag, fmt, Some(buffer), writeOk).1[j];
      call.WriteCall? && call.record == Record(lflag, logger.logLabel, sfile, sline) && call.buffer == buffer
  {
    var ks := Attempted(Accepting(logger.sinks, lflag), writeOk);
    WriteCallsShape(ks, Record(lflag, logger.logLabel, sfile, sline), buffer);
  }

  /** Order and short circuit: after a successful format the sinks written are
      the accepting ones in list order; on success all of them, on failure a
      prefix of them whose last write failed and whose other writes succeeded,
      so no later sink is written. */
  lemma WritesInListOrder(logger: Logger, sfile: string, sline: int, lflag: LFlag, fmt: string,
                          buffer: string, writeOk: seq<bool>)
    requires WellFormed(logger, writeOk)
    ensures var written := Written(Dispatch(logger, sfile, sline, lflag, fmt, Some(buffer), writeOk).1[1..]);
      var ks := Accepting(logger.sinks, lflag);
      && (Dispatch(logger, sfile, sline, lflag, fmt, Some(buffer), writeOk).0 == Ok ==> written == ks)
      && (Dispatch(logger, sfile, sline, lflag, fmt, Some(buffer), writeOk).0 == Error ==>
            && 1 <= |written| && written <= ks
            && !writeOk[written[|written| - 1]]
            && forall j :: 0 <= j < |written| - 1 ==> writeOk[written[j]])
  {
    var ks := Accepting(logger.sinks, lflag);
    var att := Attempted(ks, writeOk);
    var rec := Record(lflag, logger.logLabel, sfile, sline);
    var d := Dispatch(logger, sfile, sline, lflag, fmt, Some(buffer), writeOk);
    assert d.1[1..] == WriteCalls(att, rec, buffer);
    WriteCallsShape(att, rec, buffer);
    assert Written(d.1[1..]) == att;
    AttemptedFailure(ks, writeOk);
  }

  /** When some write fails, the attempted sinks end at the first failing one
      and every earlier one succeeded. */
  lemma AttemptedFailure(ks: seq<nat>, ok: seq<bool>)
    requires forall j :: 0 <= j < |ks| ==> ks[j] < |ok|
    ensures var att := Attempted(ks, ok);
      FirstFailure(ks, ok) < |ks| ==>
        && 1 <= |att| && att <= ks
        && !ok[att[|att| - 1]]
        && forall j :: 0 <= j < |att| - 1 ==> ok[att[j]]
  {
    var att := Attempted(ks, ok);
    var n := FirstFailure(ks, ok);
    if n < |ks| {
      assert att == ks[..n + 1];
      assert att[|att| - 1] == ks[n];
      forall j | 0 <= j < |att| - 1
        ensures ok[att[j]]
      {
        assert att[j] == ks[j];
      }
    }
  }

  /** twig() returns OK exactly when the format succeeded and every sink before
      the sentinel whose level accepts the flag was written successfully. */
  lemma OkIffAllAcceptingSucceed(logger: Logger, sfile: string, sline: int, lflag: LFlag, fmt: string,
                                 formatted: Option<string>, writeOk: seq<bool>)
    requires WellFormed(logger, writeOk)
    ensures Dispatch(logger, sfile, sline, lflag, fmt, formatted, writeOk).0 == Ok <==>
      formatted.Some? &&
      forall k :: 0 <= k < Sentinel(logger.sinks) && Accepts(logger.sinks[k].value.level, lflag) ==> writeOk[k]
  {
    var ks := Accepting(logger.sinks, lflag);
    AcceptingBelowExact(logger.sinks, Sentinel(logger.sinks), lflag);
    var n := FirstFailure(ks, writeOk);
    if n < |ks| {
      assert ks[n] in ks;
    } else {
      forall k | 0 <= k < Sentinel(logger.sinks) && Accepts(logger.sinks[k].value.level, lflag)
        ensures writeOk[k]
      {
        assert k in ks;
      }
    }
  }

  // The call-site macros: each forwards its own severity flag.

  method Debug(logger: Logger, sfile: string, sline: int, fmt: string,
               formatted: Option<string>, writeOk: seq<bool>)
    returns (r: Errno, trace: seq<Call>)
    requires WellFormed(logger, writeOk)
    ensures (r, trace) == Dispatch(logger, sfile, sline, LFDEBUG, fmt, formatted, writeOk)
  {
    r, trace := Dispatcher(logger, sfile, sline, LFDEBUG, fmt, formatted, writeOk);
  }

  method Info(logger: Logger, sfile: string, sline: int, fmt: string,
              formatted: Option<string>, writeOk: seq<bool>)
    returns (r: Errno, trace: seq<Call>)
    requires WellFormed(logger, writeOk)
    ensures (r, trace) == Dispatch(logger, sfile, sline, LFINFO, fmt, formatted, writeOk)
  {
    r, trace := Dispatcher(logger, sfile, sline, LFINFO, fmt, formatted, writeOk);
  }

  method Warn(logger: Logger, sfile: string, sline: int, fmt: string,
              formatted: Option<string>, writeOk: seq<bool>)
    returns (r: Errno, trace: seq<Call>)
    requires WellFormed(logger, writeOk)
    ensures (r, trace) == Dispatch(logger, sfile, sline, LFWARN, fmt, formatted, writeOk)
  {
    r, trace := Dispatcher(logger, sfile, sline, LFWARN, fmt, formatted, writeOk);
  }

  method Err(logger: Logger, sfile: string, sline: int, fmt: string,
             formatted: Option<string>, writeOk: seq<bool>)
    returns (r: Errno, trace: seq<Call>)
    requires WellFormed(logger, writeOk)
    ensures (r, trace) == Dispatch(logger, sfile, sline, LFERROR, fmt, formatted, writeOk)
  {
    r, trace := Dispatcher(logger, sfile, sline, LFERROR, fmt, formatted, writeOk);
  }

  // Worked scenarios.

  /** A WARN-level sink never sees an info record, so even a sink whose write
      would fail is not called and the call succeeds. */
  lemma InfoSkipsWarnSink(name: string, sfile: string, sline: int, fmt: string, buffer: string)
    ensures Dispatch(Logger([Some(Sink(LWARN)), None], name), sfile, sline, LFINFO, fmt,
                     Some(buffer), [false, false]) == (Ok, [FormatCall(fmt)])
  {
    var sinks := [Some(Sink(LWARN)), None];
    assert sinks[1..] == [None];
    assert Sentinel(sinks) == 1;
    assert !Accepts(LWARN, LFINFO);
    assert AcceptingBelow(sinks, 1, LFINFO) == [];
    assert WriteCalls([], Record(LFINFO, name, sfile, sline), buffer) == [];
    var ks := Accepting(Logger(sinks, name).sinks, LFINFO);
    assert ks == [];
    assert Attempted(ks, [false, false]) == [];
    var d := Dispatch(Logger(sinks, name), sfile, sline, LFINFO, fmt, Some(buffer), [false, false]);
    assert d.0 == Ok;
    assert d.1 == [FormatCall(fmt)] + WriteCalls([], Record(LFINFO, name, sfile, sline), buffer);
    assert d.1 == [FormatCall(fmt)];
    assert d == (Ok, [FormatCall(fmt)]);
  }

  lemma TwoDebugSinksAccept(sinks: seq<Option<Sink>>)
    requires sinks == [Some(Sink(LDEBUG)), Some(Sink(LDEBUG)), None]
    ensures Accepting(sinks, LFDEBUG) == [0, 1]
  {
    assert sinks[1..][1..] == [None];
    assert Sentinel(sinks) == 2;
    assert Accepts(LDEBUG, LFDEBUG);
    assert AcceptingBelow(sinks, 1, LFDEBUG) == [0];
  }

  lemma TwoWriteCalls(rec: Record, buffer: string)
    ensures WriteCalls([0, 1], rec, buffer) == [WriteCall(0, rec, buffer), WriteCall(1, rec, buffer)]
  {
    assert [0, 1][..1] == [0];
    assert [0][..0] == [];
  }

  /** Two DEBUG sinks, the second failing: both are written once, in order,
      and the call fails. */
  lemma SecondSinkFails(name: string, sfile: string, sline: int, fmt: string, buffer: string)
    ensures var rec := Record(LFDEBUG, name, sfile, sline);
      Dispatch(Logger([Some(Sink(LDEBUG)), Some(Sink(LDEBUG)), None], name), sfile, sline, LFDEBUG,
               fmt, Some(buffer), [true, false, true])
      == (Error, [FormatCall(fmt), WriteCall(0, rec, buffer), WriteCall(1, rec, buffer)])
  {
    var sinks := [Some(Sink(LDEBUG)), Some(Sink(LDEBUG)), None];
    var ok := [true, false, true];
    var rec := Record(LFDEBUG, name, sfile, sline);
    TwoDebugSinksAccept(sinks);
    TwoWriteCalls(rec, buffer);
    assert FirstFailure([0, 1], ok) == 1;
    assert Attempted([0, 1], ok) == [0, 1];
    var d := Dispatch(Logger(sinks, name), sfile, sline, LFDEBUG, fmt, Some(buffer), ok);
    assert d == (Error, [FormatCall(fmt)] + WriteCalls([0, 1], rec, buffer));
    assert d.1 == [FormatCall(fmt), WriteCall(0, rec, buffer), WriteCall(1, rec, buffer)];
  }
}
