/**
 * The status-recording wrapper of internal/middleware/logger.go. A handler
 * talks to it through WriteHeader and Write; the wrapper keeps the first status
 * it is given (200 when the handler writes a body first), forwards that one
 * header to the wrapped writer, and adds up the byte counts the wrapped writer
 * reports. The wrapped writer itself is outside the model: what it reports for
 * a Write is a parameter, and what it receives is recorded as the sequence of
 * header codes forwarded to it.
 */
module ResponseWriters {
  import opened Wrappers

  /** One call a handler makes on the writer it is given. */
  datatype WriterCall = HeaderCall(code: int) | BodyCall(n: nat)

  /** The wrapper's fields, plus the header codes it has passed on. */
  datatype WriterState = WriterState(status: int, wroteHeader: bool, size: nat, forwarded: seq<int>)

  /** &responseWriter{ResponseWriter: w, status: http.StatusOK}. */
  const Fresh: WriterState := WriterState(200, false, 0, [])

  /** responseWriter.WriteHeader. */
  function HeaderStep(st: WriterState, code: int): WriterState {
    if st.wroteHeader then st
    else st.(status := code, wroteHeader := true, forwarded := st.forwarded + [code])
  }

  /** responseWriter.Write, when the wrapped writer reports n bytes written. */
  function BodyStep(st: WriterState, n: nat): WriterState {
    var h := if st.wroteHeader then st else HeaderStep(st, 200);
    h.(size := h.size + n)
  }

  function Step(st: WriterState, call: WriterCall): WriterState {
    match call
    case HeaderCall(code) => HeaderStep(st, code)
    case BodyCall(n) => BodyStep(st, n)
  }

  /** The state after the calls, made in order, on a wrapper in state st. */
  function Apply(st: WriterState, calls: seq<WriterCall>): WriterState {
    if calls == [] then st else Step(Apply(st, calls[..|calls| - 1]), calls[|calls| - 1])
  }

  /** The status a handler's calls leave: the code of a first WriteHeader, else 200. */
  function FirstStatus(calls: seq<WriterCall>): int {
    if calls != [] && calls[0].HeaderCall? then calls[0].code else 200
  }

  /** The sum of the byte counts of the Write calls. */
  function TotalWritten(calls: seq<WriterCall>): nat {
    if calls == [] then 0
    else
      var last := calls[|calls| - 1];
      TotalWritten(calls[..|calls| - 1]) + (if last.BodyCall? then last.n else 0)
  }

  /**
   * Only the first call decides the status: a WriteHeader first records its
   * code, a Write first records 200, and exactly one header is forwarded once
   * the handler has made any call.
   */
  lemma {:induction false} ApplyStatus(calls: seq<WriterCall>)
    ensures Apply(Fresh, calls).status == FirstStatus(calls)
    ensures Apply(Fresh, calls).wroteHeader <==> calls != []
    ensures Apply(Fresh, calls).forwarded == if calls == [] then [] else [FirstStatus(calls)]
  {
    if calls != [] {
      var p := calls[..|calls| - 1];
      ApplyStatus(p);
      if p != [] {
        assert calls[0] == p[0];
      }
    }
  }

  /** The recorded size is the sum of what the wrapped writer reported. */
  lemma {:induction false} ApplySize(calls: seq<WriterCall>)
    ensures Apply(Fresh, calls).size == TotalWritten(calls)
  {
    if calls != [] {
      ApplySize(calls[..|calls| - 1]);
    }
  }

  /** Once a header is written, further WriteHeader calls change nothing at all. */
  lemma LaterHeadersIgnored(st: WriterState, codes: seq<int>)
    requires st.wroteHeader
    ensures Apply(st, seq(|codes|, k requires 0 <= k < |codes| => HeaderCall(codes[k]))) == st
  {
    var calls := seq(|codes|, k requires 0 <= k < |codes| => HeaderCall(codes[k]));
    var i := 0;
    while i < |calls|
      invariant 0 <= i <= |calls|
      invariant Apply(st, calls[..i]) == st
    {
      assert calls[..i + 1][..i] == calls[..i];
      i := i + 1;
    }
    assert calls[..|calls|] == calls;
  }

  class ResponseWriter {
    var status: int
    var wroteHeader: bool
    var size: nat
    /** The header codes passed on to the wrapped http.ResponseWriter. */
    var forwarded: seq<int>

    function State(): WriterState
      reads this
    {
      WriterState(status, wroteHeader, size, forwarded)
    }

    constructor ()
      ensures State() == Fresh
    {
      status := 200;
      wroteHeader := false;
      size := 0;
      forwarded := [];
    }

    method WriteHeader(code: int)
      modifies this
      ensures State() == HeaderStep(old(State()), code)
    {
      if wroteHeader {
        return;
      }
      status := code;
      wroteHeader := true;
      forwarded := forwarded + [code];
    }

    /** n is the count the wrapped writer reports for this write; it is returned unchanged. */
    method Write(n: nat) returns (written: nat)
      modifies this
      ensures written == n
      ensures State() == BodyStep(old(State()), n)
    {
      if !wroteHeader {
        WriteHeader(200);
      }
      written := n;
      size := size + n;
    }

    /** A handler making these calls, in order, on this writer. */
    method Replay(calls: seq<WriterCall>)
      modifies this
      ensures State() == Apply(old(State()), calls)
    {
      var i := 0;
      while i < |calls|
        invariant 0 <= i <= |calls|
        invariant State() == Apply(old(State()), calls[..i])
      {
        assert calls[..i + 1][..i] == calls[..i];
        match calls[i] {
          case HeaderCall(code) =>
            WriteHeader(code);
          case BodyCall(n) =>
            var _ := Write(n);
        }
        i := i + 1;
      }
      assert calls[..|calls|] == calls;
    }
  }

  /** A fresh wrapper handed to a handler that makes these calls. */
  method Wrap(calls: seq<WriterCall>) returns (rw: ResponseWriter)
    ensures fresh(rw)
    ensures rw.status == FirstStatus(calls) && rw.size == TotalWritten(calls)
    ensures rw.forwarded == if calls == [] then [] else [FirstStatus(calls)]
  {
    rw := new ResponseWriter();
    rw.Replay(calls);
    ApplyStatus(calls);
    ApplySize(calls);
  }

  /** The paths Logger passes straight to the handler, unwrapped and unlogged. */
  predicate LoggerSkips(path: string) {
    path == "/api/v1/health" || path == "/metrics"
  }

  /** The status and size fields of the http_request log line. */
  datatype LogEntry = LogEntry(path: string, status: int, size: nat)

  /**
   * Logger around a handler that makes these calls: no entry for the skipped
   * paths; otherwise an entry with the status and size the wrapper recorded.
   */
  method Logger(path: string, calls: seq<WriterCall>) returns (entry: Option<LogEntry>)
    ensures entry.None? <==> LoggerSkips(path)
    ensures entry.Some? ==> entry.value == LogEntry(path, FirstStatus(calls), TotalWritten(calls))
  {
    if LoggerSkips(path) {
      return None;
    }
    var rw := Wrap(calls);
    entry := Some(LogEntry(path, rw.status, rw.size));
  }
}
