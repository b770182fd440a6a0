/** response_buffer.go: an `http.ResponseWriter` that keeps the body in
    memory (a `bytes.Buffer`), ignores the status code, and can later
    copy the body out with `WriteTo`. */
module ResponseBuffers {
  import opened Wrappers
  import opened Errors
  import W = Writers
  import RW = ResponseWriters

  type byte = W.byte

  datatype ResponseBuffer = ResponseBuffer(buffer: seq<byte>, header: RW.Header)

  /** `newResponseBuffer()`: an empty buffer and an empty, already made,
      header map. */
  function NewResponseBuffer(): (rb: ResponseBuffer)
    ensures rb.buffer == [] && rb.header == map[]
  {
    ResponseBuffer([], map[])
  }

  /** `Header()`: the map made at construction, every time. */
  function GetHeader(rb: ResponseBuffer): RW.Header {
    rb.header
  }

  /** `rb.Header()[name] = values`. */
  function SetHeader(rb: ResponseBuffer, name: string, values: seq<string>): (rb': ResponseBuffer)
    ensures GetHeader(rb') == GetHeader(rb)[name := values]
    ensures rb'.buffer == rb.buffer
  {
    rb.(header := rb.header[name := values])
  }

  datatype BufferWrite = BufferWrite(rb: ResponseBuffer, n: nat, err: Option<Err>)

  /** `Write(p)`: `bytes.Buffer.Write` appends all of `p` and never fails. */
  function Write(rb: ResponseBuffer, p: seq<byte>): (r: BufferWrite)
    ensures r.rb.buffer == rb.buffer + p && r.rb.header == rb.header
    ensures r.n == |p| && r.err.None?
  {
    BufferWrite(rb.(buffer := rb.buffer + p), |p|, None)
  }

  /** `WriteHeader(code)`: does nothing. */
  function WriteHeader(rb: ResponseBuffer, code: int): (rb': ResponseBuffer)
    ensures rb' == rb
  {
    rb
  }

  /** `io.ErrShortWrite`. */
  const ShortWrite: Err := Failure("short write")

  datatype Drained = Drained(rb: ResponseBuffer, sink: W.Sink, n: nat, err: Option<Err>)

  /** `WriteTo(w)`, as `bytes.Buffer.WriteTo` does it: nothing is written
      when the buffer is empty; otherwise the whole buffer is offered to
      `w` once, the accepted bytes leave the buffer, and an error is
      returned if `w` failed or took less; on success the buffer is reset. */
  function WriteTo(rb: ResponseBuffer, w: W.Sink): (r: Drained)
    ensures r.sink.contents + r.rb.buffer == w.contents + rb.buffer
    ensures r.n + |r.rb.buffer| == |rb.buffer|
    ensures r.rb.header == rb.header
    ensures r.err.None? <==> r.rb.buffer == []
    ensures rb.buffer == [] ==> r.sink == w && r.n == 0 && r.err.None?
    ensures w.room.None? ==> r.sink.contents == w.contents + rb.buffer && r.err.None?
  {
    if |rb.buffer| > 0 then
      var wr := W.Write(w, rb.buffer);
      var m := wr.n;
      var rest := rb.buffer[m..];
      assert rb.buffer[..m] + rest == rb.buffer;
      if wr.err.Some? then Drained(rb.(buffer := rest), wr.sink, m, wr.err)
      else if m != |rb.buffer| then Drained(rb.(buffer := rest), wr.sink, m, Some(ShortWrite))
      else Drained(rb.(buffer := []), wr.sink, m, None)
    else Drained(rb.(buffer := []), w, 0, None)
  }

  /** The buffer after a handler has made `calls`, in order. */
  function Apply(rb: ResponseBuffer, c: RW.Call): ResponseBuffer {
    match c
    case HeaderSet(name, values) => SetHeader(rb, name, values)
    case HeaderWrite(code) => WriteHeader(rb, code)
    case BodyWrite(data) => Write(rb, data).rb
  }

  function Run(rb: ResponseBuffer, calls: seq<RW.Call>): ResponseBuffer
    decreases |calls|
  {
    if calls == [] then rb else Run(Apply(rb, calls[0]), calls[1..])
  }

  /** The buffer holds every write, in order, and nothing else; status
      codes leave no trace. */
  lemma {:induction false} RunBuffer(rb: ResponseBuffer, calls: seq<RW.Call>)
    ensures Run(rb, calls).buffer == rb.buffer + RW.Body(calls)
    decreases |calls|
  {
    if calls != [] {
      var rb1 := Apply(rb, calls[0]);
      RunBuffer(rb1, calls[1..]);
      var d := if calls[0].BodyWrite? then calls[0].data else [];
      assert rb1.buffer == rb.buffer + d;
      assert rb.buffer + d + RW.Body(calls[1..]) == rb.buffer + (d + RW.Body(calls[1..]));
    }
  }

  /** Header edits persist across `Header()` calls: a name holds the
      values of its last edit, and other names keep what they had. */
  lemma {:induction false} RunHeader(rb: ResponseBuffer, calls: seq<RW.Call>, name: string)
    ensures var h := GetHeader(Run(rb, calls));
      match RW.LastValues(calls, name)
      case Some(v) => name in h && h[name] == v
      case None => ((name in h <==> name in rb.header) &&
                    (name in h ==> h[name] == rb.header[name]))
    decreases |calls|
  {
    if calls != [] {
      RunHeader(Apply(rb, calls[0]), calls[1..], name);
    }
  }

  /** Any number of `WriteHeader` calls, with any codes, change nothing. */
  lemma {:induction false} StatusCallsInert(rb: ResponseBuffer, calls: seq<RW.Call>)
    requires forall i | 0 <= i < |calls| :: calls[i].HeaderWrite?
    ensures Run(rb, calls) == rb
    decreases |calls|
  {
    if calls != [] {
      StatusCallsInert(Apply(rb, calls[0]), calls[1..]);
    }
  }

  /** Buffering a handler's output and then writing it to an unbounded
      writer leaves that writer with the same bytes as streaming the
      handler through the capture writer, and empties the buffer. */
  lemma BufferThenCopy(w: W.Sink, calls: seq<RW.Call>)
    requires w.room.None?
    ensures var r := WriteTo(Run(NewResponseBuffer(), calls), w);
      r.sink.contents == RW.Run(RW.NewResponseWriter(w), calls).writer.contents &&
      r.n == |RW.Body(calls)| && r.err.None? && r.rb.buffer == []
  {
    RunBuffer(NewResponseBuffer(), calls);
    assert [] + RW.Body(calls) == RW.Body(calls);
    RW.RunBodyUnbounded(RW.NewResponseWriter(w), calls);
  }
}
