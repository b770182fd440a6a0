/** response_writer.go: the `http.ResponseWriter` the build hands to the
    handler. It forwards body bytes straight to the output file, records
    the status code (200 implied by a write before any `WriteHeader`, the
    last `WriteHeader` otherwise), and keeps a header map that never
    reaches the file. */
module ResponseWriters {
  import opened Wrappers
  import opened Errors
  import W = Writers

  type byte = W.byte

  /** `http.Header`: a name maps to its values. */
  type Header = map<string, seq<string>>

  const StatusOK: int := 200

  /** The writer's fields; `header` is nil until `Header()` first runs. */
  datatype ResponseWriter = ResponseWriter(
    writer: W.Sink,
    header: Option<Header>,
    statusCode: int,
    statusSet: bool)

  /** `newResponseWriter(w)`: no header map, status 0, nothing set. */
  function NewResponseWriter(w: W.Sink): (rw: ResponseWriter)
    ensures rw.writer == w
    ensures StatusCode(rw) == 0 && !rw.statusSet && rw.header.None?
  {
    ResponseWriter(w, None, 0, false)
  }

  /** The writer after a `Header()` call, with the map that call returned. */
  datatype HeaderView = HeaderView(rw: ResponseWriter, header: Header)

  /** `Header()`: makes the map on the first call, then always returns
      that same map. Nothing but the header field changes. */
  function GetHeader(rw: ResponseWriter): (v: HeaderView)
    ensures v.rw.header == Some(v.header)
    ensures rw.header.Some? ==> v.header == rw.header.value
    ensures rw.header.None? ==> v.header == map[]
    ensures v.rw == rw.(header := Some(v.header))
  {
    match rw.header
    case Some(h) => HeaderView(rw, h)
    case None => HeaderView(rw.(header := Some(map[])), map[])
  }

  /** `rw.Header()[name] = values`: a handler editing the returned map,
      which is the writer's own map. */
  function SetHeader(rw: ResponseWriter, name: string, values: seq<string>): (rw': ResponseWriter)
    ensures GetHeader(rw').header == GetHeader(rw).header[name := values]
    ensures rw'.writer == rw.writer
    ensures rw'.statusCode == rw.statusCode && rw'.statusSet == rw.statusSet
  {
    var v := GetHeader(rw);
    v.rw.(header := Some(v.header[name := values]))
  }

  /** `WriteHeader(code)`: records the code and that it was set, whether
      or not bytes were written before. */
  function WriteHeader(rw: ResponseWriter, code: int): (rw': ResponseWriter)
    ensures StatusCode(rw') == code && rw'.statusSet
    ensures rw'.writer == rw.writer && rw'.header == rw.header
  {
    rw.(statusCode := code, statusSet := true)
  }

  /** `StatusCode()`. */
  function StatusCode(rw: ResponseWriter): int {
    rw.statusCode
  }

  datatype WriteResult = WriteResult(rw: ResponseWriter, n: nat, err: Option<Err>)

  /** `Write(p)`: implies status 200 unless `WriteHeader` ran, then passes
      `p` to the underlying writer and returns exactly what it returned. */
  function Write(rw: ResponseWriter, p: seq<byte>): (r: WriteResult)
    ensures var w := W.Write(rw.writer, p);
      r.rw.writer == w.sink && r.n == w.n && r.err == w.err
    ensures StatusCode(r.rw) == if rw.statusSet then rw.statusCode else StatusOK
    ensures r.rw.statusSet == rw.statusSet && r.rw.header == rw.header
  {
    var rw1 := if !rw.statusSet then rw.(statusCode := StatusOK) else rw;
    var w := W.Write(rw1.writer, p);
    WriteResult(rw1.(writer := w.sink), w.n, w.err)
  }

  // ----- A handler, seen as the calls it makes -----

  /** One call a handler makes on the writer it is given. */
  datatype Call =
    | HeaderSet(name: string, values: seq<string>)
    | HeaderWrite(code: int)
    | BodyWrite(data: seq<byte>)

  function Apply(rw: ResponseWriter, c: Call): ResponseWriter {
    match c
    case HeaderSet(name, values) => SetHeader(rw, name, values)
    case HeaderWrite(code) => WriteHeader(rw, code)
    case BodyWrite(data) => Write(rw, data).rw
  }

  /** The writer after a handler has made `calls`, in order. */
  function Run(rw: ResponseWriter, calls: seq<Call>): ResponseWriter
    decreases |calls|
  {
    if calls == [] then rw else Run(Apply(rw, calls[0]), calls[1..])
  }

  /** The code of the last `WriteHeader` call, if any. */
  function LastCode(calls: seq<Call>): Option<int> {
    if calls == [] then None
    else match LastCode(calls[1..])
      case Some(c) => Some(c)
      case None => if calls[0].HeaderWrite? then Some(calls[0].code) else None
  }

  /** Whether the calls write to the body at all. */
  predicate Writes(calls: seq<Call>) {
    calls != [] && (calls[0].BodyWrite? || Writes(calls[1..]))
  }

  /** All bytes the calls write, in order. */
  function Body(calls: seq<Call>): seq<byte> {
    if calls == [] then []
    else (if calls[0].BodyWrite? then calls[0].data else []) + Body(calls[1..])
  }

  /** The values the last edit of `name` stored, if any. */
  function LastValues(calls: seq<Call>, name: string): Option<seq<string>> {
    if calls == [] then None
    else match LastValues(calls[1..], name)
      case Some(v) => Some(v)
      case None => if calls[0].HeaderSet? && calls[0].name == name then Some(calls[0].values) else None
  }

  /** The status a writer ends with: the last `WriteHeader` code; failing
      that, 200 if the calls write and no code was set before; failing
      that, the status it started with. */
  function ExpectedStatus(rw: ResponseWriter, calls: seq<Call>): int {
    match LastCode(calls)
    case Some(c) => c
    case None => if !rw.statusSet && Writes(calls) then StatusOK else rw.statusCode
  }

  /** The status-code rules over any sequence of calls. */
  lemma {:induction false} RunStatus(rw: ResponseWriter, calls: seq<Call>)
    ensures StatusCode(Run(rw, calls)) == ExpectedStatus(rw, calls)
    ensures Run(rw, calls).statusSet == (rw.statusSet || LastCode(calls).Some?)
    decreases |calls|
  {
    if calls != [] {
      RunStatus(Apply(rw, calls[0]), calls[1..]);
    }
  }

  /** A fresh writer reports the last `WriteHeader` code, else 200 when
      the handler wrote anything (even zero bytes), else 0. */
  lemma FreshStatus(w: W.Sink, calls: seq<Call>)
    ensures StatusCode(Run(NewResponseWriter(w), calls)) ==
      match LastCode(calls)
      case Some(c) => c
      case None => if Writes(calls) then 200 else 0
  {
    RunStatus(NewResponseWriter(w), calls);
  }

  /** The sink receives the body bytes in order, up to its room. */
  lemma {:induction false} RunBody(rw: ResponseWriter, calls: seq<Call>)
    ensures Run(rw, calls).writer.contents ==
      rw.writer.contents + Body(calls)[..W.Accepted(rw.writer.room, |Body(calls)|)]
    ensures rw.writer.room.None? ==> Run(rw, calls).writer.room.None?
    decreases |calls|
  {
    if calls != [] {
      var c := calls[0];
      var rw1 := Apply(rw, c);
      RunBody(rw1, calls[1..]);
      var rest := Body(calls[1..]);
      if c.BodyWrite? {
        var p := c.data;
        var n := W.Accepted(rw.writer.room, |p|);
        assert rw1.writer.contents == rw.writer.contents + p[..n];
        assert Body(calls) == p + rest;
        var m := W.Accepted(rw1.writer.room, |rest|);
        if n == |p| {
          assert p[..n] + rest[..m] == (p + rest)[..n + m];
          assert n + m == W.Accepted(rw.writer.room, |p + rest|);
        } else {
          assert rw1.writer.room == Some(0);
          assert rest[..m] == [];
          assert (p + rest)[..W.Accepted(rw.writer.room, |p + rest|)] == p[..n];
        }
      } else {
        assert Body(calls) == rest;
      }
    }
  }

  /** With an unbounded sink the output is exactly the concatenation of
      everything written, unchanged. */
  lemma RunBodyUnbounded(rw: ResponseWriter, calls: seq<Call>)
    requires rw.writer.room.None?
    ensures Run(rw, calls).writer.contents == rw.writer.contents + Body(calls)
  {
    RunBody(rw, calls);
    assert Body(calls)[..|Body(calls)|] == Body(calls);
  }

  /** Header edits persist: a name holds the values of its last edit, and
      a name no call edits keeps what it had. */
  lemma {:induction false} RunHeader(rw: ResponseWriter, calls: seq<Call>, name: string)
    ensures var h := GetHeader(Run(rw, calls)).header;
      match LastValues(calls, name)
      case Some(v) => name in h && h[name] == v
      case None => ((name in h <==> name in GetHeader(rw).header) &&
                    (name in h ==> h[name] == GetHeader(rw).header[name]))
    decreases |calls|
  {
    if calls != [] {
      RunHeader(Apply(rw, calls[0]), calls[1..], name);
    }
  }

  /** A second `Header()` call returns the same map and changes nothing. */
  lemma HeaderStable(rw: ResponseWriter)
    ensures GetHeader(GetHeader(rw).rw) == GetHeader(rw)
  {
  }
}
