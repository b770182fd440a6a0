/** The `io.Writer` the response capture forwards to: an append-only
    sink. `room` is how many more bytes it accepts; `None` is an unbounded
    sink such as a `bytes.Buffer`, and a bounded one stands for an output
    file on a device that fills up. */
module Writers {
  import opened Wrappers
  import opened Errors

  newtype byte = b: int | 0 <= b < 0x100

  datatype Sink = Sink(contents: seq<byte>, room: Option<nat>)

  /** An empty sink, as `os.Create` leaves a truncated file. */
  function EmptySink(room: Option<nat>): Sink {
    Sink([], room)
  }

  /** The error of a write the sink could not take in full. */
  const NoSpace: Err := Failure("no space left on device")

  /** How many of `total` offered bytes a sink with this room takes. */
  function Accepted(room: Option<nat>, total: nat): (n: nat)
    ensures n <= total
    ensures room.None? ==> n == total
    ensures room.Some? ==> n <= room.value && (n == total || n == room.value)
  {
    match room
    case None => total
    case Some(k) => if k < total then k else total
  }

  /** Room left after accepting `n` bytes. */
  function Less(room: Option<nat>, n: nat): Option<nat>
    requires room.Some? ==> n <= room.value
  {
    match room
    case None => None
    case Some(k) => Some(k - n)
  }

  datatype Written = Written(sink: Sink, n: nat, err: Option<Err>)

  /** `Write(p)` of the io.Writer contract: it takes a prefix of `p`,
      returns how many bytes it took, and reports an error exactly when
      that is fewer than `|p|`. */
  function Write(w: Sink, p: seq<byte>): (r: Written)
    ensures r.n <= |p|
    ensures r.sink.contents == w.contents + p[..r.n]
    ensures r.err.None? <==> r.n == |p|
    ensures w.room.None? ==> r.n == |p| && r.sink.room.None?
    ensures w.room.Some? ==> r.sink.room.Some? && r.n + r.sink.room.value == w.room.value
    ensures w.room.Some? && r.n < |p| ==> r.sink.room == Some(0)
  {
    var n := Accepted(w.room, |p|);
    Written(Sink(w.contents + p[..n], Less(w.room, n)), n, if n < |p| then Some(NoSpace) else None)
  }
}
