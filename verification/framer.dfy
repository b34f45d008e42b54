/** The serial worker `serialPortController.run` (magpy/magstim.py:101-149):
    it takes directives from the write queue, writes command frames, reads the
    reply with a length chosen from its first bytes, and posts `[0, reply]` or
    a transport error to the read queue. */
module Framer {
  import opened Bytes

  /** The write-queue items `(message, reply, readBytes)`: `None` closes the
      port, `1` raises and `-1` lowers the RTS pin, anything else is a frame. */
  datatype Directive =
    | Close
    | RtsHigh
    | RtsLow
    | Write(frame: Bytes, wantReply: bool, readBytes: Option<int>)

  /** A read-queue item `(error, message)`; error 0 carries a reply. */
  datatype Posting = Posting(code: int, data: Bytes)

  const SERIAL_WRITE_ERR: int := 1
  const SERIAL_READ_ERR: int := 2

  const TAG_QUERY: Byte := 63    // '?'
  const TAG_CONFLICT: Byte := 83 // 'S'
  const TAG_VERSION: Byte := 78  // 'N'

  /** What the device sends after one write: the stream of bytes the port
      yields. The port is opened without a read timeout, so a read that asks
      for more bytes than the stream still holds waits for good. */
  datatype Wire = Wire(writeOk: bool, stream: Bytes)

  /** Index of the first zero byte at or after `k`, if any. */
  function FirstZero(s: Bytes, k: nat): (r: Option<nat>)
    ensures r.Some? ==> k <= r.value < |s| && s[r.value] == 0
    ensures r.Some? ==> forall j :: k <= j < r.value ==> s[j] != 0
    ensures r.None? ==> forall j :: k <= j < |s| ==> s[j] != 0
    decreases |s| - k
  {
    if k >= |s| then None else if s[k] == 0 then Some(k) else FirstZero(s, k + 1)
  }

  /** Bytes after the stream do not move a zero the stream already holds. */
  lemma {:induction false} FirstZeroExtends(s: Bytes, more: Bytes, k: nat)
    requires FirstZero(s, k).Some?
    ensures FirstZero(s + more, k) == FirstZero(s, k)
    decreases |s| - k
  {
    if s[k] != 0 {
      FirstZeroExtends(s, more, k + 1);
    }
  }

  datatype Read =
    | Got(reply: Bytes, rest: Bytes)
    | ReadFailed // an exception while reading: posted as SERIAL_READ_ERR
    | Starved    // a read waits for bytes the device never sends

  /** `port.read(n)` asks for nothing when `n <= 0`. */
  function Wanted(n: int): (m: nat)
    ensures n <= 0 ==> m == 0
    ensures n > 0 ==> m == n
  {
    if n <= 0 then 0 else n
  }

  /** The read-length decision of magpy/magstim.py:124-137. */
  function ReadReply(stream: Bytes, readBytes: Option<int>): (r: Read)
    ensures r.Got? ==> r.reply + r.rest == stream
    // only the missing length raises: `None - 2` once two ordinary bytes are in
    ensures r.ReadFailed? <==>
      (|stream| >= 2 && stream[0] != TAG_QUERY && stream[0] != TAG_VERSION &&
       stream[1] != TAG_CONFLICT && stream[1] != TAG_QUERY && readBytes.None?)
    // the first `read(1)` waits on a silent device, the second on a lone byte
    ensures |stream| == 0 ==> r == Starved
    ensures |stream| == 1 && stream[0] != TAG_QUERY && stream[0] != TAG_VERSION ==> r == Starved
    // a '?' first byte is the whole reply
    ensures |stream| >= 1 && stream[0] == TAG_QUERY ==> r == Got([TAG_QUERY], stream[1..])
    // a version reply runs through the first zero byte plus one checksum byte
    ensures |stream| >= 1 && stream[0] == TAG_VERSION ==>
      (r.Starved? <==> FirstZero(stream, 1).None? || |stream| < FirstZero(stream, 1).value + 2)
    ensures |stream| >= 1 && stream[0] == TAG_VERSION && r.Got? ==>
      |r.reply| == FirstZero(stream, 1).value + 2
    // an 'S' or '?' second byte leaves only the checksum to read
    ensures |stream| >= 2 && stream[0] != TAG_QUERY && stream[0] != TAG_VERSION &&
            (stream[1] == TAG_CONFLICT || stream[1] == TAG_QUERY) ==>
      (if |stream| >= 3 then r == Got(stream[..3], stream[3..]) else r == Starved)
    // otherwise the caller's length is read, two bytes at least
    ensures |stream| >= 2 && stream[0] != TAG_QUERY && stream[0] != TAG_VERSION &&
            stream[1] != TAG_CONFLICT && stream[1] != TAG_QUERY && readBytes.Some? ==>
      var m := 2 + Wanted(readBytes.value - 2);
      if m <= |stream| then r == Got(stream[..m], stream[m..]) else r == Starved
  {
    if |stream| == 0 then Starved
    else if stream[0] == TAG_VERSION then
      match FirstZero(stream, 1)
      case None => Starved
      case Some(k) => if k + 2 <= |stream| then Got(stream[..k + 2], stream[k + 2..]) else Starved
    else if stream[0] == TAG_QUERY then Got([TAG_QUERY], stream[1..])
    else if |stream| == 1 then Starved
    else if stream[1] == TAG_CONFLICT || stream[1] == TAG_QUERY then
      if |stream| >= 3 then Got(stream[..3], stream[3..]) else Starved
    else if readBytes.None? then ReadFailed
    else
      var m := 2 + Wanted(readBytes.value - 2);
      if m <= |stream| then Got(stream[..m], stream[m..]) else Starved
  }

  /** The reply is decided by its own bytes: whatever the device sends after
      a complete reply does not change it. (The next write flushes such
      bytes; flushing is not modelled.) */
  lemma ReplyIgnoresLaterBytes(stream: Bytes, more: Bytes, readBytes: Option<int>)
    requires ReadReply(stream, readBytes).Got?
    ensures var g := ReadReply(stream, readBytes);
      ReadReply(stream + more, readBytes) == Got(g.reply, g.rest + more)
  {
    var s := stream + more;
    assert s[..|stream|] == stream;
    if stream[0] == TAG_VERSION {
      FirstZeroExtends(stream, more, 1);
    }
    var g := ReadReply(stream, readBytes);
    assert s[..|g.reply|] == g.reply;
    assert s[|g.reply|..] == g.rest + more;
  }

  /** When the device has sent at least `readBytes` bytes of an ordinary reply,
      exactly `readBytes` bytes are consumed (two at least: the tag and one more). */
  lemma ExactLength(stream: Bytes, n: int)
    requires 2 <= n <= |stream|
    requires stream[0] != TAG_QUERY && stream[0] != TAG_VERSION
    requires stream[1] != TAG_CONFLICT && stream[1] != TAG_QUERY
    ensures ReadReply(stream, Some(n)) == Got(stream[..n], stream[n..])
  {
  }

  /** The effect of one directive on the read queue. */
  datatype Effect = Post(p: Posting) | Quiet | Hang

  /** One write: a failed write posts error 1 and a read without a length
      error 2 whether or not a reply was wanted, a read that waits posts
      nothing, and a reply is posted only when wanted. */
  function Serve(wantReply: bool, readBytes: Option<int>, w: Wire): (e: Effect)
    ensures !w.writeOk ==> e == Post(Posting(SERIAL_WRITE_ERR, []))
    ensures w.writeOk && ReadReply(w.stream, readBytes).ReadFailed? ==> e == Post(Posting(SERIAL_READ_ERR, []))
    // a read that waits stops the worker: nothing more is ever posted
    ensures e.Hang? <==> w.writeOk && ReadReply(w.stream, readBytes).Starved?
    ensures e.Post? && e.p.code == 0 ==> wantReply && ReadReply(w.stream, readBytes).Got? && ReadReply(w.stream, readBytes).reply == e.p.data
    ensures e.Quiet? <==> w.writeOk && ReadReply(w.stream, readBytes).Got? && !wantReply
  {
    if !w.writeOk then Post(Posting(SERIAL_WRITE_ERR, []))
    else
      match ReadReply(w.stream, readBytes)
      case ReadFailed => Post(Posting(SERIAL_READ_ERR, []))
      case Starved => Hang
      case Got(reply, _) => if wantReply then Post(Posting(0, reply)) else Quiet
  }

  /** A directive paired with what the device does after it (ignored for
      anything but a write). */
  datatype Job = Job(d: Directive, w: Wire)

  /** The worker loop: the postings it makes, in order, until `Close` or a hang. */
  function Run(jobs: seq<Job>): seq<Posting>
    decreases |jobs|
  {
    if |jobs| == 0 then []
    else
      match jobs[0].d
      case Close => []
      case RtsHigh => Run(jobs[1..])
      case RtsLow => Run(jobs[1..])
      case Write(_, want, n) =>
        match Serve(want, n, jobs[0].w)
        case Post(p) => [p] + Run(jobs[1..])
        case Quiet => Run(jobs[1..])
        case Hang => []
  }

  function Writes(jobs: seq<Job>): nat {
    if |jobs| == 0 then 0 else (if jobs[0].d.Write? then 1 else 0) + Writes(jobs[1..])
  }

  predicate NoClose(jobs: seq<Job>) {
    forall i :: 0 <= i < |jobs| ==> !jobs[i].d.Close?
  }

  /** Nothing after `Close` is ever processed: whatever follows it, the
      postings are those of the jobs before it. */
  lemma {:induction false} NothingAfterClose(before: seq<Job>, w: Wire, after: seq<Job>)
    requires NoClose(before)
    ensures Run(before + [Job(Close, w)] + after) == Run(before)
    decreases |before|
  {
    if |before| > 0 {
      assert (before + [Job(Close, w)] + after)[1..] == before[1..] + [Job(Close, w)] + after;
      NothingAfterClose(before[1..], w, after);
    } else {
      assert before + [Job(Close, w)] + after == [Job(Close, w)] + after;
    }
  }

  /** The RTS directives never post and never stop the loop. */
  lemma RtsIsSilent(high: bool, w: Wire, rest: seq<Job>)
    ensures Run([Job(if high then RtsHigh else RtsLow, w)] + rest) == Run(rest)
  {
    assert ([Job(if high then RtsHigh else RtsLow, w)] + rest)[1..] == rest;
  }

  /** Each write posts at most once, and only writes post. */
  lemma {:induction false} AtMostOnePostingPerWrite(jobs: seq<Job>)
    ensures |Run(jobs)| <= Writes(jobs)
    decreases |jobs|
  {
    if |jobs| > 0 {
      AtMostOnePostingPerWrite(jobs[1..]);
    }
  }
}
