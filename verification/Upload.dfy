/** The resumable upload: chunks read from a stream that may return short, sent with explicit byte
    ranges to a server that assembles them. */
module Upload {
  import opened Model

  const RESUMABLE_CHUNK_SIZE: nat := 8 * 1024 * 1024

  /** What one `read` does: fail, or return at least one and at most `most` of the bytes left. */
  datatype Hint = ReadFails | ReadUpTo(most: nat)

  class Reader {
    const data: Content
    var pos: nat
    var hints: seq<Hint>

    constructor (data: Content, hints: seq<Hint>)
      ensures this.data == data && pos == 0 && this.hints == hints
    {
      this.data := data;
      this.pos := 0;
      this.hints := hints;
    }

    /** The next bytes; none at the end of the stream only. */
    method Read(want: nat) returns (r: Option<Content>)
      requires pos <= |data| && want > 0
      modifies this
      ensures r.None? ==> pos == old(pos) && ReadFails in old(hints)
      ensures r.Some? ==> |r.value| <= want && pos == old(pos) + |r.value| <= |data| && r.value == data[old(pos)..pos]
      ensures r == Some([]) ==> pos == |data|
      ensures old(hints) == [] ==> hints == [] && r.Some? && (|r.value| == want || pos == |data|)
      ensures forall h :: h in hints ==> h in old(hints)
    {
      var hint := ReadUpTo(want);
      if |hints| > 0 {
        hint := hints[0];
        hints := hints[1..];
      }
      match hint
      case ReadFails => r := None;
      case ReadUpTo(most) =>
        var n := Least(Least(want, |data| - pos), if most == 0 then 1 else most);
        r := Some(data[pos..pos + n]);
        pos := pos + n;
    }
  }

  function Least(a: nat, b: nat): (r: nat)
    ensures r <= a && r <= b && (r == a || r == b)
  {
    if a < b then a else b
  }

  datatype Reply = Finished | ResumeIncomplete | Refused | NoReply

  /** A request as the server saw it, and its answer. */
  datatype Entry =
    | Chunk(first: nat, last: nat, total: nat, body: Content, kept: nat, reply: Reply)
    | Commit(size: nat, answer: Reply)

  /** How the server treats the next request: store some of the bytes and answer, turn it down, or
      store some of the bytes and have its answer lost. */
  datatype Decision = Keep(bytes: nat, finish: bool) | Reject | LoseReply(bytes: nat)

  /** Section 14.4 of RFC 9110: a byte range runs forward and ends before the complete length. */
  predicate ValidContentRange(first: nat, last: nat, total: nat) { first <= last < total }

  /** An upload session. The server appends bytes only where its own copy ends. */
  class Session {
    const total: nat
    var held: Content
    var log: seq<Entry>
    var decisions: seq<Decision>

    constructor (total: nat, held: Content, decisions: seq<Decision>)
      ensures this.total == total && this.held == held && log == [] && this.decisions == decisions
    {
      this.total := total;
      this.held := held;
      this.log := [];
      this.decisions := decisions;
    }

    method Decide(default: Decision) returns (d: Decision)
      modifies this`decisions
    {
      d := default;
      if |decisions| > 0 {
        d := decisions[0];
        decisions := decisions[1..];
      }
    }

    method PutChunk(first: nat, last: nat, size: nat, body: Content) returns (reply: Reply)
      modifies this
      ensures exists kept: nat :: kept <= |body| && log == old(log) + [Chunk(first, last, size, body, kept, reply)]
                          && held == old(held) + body[..kept]
      ensures reply == Refused ==> held == old(held)
      ensures reply == Finished ==> |held| == total
      ensures reply == Finished || reply == ResumeIncomplete ==>
                ValidContentRange(first, last, size) && size == total && first == |old(held)|
                    && |body| == last - first + 1
    {
      var d := Decide(Keep(|body|, true));
      var valid := ValidContentRange(first, last, size) && size == total && first == |held|
          && |body| == last - first + 1;
      var kept := 0;
      if !valid || d.Reject? {
        reply := Refused;
      } else {
        kept := Least(d.bytes, |body|);
        held := held + body[..kept];
        reply := if d.LoseReply? then NoReply
                 else if |held| == total && d.finish then Finished else ResumeIncomplete;
      }
      log := log + [Chunk(first, last, size, body, kept, reply)];
    }

    method PutCommit(size: nat) returns (reply: Reply)
      modifies this
      ensures log == old(log) + [Commit(size, reply)] && held == old(held)
      ensures reply == Finished ==> size == total && |held| == total
      ensures reply == ResumeIncomplete ==> |held| != total || size != total
    {
      var d := Decide(Keep(0, true));
      reply := match d
               case Reject => Refused
               case LoseReply(_) => NoReply
               case Keep(_, _) => if size == total && |held| == total then Finished else ResumeIncomplete;
      log := log + [Commit(size, reply)];
    }
  }

  // ----- what the log of one upload looks like -----

  /** The chunks sent are consecutive slices of `data` from `start` on, with their exact byte ranges. */
  ghost predicate Slices(log: seq<Entry>, data: Content, start: nat) {
    log != [] ==>
      match log[0]
      case Commit(_, _) => |log| == 1
      case Chunk(first, last, _, body, kept, _) =>
        && first == start <= last < |data| && body == data[first..last + 1] && kept <= |body|
        && Slices(log[1..], data, last + 1)
  }

  /** Where the chunks of a log without a commit request end. */
  ghost function EndOf(log: seq<Entry>, start: nat): nat {
    if log == [] || log[|log| - 1].Commit? then start else log[|log| - 1].last + 1
  }

  ghost predicate Whole(e: Entry) { e.Chunk? ==> e.kept == |e.body| }

  ghost predicate Accepted(e: Entry) {
    match e
    case Chunk(_, _, _, body, kept, reply) => kept == |body| && (reply == Finished || reply == ResumeIncomplete)
    case Commit(_, answer) => answer == Finished
  }

  lemma {:induction false} SlicesAppend(log: seq<Entry>, data: Content, start: nat, e: Entry)
    requires Slices(log, data, start) && forall i :: 0 <= i < |log| ==> log[i].Chunk?
    requires match e
             case Commit(_, _) => true
             case Chunk(first, last, _, body, kept, _) =>
               first == EndOf(log, start) <= last < |data| && body == data[first..last + 1] && kept <= |body|
    ensures Slices(log + [e], data, start)
  {
    if log != [] {
      assert (log + [e])[1..] == log[1..] + [e];
      SlicesAppend(log[1..], data, log[0].last + 1, e);
    }
  }

  /** The state at the head of the send loop: every chunk was answered with 308, and what the server
      holds is a prefix of the stream that reaches `offset` exactly when every chunk was stored whole. */
  ghost predicate InFlight(log: seq<Entry>, held: Content, data: Content, start: nat, offset: nat, total: nat) {
    && start <= offset <= |data|
    && Slices(log, data, start) && EndOf(log, start) == offset
    && (forall e :: e in log ==> e.Chunk? && e.reply == ResumeIncomplete && e.total == total)
    && (log == [] || offset <= total)
    && |held| <= offset && held == data[..|held|]
    && (|held| == offset <==> forall e :: e in log ==> Whole(e))
  }

  /** What one request adds to the log of an upload, and what it means when it ends the upload. */
  lemma RequestSent(log: seq<Entry>, held: Content, data: Content, start: nat, offset: nat, total: nat, e: Entry)
    requires InFlight(log, held, data, start, offset, total)
    requires match e
             case Commit(size, _) => size == total
             case Chunk(first, last, size, body, kept, _) =>
               first == offset <= last < |data| && body == data[offset..last + 1] && kept <= |body| && size == total
    ensures RangesOk(log, data, start, total) && RangesOk(log + [e], data, start, total)
    ensures e.Chunk? && e.reply == ResumeIncomplete && |held| == offset && e.last < total ==>
              InFlight(log + [e], held + e.body[..e.kept], data, start, e.last + 1, total)
    ensures e.Chunk? && e.reply == Finished && |held| == offset && offset + e.kept == total && e.last < total ==>
              Assembled(log + [e], held + e.body[..e.kept], data, total)
    ensures e.Commit? && e.answer == Finished && |held| == total && total <= offset ==>
        Assembled(log + [e], held, data, total)
    ensures !Accepted(e) ==> !AllAccepted(log + [e])
  {
    SlicesAppend(log, data, start, e);
    RangesInside(log, data, start);
    RangesInside(log + [e], data, start);
    var all := log + [e];
    assert e in all && forall x :: x in all <==> x in log || x == e;
    if e.Chunk? {
      assert e.body[..e.kept] == data[offset..offset + e.kept];
      if |held| == offset {
        assert held + e.body[..e.kept] == data[..offset + e.kept];
        assert forall x :: x in log ==> Whole(x);
      }
    }
  }

  /** Consecutive slices, each announced with its exact range, valid unless the stream is too long. */
  ghost predicate RangesOk(log: seq<Entry>, data: Content, start: nat, total: nat) {
    && Slices(log, data, start)
    && forall e :: e in log && e.Chunk? ==>
         e.total == total && (|data| <= total ==> ValidContentRange(e.first, e.last, e.total))
  }

  ghost predicate AllAccepted(log: seq<Entry>) { forall e :: e in log ==> Accepted(e) }

  /** The server holds the file, and stored every chunk whole on the way. */
  ghost predicate Assembled(log: seq<Entry>, held: Content, data: Content, total: nat) {
    total <= |data| && held == data[..total] && AllAccepted(log)
  }

  lemma {:induction false} RangesInside(log: seq<Entry>, data: Content, start: nat)
    requires Slices(log, data, start)
    ensures forall e :: e in log && e.Chunk? ==> e.first <= e.last < |data|
  {
    if log != [] && log[0].Chunk? {
      RangesInside(log[1..], data, log[0].last + 1);
      assert forall e :: e in log ==> e == log[0] || e in log[1..];
    }
  }

  /** No chunk is larger than the buffer. */
  ghost predicate ChunksFit(log: seq<Entry>) {
    forall e :: e in log && e.Chunk? ==> |e.body| <= RESUMABLE_CHUNK_SIZE
  }

  /** Every chunk fills the buffer, except one that reaches the end of the stream. */
  ghost predicate ChunksFull(log: seq<Entry>, size: nat) {
    forall e :: e in log && e.Chunk? ==> |e.body| == RESUMABLE_CHUNK_SIZE || e.last + 1 == size
  }

  /** One more request, which is a commit or a chunk that fits. */
  lemma OneMoreChunk(before: seq<Entry>, after: seq<Entry>, size: nat)
    requires exists e :: after == before + [e] && (e.Chunk? ==> |e.body| <= RESUMABLE_CHUNK_SIZE)
    ensures ChunksFit(before) ==> ChunksFit(after)
    ensures ChunksFull(before, size)
            && (exists e :: after == before + [e]
                  && (e.Chunk? ==> |e.body| == RESUMABLE_CHUNK_SIZE || e.last + 1 == size))
            ==> ChunksFull(after, size)
  {
    var e := after[|before|];
    assert forall x :: x in after <==> x in before || x == e;
  }

  /** The start of an upload. */
  lemma NothingSent(log: seq<Entry>, held: Content, data: Content, start: nat, total: nat)
    requires log == [] && (start <= |data| ==> held == data[..start])
    ensures RangesOk(log, data, start, total) && ChunksFit(log) && ChunksFull(log, |data|)
    ensures start <= |data| ==> InFlight(log, held, data, start, start, total)
  {
  }

  lemma RangesInFlight(log: seq<Entry>, held: Content, data: Content, start: nat, offset: nat, total: nat)
    requires InFlight(log, held, data, start, offset, total)
    ensures RangesOk(log, data, start, total)
  {
    RequestSent(log, held, data, start, offset, total, Commit(total, Refused));
  }

  /** Reads up to the resume point. */
  method SkipTo(reader: Reader, start: nat) returns (r: Outcome)
    requires reader.pos == 0
    modifies reader
    ensures r == Ok ==> reader.pos == start <= |reader.data|
    ensures r == Err ==> ReadFails in old(reader.hints) || |reader.data| < start
    ensures forall h :: h in reader.hints ==> h in old(reader.hints)
    ensures old(reader.hints) == [] ==> reader.hints == []
  {
    var skip := start;
    while skip > 0
      invariant reader.pos + skip == start && 0 <= skip && reader.pos <= |reader.data|
      invariant forall h :: h in reader.hints ==> h in old(reader.hints)
      invariant old(reader.hints) == [] ==> reader.hints == []
    {
      var got := reader.Read(Least(skip, RESUMABLE_CHUNK_SIZE));
      if got.None? || got.value == [] {
        return Err;
      }
      skip := skip - |got.value|;
    }
    r := Ok;
  }

  /** Sends one chunk. */
  method SendChunk(session: Session, total: nat, offset: nat, body: Content, ghost data: Content, ghost start: nat)
    returns (reply: Reply)
    requires session.total == total && InFlight(session.log, session.held, data, start, offset, total)
    requires 0 < |body| && offset + |body| <= |data| && body == data[offset..offset + |body|]
    modifies session
    ensures exists e :: session.log == old(session.log) + [e] && e.Chunk? && e.body == body
                        && e.last + 1 == offset + |body|
    ensures RangesOk(session.log, data, start, total)
    ensures match reply
            case ResumeIncomplete => InFlight(session.log, session.held, data, start, offset + |body|, total)
            case Finished => Assembled(session.log, session.held, data, total)
            case _ => !AllAccepted(session.log)
  {
    ghost var log, held := session.log, session.held;
    reply := session.PutChunk(offset, offset + |body| - 1, total, body);
    RequestSent(log, held, data, start, offset, total, session.log[|log|]);
  }

  /** The closing request, once the stream has ended. */
  method SendCommit(session: Session, total: nat, ghost offset: nat, ghost data: Content, ghost start: nat)
    returns (r: Outcome)
    requires session.total == total <= offset && InFlight(session.log, session.held, data, start, offset, total)
    modifies session
    ensures exists e :: session.log == old(session.log) + [e] && e.Commit?
    ensures RangesOk(session.log, data, start, total)
    ensures if r == Ok then Assembled(session.log, session.held, data, total) else !AllAccepted(session.log)
  {
    ghost var log := session.log;
    var reply := session.PutCommit(total);
    RequestSent(log, session.held, data, start, offset, total, Commit(total, reply));
    r := if reply == Finished then Ok else Err;
  }

  /** Sends the rest of the stream from `start` on. However the reads are cut and whatever the server
      does, the chunks are consecutive slices of the stream. Success means that the server holds the
      file and that it had stored every byte of every chunk it answered with 308: the `Range` header of
      a 308 is not looked at, so a chunk that was stored in part makes the upload fail. A failure always
      has a cause outside the loop. */
  method UploadChunksResumable(session: Session, totalSize: nat, start: nat, reader: Reader) returns (r: Outcome)
    requires reader.pos == 0 && session.log == [] && session.total == totalSize
    requires start <= |reader.data| ==> session.held == reader.data[..start]
    modifies session, reader
    ensures RangesOk(session.log, reader.data, start, totalSize)
    ensures r == Ok ==> Assembled(session.log, session.held, reader.data, totalSize)
    ensures ChunksFit(session.log) && (old(reader.hints) == [] ==> ChunksFull(session.log, |reader.data|))
    ensures r == Err ==> (ReadFails in old(reader.hints) || |reader.data| < totalSize || |reader.data| < start
                          || !AllAccepted(session.log))
  {
    hide InFlight, RangesOk, Assembled, AllAccepted, ChunksFit, ChunksFull;
    NothingSent(session.log, session.held, reader.data, start, totalSize);
    r := SkipTo(reader, start);
    if r == Err {
      return;
    }
    var offset := start;
    ghost var data := reader.data;
    while true
      invariant offset == reader.pos <= |data|
      invariant forall h :: h in reader.hints ==> h in old(reader.hints)
      invariant old(reader.hints) == [] ==> reader.hints == []
      invariant ChunksFit(session.log) && (old(reader.hints) == [] ==> ChunksFull(session.log, |data|))
      invariant InFlight(session.log, session.held, data, start, offset, totalSize)
      decreases |data| - offset
    {
      RangesInFlight(session.log, session.held, data, start, offset, totalSize);
      ghost var before := session.log;
      var got := reader.Read(RESUMABLE_CHUNK_SIZE);
      if got.None? {
        return Err;
      }
      var n := |got.value|;
      if n == 0 {
        if offset < totalSize {
          return Err;
        }
        break;
      }
      var reply := SendChunk(session, totalSize, offset, got.value, data, start);
      OneMoreChunk(before, session.log, |data|);
      if reply == Finished {
        return Ok;
      }
      if reply != ResumeIncomplete {
        return Err;
      }
      offset := offset + n;
    }
    ghost var chunks := session.log;
    r := SendCommit(session, totalSize, offset, data, start);
    OneMoreChunk(chunks, session.log, |data|);
  }
}
