/** The size limit on direct uploads: a reader that counts what it passes on and fails one
    byte past the limit. */
module LimitReader {
  import opened Basics
  import opened Accounting
  import opened DiskModel
  import opened StoreSpec

  /** The error a Read returns: none, end of file, a failure, or the size limit. */
  datatype End = More | Eof | Failed | TooLarge

  /** The request body behind the limit. It delivers its bytes in chunks of any size and then
      ends; its own cap on the whole request also counts as the size limit. */
  class Source {
    var rest: Bytes
    const tail: End

    constructor (bytes: Bytes, tail: End)
      ensures rest == bytes && this.tail == tail
    {
      this.rest, this.tail := bytes, tail;
    }

    method Read(room: nat) returns (chunk: Bytes, end: End)
      requires !tail.More?
      modifies this
      ensures |chunk| <= room && old(rest) == chunk + rest
      ensures end.More? || (rest == [] && end == tail)
      ensures room > 0 ==> |chunk| > 0 || !end.More?
    {
      var n: nat :| n <= room && n <= |rest| && (room > 0 && rest != [] ==> n > 0);
      chunk, rest := rest[..n], rest[n..];
      end := More;
      if rest == [] {
        var now := *;
        if now || n == 0 { end := tail; }
      }
    }
  }

  /** uploadLimitReader */
  class UploadLimitReader {
    const reader: Source
    var remaining: int
    ghost const limit: nat
    ghost const body: Bytes
    ghost var passed: Bytes

    ghost predicate Valid()
      reads this, reader
    {
      && !reader.tail.More? && limit < MAX_INT64
      && body == passed + reader.rest
      && remaining == limit - |passed| >= -1
    }

    constructor (reader: Source, limit: nat)
      requires !reader.tail.More? && limit < MAX_INT64
      ensures Valid() && passed == [] && body == reader.rest && this.limit == limit && this.reader == reader
    {
      this.reader, this.remaining, this.limit := reader, limit, limit;
      body, passed := reader.rest, [];
    }

    /** At most one byte past the limit is ever passed on. An end is reported only for a body
        within the limit, when all of it has been passed on, and is the body's own; a longer
        body ends with the limit's error, exactly with the first byte beyond. */
    method Read(buffer: nat) returns (chunk: Bytes, end: End)
      requires Valid()
      modifies this, reader
      ensures Valid() && |chunk| <= buffer && passed == old(passed) + chunk
      ensures |passed| <= limit + 1
      ensures !end.More? && |body| <= limit ==> passed == body && end == reader.tail
      ensures |passed| > limit <==> |body| > limit && !end.More?
      ensures |passed| > limit ==> end.TooLarge?
      ensures buffer > 0 ==> |chunk| > 0 || !end.More?
    {
      if remaining < 0 { return [], TooLarge; }
      var room := buffer;
      if room > remaining + 1 { room := remaining + 1; }
      chunk, end := reader.Read(room);
      passed := passed + chunk;
      remaining := remaining - |chunk|;
      if remaining < 0 { end := TooLarge; }
    }
  }

  /** What is left of a body behind the limit. */
  function Limited(body: Body, limit: nat): Body {
    if |body.bytes| <= limit then body else Body(body.bytes[..limit + 1], true)
  }

  /** io.Copy through the limit, with whatever buffer sizes: the caller sees a body within the
      limit unchanged, and of a longer one the first bytes and an error. */
  method Drain(body: Body, tail: End, limit: nat) returns (seen: Body)
    requires limit < MAX_INT64 && !tail.More? && (tail.Eof? <==> !body.fails)
    ensures seen == Limited(body, limit)
  {
    var source := new Source(body.bytes, tail);
    var reader := new UploadLimitReader(source, limit);
    var bytes, end := [], More;
    while end.More?
      invariant reader.Valid() && fresh(reader) && fresh(source) && reader.reader == source && reader.limit == limit
      invariant source.tail == tail && reader.body == body.bytes
      invariant bytes == reader.passed
      invariant end.More? ==> |bytes| <= limit
      invariant !end.More? && |body.bytes| <= limit ==> bytes == body.bytes && end == tail
      invariant !end.More? && |body.bytes| > limit ==> |bytes| == limit + 1 && end.TooLarge?
      decreases |source.rest|, if end.More? then 1 else 0
    {
      var buffer: nat :| buffer > 0;
      var chunk;
      chunk, end := reader.Read(buffer);
      bytes := bytes + chunk;
    }
    assert bytes <= body.bytes;
    seen := Body(bytes, !end.Eof?);
  }

  /** Behind the limit nothing larger is ever stored and everything else is stored as before:
      a Put of a body through the limit succeeds exactly when the body fits and the Put itself
      succeeds. */
  lemma PutBehindTheLimitIff(cfg: Config, s: Store, pause: Pause, id: Id, body: Body, limit: nat, info: Info, now: int)
    ensures
      var limited := Put(cfg, s, pause, id, Limited(body, limit), info, now);
      && (limited.1.Ok? <==> |body.bytes| <= limit && Put(cfg, s, pause, id, body, info, now).1.Ok?)
      && (limited.1.Ok? ==> limited == Put(cfg, s, pause, id, body, info, now))
      && (|body.bytes| > limit ==> limited.0.disk == s.disk)
  {}
}
