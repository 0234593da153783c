/** The bounded tail of a child process's error stream (crates/bookforge-audio/src/stitch.rs:1069-1094). */
module StderrTail {
  import opened Options

  const STDERR_LIMIT: nat := 16 * 1024
  const USIZE_MAX: nat := 0xFFFF_FFFF_FFFF_FFFF

  type Bytes = seq<bv8>

  /** What one call of `read` gives; no bytes means the stream has ended. */
  datatype ReadResult = Data(bytes: Bytes) | Failed(error: string)

  /** Everything the stream delivers up to its end, or the error that cuts it short. */
  function Received(results: seq<ReadResult>): Result<Bytes, string> {
    if results == [] then Ok([])
    else match results[0]
      case Failed(error) => Err(error)
      case Data(bytes) =>
        if bytes == [] then Ok([])
        else match Received(results[1..])
          case Ok(rest) => Ok(bytes + rest)
          case Err(error) => Err(error)
  }

  function Last(s: Bytes, count: nat): Bytes {
    if |s| <= count then s else s[|s| - count..]
  }

  function SaturatingAdd(a: nat, b: nat): nat {
    if a + b > USIZE_MAX then USIZE_MAX else a + b
  }

  function SaturatingSub(a: nat, b: nat): nat {
    if a < b then 0 else a - b
  }

  /** `seen` has been consumed and `rest` is still to come. */
  ghost predicate Resumes(results: seq<ReadResult>, seen: Bytes, rest: seq<ReadResult>) {
    Received(results) == match Received(rest)
      case Ok(more) => Ok(seen + more)
      case Err(error) => Err(error)
  }

  lemma ResumeAfter(results: seq<ReadResult>, seen: Bytes, rest: seq<ReadResult>)
    requires Resumes(results, seen, rest) && rest != [] && rest[0].Data? && rest[0].bytes != []
    ensures Resumes(results, seen + rest[0].bytes, rest[1..])
  {
    match Received(rest[1..])
    case Ok(more) => assert seen + (rest[0].bytes + more) == (seen + rest[0].bytes) + more;
    case Err(_) =>
  }

  /** The last bytes of an extended stream are the last bytes of the old tail, extended. */
  lemma LastOfLast(seen: Bytes, read: Bytes, limit: nat)
    ensures Last(Last(seen, limit) + read, limit) == Last(seen + read, limit)
  {
  }

  /** A read at least as long as the limit is all the tail holds. */
  lemma ReplaceTail(tail: Bytes, read: Bytes)
    requires |read| >= STDERR_LIMIT
    ensures Last(tail + read, STDERR_LIMIT) == read[|read| - STDERR_LIMIT..]
  {
  }

  /** A shorter one pushes out just what no longer fits. */
  lemma DrainTail(tail: Bytes, read: Bytes)
    requires |tail| <= STDERR_LIMIT && |read| < STDERR_LIMIT
    ensures Last(tail + read, STDERR_LIMIT)
         == (if |tail| + |read| > STDERR_LIMIT then tail[|tail| + |read| - STDERR_LIMIT..] else tail) + read
  {
  }

  /** However the stream is split into reads, the tail is its last `STDERR_LIMIT` bytes, or all of it,
      and the flag says whether anything was dropped. */
  method BoundedStderrTail(results: seq<ReadResult>) returns (r: Result<(Bytes, bool), string>)
    requires forall i | 0 <= i < |results| && results[i].Data? :: |results[i].bytes| <= USIZE_MAX - STDERR_LIMIT
    ensures Received(results).Err? ==> r == Err(Received(results).error)
    ensures Received(results).Ok? ==>
      r == Ok((Last(Received(results).value, STDERR_LIMIT), |Received(results).value| > STDERR_LIMIT))
  {
    var tail: Bytes := [];
    var total := 0;
    ghost var seen: Bytes := [];
    var at := 0;
    assert results[0..] == results;
    assert Resumes(results, [], results) by {
      if Received(results).Ok? {
        assert [] + Received(results).value == Received(results).value;
      }
    }
    while at < |results|
      invariant at <= |results| && Resumes(results, seen, results[at..])
      invariant tail == Last(seen, STDERR_LIMIT)
      invariant total == if |seen| > USIZE_MAX then USIZE_MAX else |seen|
    {
      assert results[at..][0] == results[at] && results[at..][1..] == results[at + 1..];
      if results[at].Failed? {
        return Err(results[at].error);
      }
      var buffer := results[at].bytes;
      var read := |buffer|;
      if read == 0 {
        assert seen + [] == seen;
        return Ok((tail, total > STDERR_LIMIT));
      }
      ResumeAfter(results, seen, results[at..]);
      LastOfLast(seen, buffer, STDERR_LIMIT);
      total := SaturatingAdd(total, read);
      if read >= STDERR_LIMIT {
        ReplaceTail(tail, buffer);
        tail := buffer[read - STDERR_LIMIT..];
      } else {
        DrainTail(tail, buffer);
        var overflow := SaturatingSub(SaturatingAdd(|tail|, read), STDERR_LIMIT);
        if overflow > 0 {
          tail := tail[overflow..];
        }
        tail := tail + buffer;
      }
      seen := seen + buffer;
      at := at + 1;
    }
    assert seen + [] == seen;
    r := Ok((tail, total > STDERR_LIMIT));
  }
}
