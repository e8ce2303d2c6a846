/**
 * A response whose body is read chunk by chunk, as the stream `chunk`
 * methods read it: `while let Some(chunk) = response.chunk()? { buf.extend(chunk) }`.
 */
module Http {
  import opened Wrappers
  import opened Text
  import opened Errors

  /**
   * What the server sent back: its status and the body as the chunks
   * `response.chunk()` yields, after which the body either ends or the
   * read fails (`failed`).
   */
  datatype Reply = Reply(status: nat, chunks: seq<seq<byte>>, failed: bool)

  /** The chunks one after another. */
  function Flatten(chunks: seq<seq<byte>>): seq<byte> {
    if chunks == [] then [] else Flatten(chunks[..|chunks| - 1]) + chunks[|chunks| - 1]
  }

  /** Flattening respects concatenation: the body keeps every chunk, in order. */
  lemma {:induction false} FlattenAppend(a: seq<seq<byte>>, b: seq<seq<byte>>)
    ensures Flatten(a + b) == Flatten(a) + Flatten(b)
    decreases |b|
  {
    if b == [] {
      assert a + b == a;
    } else {
      var init := b[..|b| - 1];
      var last := b[|b| - 1];
      assert (a + b)[..|a + b| - 1] == a + init;
      assert (a + b)[|a + b| - 1] == last;
      FlattenAppend(a, init);
      assert Flatten(a) + Flatten(init) + last == Flatten(a) + (Flatten(init) + last);
    }
  }

  /** The body read to the end: a failing read is `VideoError::Reqwest` and discards what was read. */
  function Body(reply: Reply): (r: Result<seq<byte>, VideoError>)
    ensures r.Err? <==> reply.failed
    ensures r.Err? ==> r.error == Reqwest
    ensures r.Ok? ==> r.value == Flatten(reply.chunks)
  {
    if reply.failed then Err(Reqwest) else Ok(Flatten(reply.chunks))
  }

  /** The read loop of the stream `chunk` methods. */
  method ReadBody(reply: Reply) returns (r: Result<seq<byte>, VideoError>)
    ensures r == Body(reply)
  {
    var buf: seq<byte> := [];
    var i := 0;
    while i < |reply.chunks|
      invariant i <= |reply.chunks|
      invariant buf == Flatten(reply.chunks[..i])
    {
      assert reply.chunks[..i + 1][..i] == reply.chunks[..i];
      buf := buf + reply.chunks[i];
      i := i + 1;
    }
    assert reply.chunks[..i] == reply.chunks;
    if reply.failed {
      return Err(Reqwest);
    }
    return Ok(buf);
  }
}
