/**
 * The `while not done: _, done = downloader.next_chunk()` loop of a media
 * download: every call writes one chunk; the loop ends after the first chunk
 * whose `done` flag is set; a call when no chunk is left raises.
 */
module Media {
  import opened GoogleApi

  /** The bytes of `chunks`, in order. */
  function Joined(chunks: seq<Chunk>): seq<byte> {
    if chunks == [] then [] else Joined(chunks[..|chunks| - 1]) + chunks[|chunks| - 1].data
  }

  lemma {:induction false} JoinedCons(c: Chunk, rest: seq<Chunk>)
    ensures Joined([c] + rest) == c.data + Joined(rest)
    decreases |rest|
  {
    if rest != [] {
      var init := rest[..|rest| - 1];
      assert ([c] + rest)[..|rest|] == [c] + init;
      JoinedCons(c, init);
    }
  }

  /** What the loop wrote, and whether it reached a `done` chunk. */
  datatype Drained = Drained(data: seq<byte>, complete: bool)

  /** The loop, chunk by chunk. */
  function Drain(chunks: seq<Chunk>): Drained {
    if chunks == [] then Drained([], false)
    else if chunks[0].done then Drained(chunks[0].data, true)
    else
      var rest := Drain(chunks[1..]);
      Drained(chunks[0].data + rest.data, rest.complete)
  }

  /** The loop writes exactly the chunks up to and including the first
      `done` one, in order; without a `done` chunk it writes them all and
      then fails. */
  lemma {:induction false} DrainStopsAtFirstDone(chunks: seq<Chunk>, n: nat)
    requires n <= |chunks|
    requires forall j | 0 <= j < n :: !chunks[j].done
    requires n < |chunks| ==> chunks[n].done
    ensures n == |chunks| ==> Drain(chunks) == Drained(Joined(chunks), false)
    ensures n < |chunks| ==> Drain(chunks) == Drained(Joined(chunks[..n + 1]), true)
  {
    if chunks == [] {
    } else if n == 0 {
      assert chunks[..1] == [chunks[0]] + [];
      JoinedCons(chunks[0], []);
    } else {
      var rest := chunks[1..];
      DrainStopsAtFirstDone(rest, n - 1);
      if n == |chunks| {
        assert chunks == [chunks[0]] + rest;
        JoinedCons(chunks[0], rest);
      } else {
        assert chunks[..n + 1] == [chunks[0]] + rest[..n];
        JoinedCons(chunks[0], rest[..n]);
      }
    }
  }
}
