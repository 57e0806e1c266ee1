/**
 * From the completion service's answer to the messages posted back: pick
 * the last choice, split its characters into runs of at most 2000, send
 * the runs one after another.
 */
module Reply {
  import opened Types

  /** Discord's limit on the characters of one message. */
  const MAX_CHUNK: nat := 2000

  /** One choice of the completion response, reduced to its message content. */
  datatype Choice = Choice(content: string)

  /** The reply text: the last choice's content, or the empty string when there are no choices. */
  function SelectReply(choices: seq<Choice>): (r: string)
    ensures choices != [] ==> r == choices[|choices| - 1].content
    ensures choices == [] ==> r == ""
  {
    if choices == [] then "" else choices[|choices| - 1].content
  }

  /** `chars().chunks(2000)`: consecutive runs of 2000 characters, the last holding the remainder. */
  function Chunks(s: string): seq<string>
    decreases |s|
  {
    if s == [] then []
    else if |s| <= MAX_CHUNK then [s]
    else [s[..MAX_CHUNK]] + Chunks(s[MAX_CHUNK..])
  }

  /** The chunks concatenated in order. */
  function Flatten(cs: seq<string>): string
  {
    if cs == [] then [] else cs[0] + Flatten(cs[1..])
  }

  /** A well-formed split: every run non-empty and at most 2000 long, every run but the last exactly 2000. */
  predicate WellChunked(cs: seq<string>)
  {
    && (forall i :: 0 <= i < |cs| ==> 0 < |cs[i]| <= MAX_CHUNK)
    && (forall i :: 0 <= i < |cs| - 1 ==> |cs[i]| == MAX_CHUNK)
  }

  /** Concatenating the chunks gives back the reply exactly. */
  lemma {:induction false} FlattenChunks(s: string)
    ensures Flatten(Chunks(s)) == s
    decreases |s|
  {
    if |s| > MAX_CHUNK {
      FlattenChunks(s[MAX_CHUNK..]);
      assert s == s[..MAX_CHUNK] + s[MAX_CHUNK..];
    }
  }

  /** The chunks are well formed, and there are ⌈|s| / 2000⌉ of them (none for an empty reply). */
  lemma {:induction false} ChunksShape(s: string)
    ensures WellChunked(Chunks(s))
    ensures |Chunks(s)| == (|s| + MAX_CHUNK - 1) / MAX_CHUNK
    decreases |s|
  {
    if |s| > MAX_CHUNK {
      var rest := s[MAX_CHUNK..];
      ChunksShape(rest);
      var cs := Chunks(s);
      assert cs == [s[..MAX_CHUNK]] + Chunks(rest);
      assert forall i :: 1 <= i < |cs| ==> cs[i] == Chunks(rest)[i - 1];
    }
  }

  /** The split is the only well-formed one: chunking the concatenation of a well-formed split gives that split. */
  lemma {:induction false} ChunksFlatten(cs: seq<string>)
    requires WellChunked(cs)
    ensures Chunks(Flatten(cs)) == cs
    decreases |cs|
  {
    if cs != [] {
      var rest := cs[1..];
      assert WellChunked(rest) by {
        assert forall i :: 0 <= i < |rest| ==> rest[i] == cs[i + 1];
      }
      ChunksFlatten(rest);
      var s := Flatten(cs);
      FlattenLength(rest);
      if |cs| == 1 {
        assert s == cs[0];
      } else {
        assert |cs[0]| == MAX_CHUNK;
        assert |Flatten(rest)| > 0 by { assert |rest[0]| > 0; }
        assert s[..MAX_CHUNK] == cs[0];
        assert s[MAX_CHUNK..] == Flatten(rest);
      }
    }
  }

  lemma {:induction false} FlattenLength(cs: seq<string>)
    requires forall i :: 0 <= i < |cs| ==> 0 < |cs[i]|
    ensures cs != [] ==> |Flatten(cs)| >= |cs[0]|
  {
  }

  /** A 4500-character reply goes out as three messages of 2000, 2000 and 500 characters. */
  lemma ChunksOf4500(s: string)
    requires |s| == 4500
    ensures |Chunks(s)| == 3
    ensures |Chunks(s)[0]| == 2000 && |Chunks(s)[1]| == 2000 && |Chunks(s)[2]| == 500
    ensures Chunks(s) == [s[..2000], s[2000..4000], s[4000..]]
  {
    var r1 := s[2000..];
    var r2 := r1[2000..];
    assert Chunks(r2) == [r2];
    assert Chunks(r1) == [r1[..2000]] + [r2];
    assert r1[..2000] == s[2000..4000];
    assert r2 == s[4000..];
  }

  /**
   * The send loop: post the chunks in order, stopping at the first send the
   * platform rejects; `failAt` is the index of that send, if any.
   */
  method SendChunks(chunks: seq<string>, failAt: Option<nat>) returns (sent: seq<string>, ok: bool)
    ensures ok <==> (failAt.None? || failAt.value >= |chunks|)
    ensures ok ==> sent == chunks
    ensures !ok ==> sent == chunks[..failAt.value]
  {
    sent := [];
    for i := 0 to |chunks|
      invariant sent == chunks[..i]
      invariant failAt.Some? ==> failAt.value >= i
    {
      if failAt == Some(i) {
        return sent, false;
      }
      sent := sent + [chunks[i]];
    }
    assert chunks[..|chunks|] == chunks;
    ok := true;
  }
}
