/**
 The three loops that read a child's output into a bounded buffer, for every way in which the
 stream arrives in chunks.
 */
module Drains {

  type Byte = bv8

  /** Everything that arrives in the first `n` reads. */
  function Joined(chunks: seq<seq<Byte>>, n: nat): seq<Byte>
    requires n <= |chunks|
  {
    if n == 0 then [] else Joined(chunks, n - 1) + chunks[n - 1]
  }

  function LastBytes(s: seq<Byte>, limit: nat): seq<Byte> {
    if |s| <= limit then s else s[|s| - limit..]
  }

  function FirstBytes(s: seq<Byte>, limit: nat): seq<Byte> {
    if |s| <= limit then s else s[..limit]
  }

  /** Trimming after each chunk loses nothing that the last `limit` bytes need. */
  lemma TrimmingCommutes(s: seq<Byte>, t: seq<Byte>, limit: nat)
    ensures LastBytes(LastBytes(s, limit) + t, limit) == LastBytes(s + t, limit)
    ensures |LastBytes(s, limit) + t| > limit || |s| > limit <==> |s + t| > limit
  {
  }

  /** `execute.drain`: the buffer ends as the last `maximum` bytes of the stream. */
  method DrainTail(chunks: seq<seq<Byte>>, maximum: nat) returns (target: seq<Byte>)
    ensures target == LastBytes(Joined(chunks, |chunks|), maximum)
  {
    target := [];
    for i := 0 to |chunks|
      invariant target == LastBytes(Joined(chunks, i), maximum)
    {
      TrimmingCommutes(Joined(chunks, i), chunks[i], maximum);
      target := target + chunks[i];
      var overflow := |target| - maximum;
      if overflow > 0 {
        target := target[overflow..];
      }
    }
  }

  /** The publisher's `drain`: the same buffer, and a flag for any stream beyond the limit. */
  method DrainTailFlagged(chunks: seq<seq<Byte>>, limit: nat) returns (target: seq<Byte>, overflowed: bool)
    ensures target == LastBytes(Joined(chunks, |chunks|), limit)
    ensures overflowed <==> |Joined(chunks, |chunks|)| > limit
  {
    target, overflowed := [], false;
    for i := 0 to |chunks|
      invariant target == LastBytes(Joined(chunks, i), limit)
      invariant overflowed <==> |Joined(chunks, i)| > limit
    {
      TrimmingCommutes(Joined(chunks, i), chunks[i], limit);
      target := target + chunks[i];
      var overflow := |target| - limit;
      if overflow > 0 {
        overflowed := true;
        target := target[overflow..];
      }
    }
  }

  /** `_bounded_git_output.drain`: stops reading at the chunk that passes the limit. */
  method DrainHead(chunks: seq<seq<Byte>>, maximum: nat) returns (output: seq<Byte>, overflowed: bool, read: nat)
    ensures read <= |chunks|
    ensures output == FirstBytes(Joined(chunks, read), maximum + 1)
    ensures overflowed <==> |Joined(chunks, |chunks|)| > maximum
    ensures !overflowed ==> output == Joined(chunks, |chunks|)
    ensures overflowed ==> read > 0 && |Joined(chunks, read - 1)| <= maximum < |Joined(chunks, read)|
  {
    output, overflowed, read := [], false, 0;
    while read < |chunks|
      invariant read <= |chunks|
      invariant output == Joined(chunks, read) && |output| <= maximum
      invariant !overflowed
    {
      var chunk := chunks[read];
      var remaining := maximum + 1 - |output|;
      read := read + 1;
      if remaining > 0 {
        output := output + if |chunk| <= remaining then chunk else chunk[..remaining];
      }
      if |output| > maximum || |chunk| > remaining {
        JoinedGrows(chunks, read, |chunks|);
        overflowed := true;
        break;
      }
    }
  }

  lemma {:induction false} JoinedGrows(chunks: seq<seq<Byte>>, m: nat, n: nat)
    requires m <= n <= |chunks|
    ensures |Joined(chunks, m)| <= |Joined(chunks, n)|
  {
    if m < n {
      JoinedGrows(chunks, m, n - 1);
    }
  }
}
