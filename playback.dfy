/** The integer side of playing a burst of audio chunks: the decoded 16-bit
    chunks are laid end to end in one buffer before playback starts. */
module Playback {

  newtype Int16 = x: int | -0x8000 <= x < 0x8000

  /** Sum of the chunk lengths. */
  function TotalLength(chunks: seq<seq<Int16>>): nat {
    if chunks == [] then 0 else TotalLength(chunks[..|chunks| - 1]) + |chunks[|chunks| - 1]|
  }

  /** The chunks one after the other. */
  function Concat(chunks: seq<seq<Int16>>): (r: seq<Int16>)
    ensures |r| == TotalLength(chunks)
  {
    if chunks == [] then [] else Concat(chunks[..|chunks| - 1]) + chunks[|chunks| - 1]
  }

  /** Sample i of chunk k sits at the sum of the lengths of the chunks before k,
      plus i. */
  lemma {:induction false} ChunkPlacement(chunks: seq<seq<Int16>>, k: nat, i: nat)
    requires k < |chunks| && i < |chunks[k]|
    ensures TotalLength(chunks[..k]) + i < |Concat(chunks)|
    ensures Concat(chunks)[TotalLength(chunks[..k]) + i] == chunks[k][i]
  {
    var n := |chunks| - 1;
    var init := chunks[..n];
    if k == n {
      assert chunks[..k] == init;
    } else {
      ChunkPlacement(init, k, i);
      assert init[..k] == chunks[..k];
      assert init[k] == chunks[k];
    }
  }

  /** `arrays.forEach(a => total += a.length)`. */
  method SumLengths(chunks: seq<seq<Int16>>) returns (total: nat)
    ensures total == TotalLength(chunks)
    ensures total == |Concat(chunks)|
  {
    total := 0;
    for k := 0 to |chunks|
      invariant total == TotalLength(chunks[..k])
    {
      assert chunks[..k + 1][..k] == chunks[..k];
      total := total + |chunks[k]|;
    }
    assert chunks[..|chunks|] == chunks;
  }

  /** The inner loop: chunk `a` is copied into `dest` from `offset` on;
      everything else is left as it was. */
  method CopyAt(dest: array<Int16>, offset: nat, a: seq<Int16>)
    requires offset + |a| <= dest.Length
    modifies dest
    ensures dest[..offset] == old(dest[..offset])
    ensures dest[offset..offset + |a|] == a
    ensures dest[offset + |a|..] == old(dest[offset + |a|..])
  {
    for i := 0 to |a|
      invariant dest[..offset] == old(dest[..offset])
      invariant dest[offset..offset + i] == a[..i]
      invariant dest[offset + |a|..] == old(dest[offset + |a|..])
    {
      dest[offset + i] := a[i];
      assert dest[offset..offset + i + 1] == dest[offset..offset + i] + [a[i]];
    }
  }

  /** The copy loops of playPcmBase64Chunks: the total length is summed, a
      buffer of that length is allocated, and each chunk is copied in at the
      running offset. */
  method CombineChunks(chunks: seq<seq<Int16>>) returns (combined: array<Int16>)
    ensures combined.Length == TotalLength(chunks)
    ensures combined[..] == Concat(chunks)
  {
    var total := SumLengths(chunks);
    combined := new Int16[total];
    var offset := 0;
    for k := 0 to |chunks|
      invariant offset == TotalLength(chunks[..k]) && offset <= combined.Length
      invariant combined[..offset] == Concat(chunks[..k])
    {
      assert chunks[..k + 1][..k] == chunks[..k];
      TotalLengthPrefix(chunks, k + 1);
      CopyAt(combined, offset, chunks[k]);
      assert combined[..offset + |chunks[k]|] == combined[..offset] + combined[offset..offset + |chunks[k]|];
      offset := offset + |chunks[k]|;
    }
    assert chunks[..|chunks|] == chunks;
    assert combined[..] == combined[..offset];
  }

  /** The running offset never passes the total. */
  lemma {:induction false} TotalLengthPrefix(chunks: seq<seq<Int16>>, k: nat)
    requires k <= |chunks|
    ensures TotalLength(chunks[..k]) <= TotalLength(chunks)
  {
    if k < |chunks| {
      var n := |chunks| - 1;
      assert chunks[..n][..k] == chunks[..k];
      TotalLengthPrefix(chunks[..n], k);
    } else {
      assert chunks[..k] == chunks;
    }
  }
}
