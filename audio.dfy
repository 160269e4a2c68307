/** The two buffers of the audio path (src/audio.rs): the reader that hands
    the stream's byte chunks to the decoder, and the sample buffer that is cut
    into fixed-size chunks for resampling and SAME decoding. */
module Audio {
  import opened Wrappers
  import opened Text

  type Byte = bv8

  /** The decoder's byte source: the chunk currently being read, the read
      position in it, and the chunks still waiting in the channel. Once the
      waiting chunks are gone the sending side has finished and the channel
      reports that it is closed. */
  class ChannelReader {
    var pending: seq<seq<Byte>>
    var buffer: seq<Byte>
    var pos: nat
    /** Everything the channel delivers over the reader's life. */
    ghost const total: seq<Byte>
    /** The bytes taken out of the channel so far. */
    ghost var received: seq<Byte>
    /** The bytes handed to the decoder so far. */
    ghost var consumed: seq<Byte>

    ghost predicate Valid()
      reads this
    {
      pos <= |buffer|
      && received == consumed + buffer[pos..]
      && total == received + Concat(pending)
    }

    constructor (chunks: seq<seq<Byte>>)
      ensures Valid()
      ensures pending == chunks && buffer == [] && pos == 0
      ensures total == Concat(chunks) && consumed == []
    {
      pending := chunks;
      buffer := [];
      pos := 0;
      total := Concat(chunks);
      received := [];
      consumed := [];
    }

    /** Copies the next bytes into the front of `buf` and says how many. When
        the current chunk is used up the next one is taken first; when the
        channel is closed nothing is copied. */
    method Read(buf: array<Byte>) returns (n: nat)
      requires Valid()
      modifies this, buf
      ensures Valid()
      ensures n <= buf.Length
      ensures consumed == old(consumed) + buf[..n] && consumed <= total
      ensures buf[n..] == old(buf[n..])
      ensures old(pos) < |old(buffer)| ==>
                buffer == old(buffer) && pending == old(pending)
                && n == Min(|buffer| - old(pos), buf.Length) && pos == old(pos) + n
                && buf[..n] == buffer[old(pos)..pos]
      ensures old(pos) >= |old(buffer)| && old(pending) == [] ==>
                n == 0 && buffer == old(buffer) && pos == old(pos) && pending == []
      ensures old(pos) >= |old(buffer)| && old(pending) != [] ==>
                buffer == old(pending)[0] && pending == old(pending)[1..]
                && n == Min(|buffer|, buf.Length) && pos == n && buf[..n] == buffer[..n]
    {
      if pos >= |buffer| {
        if pending == [] {
          return 0;
        }
        TakeNext();
      }
      var start := pos;
      n := Min(|buffer| - start, buf.Length);
      CopyInto(buf, buffer, start, n);
      pos := start + n;
      assert buffer[start..] == buffer[start..pos] + buffer[pos..];
      consumed := consumed + buf[..n];
    }

    /** Takes the next chunk out of the channel once the current one is read. */
    method TakeNext()
      requires Valid() && pos >= |buffer| && pending != []
      modifies this
      ensures Valid() && consumed == old(consumed)
      ensures buffer == old(pending)[0] && pending == old(pending)[1..] && pos == 0
    {
      assert Concat(pending) == pending[0] + Concat(pending[1..]);
      buffer := pending[0];
      pending := pending[1..];
      pos := 0;
      received := received + buffer;
    }
  }

  /** copy_from_slice: the first `n` slots of `buf` receive `chunk[start..start + n]`. */
  method CopyInto(buf: array<Byte>, chunk: seq<Byte>, start: nat, n: nat)
    requires n <= buf.Length && start + n <= |chunk|
    modifies buf
    ensures buf[..n] == chunk[start..start + n]
    ensures buf[n..] == old(buf[n..])
  {
    var j := 0;
    while j < n
      invariant 0 <= j <= n
      invariant buf[..j] == chunk[start..start + j]
      invariant buf[n..] == old(buf[n..])
    {
      buf[j] := chunk[start + j];
      j := j + 1;
    }
  }

  function Min(a: int, b: int): (m: int)
    ensures m <= a && m <= b && (m == a || m == b)
  {
    if a <= b then a else b
  }

  // ---------------------------------------------------------- sample chunks

  /** The block size the resampler is built for. */
  const CHUNK_SIZE: nat := 2048

  /** The samples a packet contributes: none when it failed to decode. */
  function PacketSamples<T>(packet: Option<seq<T>>): seq<T> {
    if packet.Some? then packet.value else []
  }

  /** The samples of the packets that decoded, in order. */
  function DecodedSamples<T>(packets: seq<Option<seq<T>>>): seq<T> {
    if packets == [] then []
    else DecodedSamples(packets[..|packets| - 1]) + PacketSamples(packets[|packets| - 1])
  }

  lemma DecodedStep<T>(packets: seq<Option<seq<T>>>, p: nat)
    requires p < |packets|
    ensures DecodedSamples(packets[..p + 1]) == DecodedSamples(packets[..p]) + PacketSamples(packets[p])
  {
    assert packets[..p + 1][..p] == packets[..p];
  }

  /** Whole chunks are cut off the front of the buffer while one fits. */
  method DrainChunks<T>(audioBuffer: seq<T>) returns (chunks: seq<seq<T>>, rest: seq<T>)
    ensures Concat(chunks) + rest == audioBuffer
    ensures |rest| < CHUNK_SIZE
    ensures forall i :: 0 <= i < |chunks| ==> |chunks[i]| == CHUNK_SIZE
  {
    chunks := [];
    rest := audioBuffer;
    while |rest| >= CHUNK_SIZE
      invariant Concat(chunks) + rest == audioBuffer
      invariant forall i :: 0 <= i < |chunks| ==> |chunks[i]| == CHUNK_SIZE
      decreases |rest|
    {
      var chunk := rest[..CHUNK_SIZE];
      ConcatAppend(chunks, [chunk]);
      assert Concat([chunk]) == chunk;
      assert rest == chunk + rest[CHUNK_SIZE..];
      rest := rest[CHUNK_SIZE..];
      chunks := chunks + [chunk];
    }
  }

  /** Chunks of one size, concatenated, have that size times their number. */
  lemma {:induction false} UniformLength<T>(chunks: seq<seq<T>>, size: nat)
    requires forall i :: 0 <= i < |chunks| ==> |chunks[i]| == size
    ensures |Concat(chunks)| == size * |chunks|
  {
    if chunks != [] {
      UniformLength(chunks[1..], size);
    }
  }

  /** Chunks of one size are the consecutive slices of their concatenation. */
  lemma {:induction false} UniformSlices<T>(chunks: seq<seq<T>>, size: nat, i: nat)
    requires forall k :: 0 <= k < |chunks| ==> |chunks[k]| == size
    requires i < |chunks|
    ensures size * (i + 1) <= |Concat(chunks)|
    ensures chunks[i] == Concat(chunks)[size * i..size * (i + 1)]
  {
    UniformLength(chunks[1..], size);
    var c := Concat(chunks);
    assert c == chunks[0] + Concat(chunks[1..]);
    if i == 0 {
      assert c[..size] == chunks[0];
    } else {
      UniformSlices(chunks[1..], size, i - 1);
      assert c[size * i..size * (i + 1)] == Concat(chunks[1..])[size * (i - 1)..size * i];
    }
  }

  /** One decoded packet: its samples are appended to the buffer and every
      whole chunk now at the front is processed and drained. */
  method Feed<T>(processed: seq<seq<T>>, audioBuffer: seq<T>, decoded: seq<T>)
    returns (processed': seq<seq<T>>, audioBuffer': seq<T>)
    requires forall i :: 0 <= i < |processed| ==> |processed[i]| == CHUNK_SIZE
    ensures Concat(processed') + audioBuffer' == Concat(processed) + audioBuffer + decoded
    ensures |audioBuffer'| < CHUNK_SIZE
    ensures forall i :: 0 <= i < |processed'| ==> |processed'[i]| == CHUNK_SIZE
  {
    var chunks, rest := DrainChunks(audioBuffer + decoded);
    ConcatAppend(processed, chunks);
    assert Concat(processed + chunks) + rest == Concat(processed) + (Concat(chunks) + rest);
    processed' := processed + chunks;
    audioBuffer' := rest;
  }

  /** The decode loop: every decoded packet is appended to the buffer and
      whole chunks are processed and drained, so that the processed chunks
      are the consecutive 2048-sample slices of everything decoded and fewer
      than 2048 samples stay behind. */
  method ProcessStream<T>(packets: seq<Option<seq<T>>>) returns (processed: seq<seq<T>>, audioBuffer: seq<T>)
    ensures Concat(processed) + audioBuffer == DecodedSamples(packets)
    ensures |audioBuffer| < CHUNK_SIZE
    ensures |processed| == |DecodedSamples(packets)| / CHUNK_SIZE
    ensures forall i :: 0 <= i < |processed| ==>
              CHUNK_SIZE * (i + 1) <= |DecodedSamples(packets)|
              && processed[i] == DecodedSamples(packets)[CHUNK_SIZE * i..CHUNK_SIZE * (i + 1)]
  {
    processed := [];
    audioBuffer := [];
    var p := 0;
    while p < |packets|
      invariant 0 <= p <= |packets|
      invariant Concat(processed) + audioBuffer == DecodedSamples(packets[..p])
      invariant |audioBuffer| < CHUNK_SIZE
      invariant forall i :: 0 <= i < |processed| ==> |processed[i]| == CHUNK_SIZE
    {
      DecodedStep(packets, p);
      var decoded := PacketSamples(packets[p]);
      p := p + 1;
      if decoded == [] {
        assert DecodedSamples(packets[..p]) == DecodedSamples(packets[..p - 1]) + [];
        continue;
      }
      processed, audioBuffer := Feed(processed, audioBuffer, decoded);
    }
    assert packets[..p] == packets;
    ChunkLayout(processed, audioBuffer, DecodedSamples(packets));
  }

  /** Whole chunks followed by less than a chunk: the chunks are the
      consecutive slices of the whole, as many as fit. */
  lemma ChunkLayout<T>(chunks: seq<seq<T>>, rest: seq<T>, all: seq<T>)
    requires Concat(chunks) + rest == all && |rest| < CHUNK_SIZE
    requires forall i :: 0 <= i < |chunks| ==> |chunks[i]| == CHUNK_SIZE
    ensures |chunks| == |all| / CHUNK_SIZE
    ensures forall i :: 0 <= i < |chunks| ==>
              CHUNK_SIZE * (i + 1) <= |all| && chunks[i] == all[CHUNK_SIZE * i..CHUNK_SIZE * (i + 1)]
  {
    UniformLength(chunks, CHUNK_SIZE);
    assert |all| == CHUNK_SIZE * |chunks| + |rest|;
    forall i | 0 <= i < |chunks|
      ensures CHUNK_SIZE * (i + 1) <= |all| && chunks[i] == all[CHUNK_SIZE * i..CHUNK_SIZE * (i + 1)]
    {
      UniformSlices(chunks, CHUNK_SIZE, i);
      assert all[..|Concat(chunks)|] == Concat(chunks);
    }
  }

  /** The purge time attached to a decoded header, in whole seconds: a
      negative valid duration counts as zero. */
  function PurgeSeconds(validDuration: int): (r: nat)
    ensures r >= validDuration
    ensures validDuration >= 0 ==> r == validDuration
    ensures validDuration < 0 ==> r == 0
  {
    if validDuration > 0 then validDuration else 0
  }
}
