/**
 * The chunk loop of `uploadVideo`: the file is read sequentially with
 * `fread($handle, $chunkSize)` and each piece is handed to the resumable
 * upload session until the session answers with something other than
 * `false` or `feof` reports the end of the file.
 *
 * On a plain file PHP's `fread` keeps reading until it has the requested
 * length or a read returns nothing, and only a read that returns nothing
 * raises the end-of-file flag. So `feof` turns true exactly after an
 * `fread` that returned fewer bytes than requested, and a file whose length
 * is a multiple of the chunk size is followed by one empty chunk.
 */
module ChunkedUpload {
  import opened VideoResource

  type Chunk = seq<bv8>

  /** `$chunkSize = 1 * 1024 * 1024`. */
  const ChunkSize: nat := 1 * 1024 * 1024

  /**
   * What `$media->nextChunk($chunk)` does: answer `false` (more wanted),
   * answer the finished video, or throw.
   */
  datatype ChunkReply = NotDone | Done(video: RemoteVideo) | Raised(message: string)

  /**
   * The upload session, seen from the loop: its reply to the latest chunk,
   * given every chunk submitted so far (the latest one last).
   */
  type Session = seq<Chunk> -> ChunkReply

  /** All chunks, in order, concatenated. */
  function Flatten(cs: seq<Chunk>): seq<bv8>
    decreases |cs|
  {
    if |cs| == 0 then [] else cs[0] + Flatten(cs[1..])
  }

  lemma {:induction false} FlattenAppend(a: seq<Chunk>, b: seq<Chunk>)
    ensures Flatten(a + b) == Flatten(a) + Flatten(b)
    decreases |a|
  {
    if |a| > 0 {
      assert (a + b)[1..] == a[1..] + b;
      FlattenAppend(a[1..], b);
    } else {
      assert a + b == b;
    }
  }

  /** The chunks successive `fread` calls return from position `pos` up to end of file. */
  function ReadFrom(file: seq<bv8>, pos: nat): (cs: seq<Chunk>)
    requires pos <= |file|
    ensures |cs| >= 1
    decreases |file| - pos
  {
    if |file| - pos < ChunkSize then [file[pos..]]
    else [file[pos..pos + ChunkSize]] + ReadFrom(file, pos + ChunkSize)
  }

  /** The chunks the file is read in when the session never finishes early. */
  function ReadChunks(file: seq<bv8>): (cs: seq<Chunk>)
    ensures |cs| >= 1
  {
    ReadFrom(file, 0)
  }

  /**
   * Reading from `pos` yields chunks of at most the chunk size, all but the
   * last one full and the last one short, which together are the rest of
   * the file.
   */
  lemma {:induction false} ReadFromShape(file: seq<bv8>, pos: nat)
    requires pos <= |file|
    ensures var cs := ReadFrom(file, pos);
      && (forall k :: 0 <= k < |cs| - 1 ==> |cs[k]| == ChunkSize)
      && |cs[|cs| - 1]| < ChunkSize
      && Flatten(cs) == file[pos..]
    decreases |file| - pos
  {
    var cs := ReadFrom(file, pos);
    if |file| - pos >= ChunkSize {
      var rest := ReadFrom(file, pos + ChunkSize);
      ReadFromShape(file, pos + ChunkSize);
      assert cs == [file[pos..pos + ChunkSize]] + rest;
      assert cs[1..] == rest;
      assert file[pos..] == file[pos..pos + ChunkSize] + file[pos + ChunkSize..];
    } else {
      assert Flatten(cs) == file[pos..] + Flatten([]);
    }
  }

  /** The chunks of a whole file are bounded, full but for the last, and cover the file. */
  lemma ReadChunksShape(file: seq<bv8>)
    ensures var cs := ReadChunks(file);
      && (forall k :: 0 <= k < |cs| ==> |cs[k]| <= ChunkSize)
      && (forall k :: 0 <= k < |cs| - 1 ==> |cs[k]| == ChunkSize)
      && Flatten(cs) == file
  {
    ReadFromShape(file, 0);
    assert file[0..] == file;
  }

  /** Every chunk of `sent` is at most the chunk size. */
  predicate WithinChunkSize(sent: seq<Chunk>) {
    forall k :: 0 <= k < |sent| ==> |sent[k]| <= ChunkSize
  }

  /** The session answered `false` to every chunk of `sent` but possibly the last. */
  predicate EarlierAnswersFalse(next: Session, sent: seq<Chunk>) {
    forall k :: 1 <= k < |sent| ==> next(sent[..k]).NotDone?
  }

  /**
   * `sent` is what the loop can have submitted: a non-empty prefix of the
   * file's chunks, every chunk before the last answered with `false`, and
   * either the last answered with something else or the file exhausted.
   */
  predicate IsLoopRun(file: seq<bv8>, next: Session, sent: seq<Chunk>) {
    var cs := ReadChunks(file);
    && 1 <= |sent| <= |cs|
    && sent == cs[..|sent|]
    && EarlierAnswersFalse(next, sent)
    && (|sent| == |cs| || !next(sent).NotDone?)
  }

  /** The chunks submitted when the first `n` of `cs` have been and more may follow. */
  function SentFrom(cs: seq<Chunk>, next: Session, n: nat): seq<Chunk>
    requires 1 <= n <= |cs|
    decreases |cs| - n
  {
    if n == |cs| || !next(cs[..n]).NotDone? then cs[..n] else SentFrom(cs, next, n + 1)
  }

  /** The chunks the loop submits to the session `next` while uploading `file`. */
  function Sent(file: seq<bv8>, next: Session): seq<Chunk> {
    SentFrom(ReadChunks(file), next, 1)
  }

  lemma {:induction false} SentFromIsLoopRun(file: seq<bv8>, next: Session, n: nat)
    requires 1 <= n <= |ReadChunks(file)|
    requires forall k :: 1 <= k < n ==> next(ReadChunks(file)[..k]).NotDone?
    ensures IsLoopRun(file, next, SentFrom(ReadChunks(file), next, n))
    decreases |ReadChunks(file)| - n
  {
    var cs := ReadChunks(file);
    if n == |cs| || !next(cs[..n]).NotDone? {
      var sent := cs[..n];
      forall k | 1 <= k < |sent| ensures next(sent[..k]).NotDone? {
        assert sent[..k] == cs[..k];
      }
    } else {
      SentFromIsLoopRun(file, next, n + 1);
    }
  }

  /** The submitted chunks form a run of the loop. */
  lemma SentIsLoopRun(file: seq<bv8>, next: Session)
    ensures IsLoopRun(file, next, Sent(file, next))
  {
    SentFromIsLoopRun(file, next, 1);
  }

  lemma {:induction false} SentFromOfRun(file: seq<bv8>, next: Session, sent: seq<Chunk>, n: nat)
    requires IsLoopRun(file, next, sent)
    requires 1 <= n <= |sent|
    ensures SentFrom(ReadChunks(file), next, n) == sent
    decreases |sent| - n
  {
    var cs := ReadChunks(file);
    assert cs[..n] == sent[..n];
    if n < |sent| {
      SentFromOfRun(file, next, sent, n + 1);
    }
  }

  /** A run of the loop is determined by the file and the session: it is `Sent`. */
  lemma LoopRunIsSent(file: seq<bv8>, next: Session, sent: seq<Chunk>)
    requires IsLoopRun(file, next, sent)
    ensures sent == Sent(file, next)
  {
    SentFromOfRun(file, next, sent, 1);
  }

  /**
   * What a run promises of the chunks it submitted: each at most 1 MiB,
   * all but the last exactly 1 MiB, together a prefix of the file in order,
   * and the whole file when the session never answered with anything but
   * `false`.
   */
  lemma LoopRunFacts(file: seq<bv8>, next: Session, sent: seq<Chunk>)
    requires IsLoopRun(file, next, sent)
    ensures forall k :: 0 <= k < |sent| ==> |sent[k]| <= ChunkSize
    ensures forall k :: 0 <= k < |sent| - 1 ==> |sent[k]| == ChunkSize
    ensures Flatten(sent) <= file
    ensures next(sent).NotDone? ==> Flatten(sent) == file
  {
    var cs := ReadChunks(file);
    ReadChunksShape(file);
    assert cs == sent + cs[|sent|..];
    FlattenAppend(sent, cs[|sent|..]);
  }

  /**
   * A file of exactly one chunk is submitted in one piece when the session
   * finishes on it.
   */
  lemma OneChunkFile(file: seq<bv8>, next: Session)
    requires |file| == ChunkSize && !next([file]).NotDone?
    ensures Sent(file, next) == [file]
  {
    assert file[ChunkSize..] == [];
    assert ReadFrom(file, ChunkSize) == [[]];
    assert file[0..ChunkSize] == file;
    assert ReadChunks(file) == [file, []];
    assert ReadChunks(file)[..1] == [file];
  }

  /** One `fread`: the next chunk, then either end of file or the chunks after it. */
  lemma ReadStep(file: seq<bv8>, pos: nat, n: nat)
    requires pos <= |file|
    requires n == if |file| - pos < ChunkSize then |file| - pos else ChunkSize
    ensures n < ChunkSize ==> ReadFrom(file, pos) == [file[pos..pos + n]]
    ensures n == ChunkSize ==> ReadFrom(file, pos) == [file[pos..pos + n]] + ReadFrom(file, pos + n)
  {
    if n < ChunkSize {
      assert file[pos..pos + n] == file[pos..];
    }
  }

  /** Appending a chunk after one answered with `false` keeps every earlier answer `false`. */
  lemma AnsweredPrefix(next: Session, before: seq<Chunk>, chunk: Chunk)
    requires EarlierAnswersFalse(next, before)
    requires before != [] ==> next(before).NotDone?
    ensures EarlierAnswersFalse(next, before + [chunk])
  {
    var sent := before + [chunk];
    forall k | 1 <= k < |sent| ensures next(sent[..k]).NotDone? {
      if k < |before| {
        assert sent[..k] == before[..k];
      } else {
        assert sent[..k] == before;
      }
    }
  }

  /** Where the loop stops, its submissions form the run of the loop. */
  lemma LoopExit(file: seq<bv8>, next: Session, status: ChunkReply, sent: seq<Chunk>, pos: nat, eof: bool)
    requires pos <= |file|
    requires !eof ==> ReadChunks(file) == sent + ReadFrom(file, pos)
    requires eof ==> sent == ReadChunks(file)
    requires sent == [] ==> !eof && status == NotDone
    requires sent != [] ==> status == next(sent)
    requires EarlierAnswersFalse(next, sent)
    requires !status.NotDone? || eof
    ensures IsLoopRun(file, next, sent) && sent == Sent(file, next)
    ensures WithinChunkSize(sent)
    ensures Flatten(sent) <= file
    ensures next(sent).NotDone? ==> Flatten(sent) == file
  {
    assert ReadChunks(file)[..|sent|] == sent;
    LoopRunIsSent(file, next, sent);
    LoopRunFacts(file, next, sent);
  }

  /**
   * The loop `while (!$status && !feof($handle))`: read at most a chunk,
   * submit it, keep the session's answer. It stops at the first answer that
   * is not `false` (a thrown exception among them) or at end of file.
   */
  method ChunkLoop(file: seq<bv8>, next: Session) returns (status: ChunkReply, sent: seq<Chunk>)
    ensures IsLoopRun(file, next, sent)
    ensures status == next(sent)
    ensures sent == Sent(file, next)
    ensures WithinChunkSize(sent)
    ensures Flatten(sent) <= file
    ensures status.NotDone? ==> Flatten(sent) == file
  {
    status := NotDone;
    sent := [];
    var pos: nat := 0;
    var eof := false;
    while status.NotDone? && !eof
      invariant pos <= |file|
      invariant !eof ==> ReadChunks(file) == sent + ReadFrom(file, pos)
      invariant eof ==> sent == ReadChunks(file)
      invariant sent == [] ==> !eof && status == NotDone
      invariant sent != [] ==> status == next(sent)
      invariant EarlierAnswersFalse(next, sent)
      decreases |file| - pos, !eof
    {
      var n := if |file| - pos < ChunkSize then |file| - pos else ChunkSize;
      var chunk := file[pos..pos + n];
      ReadStep(file, pos, n);
      AnsweredPrefix(next, sent, chunk);
      if n == ChunkSize {
        assert sent + ReadFrom(file, pos) == (sent + [chunk]) + ReadFrom(file, pos + n);
      }
      eof := n < ChunkSize;
      pos := pos + n;
      sent := sent + [chunk];
      status := next(sent);
    }
    LoopExit(file, next, status, sent, pos, eof);
  }
}
