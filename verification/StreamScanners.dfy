/** The two byte scanners: the detach-key scanner of src/tui/attach.ts and the frame reader of
    the bridge worker in src/cli/bridge.ts. Both receive their input in arbitrary chunks. */
module StreamScanners {
  import opened Wrappers

  type Byte = b: int | 0 <= b < 256

  const DASHBOARD_BYTE: Byte := 0x11
  const UPPER_D: Byte := 0x44
  const NEWLINE: Byte := 0x0a
  const MAX_FRAME_BYTES: nat := 128 * 1024

  function Flatten(chunks: seq<seq<Byte>>): seq<Byte> {
    if chunks == [] then [] else Flatten(chunks[..|chunks| - 1]) + chunks[|chunks| - 1]
  }

  // ---------------------------------------------------------------- the key scanner

  datatype Keys = Keys(escape: Byte, prefix: Byte, command: Byte)

  /** A held prefix byte, whether the session was ended, and the bytes sent to the terminal. */
  datatype Scan = Scan(pending: bool, ended: bool, sent: seq<Byte>)

  function ScanByte(keys: Keys, s: Scan, b: Byte): Scan {
    if s.ended then s
    else if b == DASHBOARD_BYTE || b == keys.escape then s.(ended := true)
    else if s.pending && (b == keys.command || b == UPPER_D) then s.(pending := false, ended := true)
    else
      var sent := if s.pending then s.sent + [keys.prefix] else s.sent;
      if b == keys.prefix then s.(pending := true, sent := sent)
      else s.(pending := false, sent := sent + [b])
  }

  function ScanAll(keys: Keys, s: Scan, input: seq<Byte>): Scan {
    if input == [] then s
    else ScanByte(keys, ScanAll(keys, s, input[..|input| - 1]), input[|input| - 1])
  }

  /** One chunk: the rest of a chunk after a detach is dropped, whatever an earlier chunk did. */
  function ScanChunk(keys: Keys, s: Scan, chunk: seq<Byte>): Scan {
    var t := ScanAll(keys, s.(ended := false), chunk);
    t.(ended := s.ended || t.ended)
  }

  /** The scanner of an attached session; a read-only session sends nothing. */
  class KeyScanner {
    const keys: Keys
    const readOnly: bool
    var pending: bool
    var ended: bool
    var sent: seq<Byte>

    constructor (keys: Keys, readOnly: bool)
      ensures this.keys == keys && this.readOnly == readOnly
      ensures !pending && !ended && sent == []
    {
      this.keys, this.readOnly := keys, readOnly;
      pending, ended, sent := false, false, [];
    }

    /** One chunk of input: bytes to forward are collected and sent together, either before the
        session is ended by a key or after the last byte. The scanner itself does not look
        whether an earlier chunk has ended the session. */
    method OnData(input: seq<Byte>)
      modifies this
      ensures var s := ScanChunk(keys, Scan(old(pending), old(ended), old(sent)), input);
        && pending == s.pending && ended == s.ended
        && sent == if readOnly then old(sent) else s.sent
    {
      var forwarded: seq<Byte> := [];
      ghost var start := Scan(pending, false, sent);
      for n := 0 to |input|
        invariant ended == old(ended) && sent == old(sent)
        invariant ScanAll(keys, start, input[..n]) == Scan(pending, false, sent + forwarded)
      {
        var b := input[n];
        assert input[..n + 1][..n] == input[..n];
        ghost var before := ScanAll(keys, start, input[..n]);
        if b == DASHBOARD_BYTE || b == keys.escape {
          EndedScansStay(keys, start, input, n + 1);
          if !readOnly {
            sent := sent + forwarded;
          }
          ended := true;
          return;
        }
        if pending {
          pending := false;
          if b == keys.command || b == UPPER_D {
            EndedScansStay(keys, start, input, n + 1);
            if !readOnly {
              sent := sent + forwarded;
            }
            ended := true;
            return;
          }
          forwarded := forwarded + [keys.prefix];
        }
        if b == keys.prefix {
          pending := true;
        } else {
          forwarded := forwarded + [b];
        }
        assert ScanByte(keys, before, b).sent == sent + forwarded;
      }
      assert input[..|input|] == input;
      if !readOnly {
        sent := sent + forwarded;
      }
    }
  }

  /** Once the session is ended, further bytes change nothing. */
  lemma {:induction false} EndedScansStay(keys: Keys, s: Scan, input: seq<Byte>, n: nat)
    requires n <= |input| && ScanAll(keys, s, input[..n]).ended
    ensures ScanAll(keys, s, input) == ScanAll(keys, s, input[..n])
  {
    if n == |input| {
      assert input[..n] == input;
    } else {
      var m := |input| - 1;
      assert input[..m][..n] == input[..n];
      EndedScansStay(keys, s, input[..m], n);
    }
  }

  /** A session once ended stays so whatever arrives late, and the prefix byte of a detach command is
      used up by it, so that it does not precede a late chunk. */
  lemma EndIsForGood(keys: Keys, s: Scan, chunk: seq<Byte>, b: Byte)
    ensures s.ended ==> ScanChunk(keys, s, chunk).ended
    ensures !s.ended && s.pending && (b == keys.command || b == UPPER_D) && b != keys.escape && b != DASHBOARD_BYTE ==>
      ScanByte(keys, s, b) == Scan(false, true, s.sent)
  {
  }

  lemma {:induction false} ScanAppends(keys: Keys, s: Scan, a: seq<Byte>, b: seq<Byte>)
    ensures ScanAll(keys, s, a + b) == ScanAll(keys, ScanAll(keys, s, a), b)
  {
    if b == [] {
      assert a + b == a;
    } else {
      var m := |b| - 1;
      ScanAppends(keys, s, a, b[..m]);
      assert (a + b)[..|a| + m] == a + b[..m];
    }
  }

  /** Chunk after chunk. */
  function ScanChunks(keys: Keys, s: Scan, chunks: seq<seq<Byte>>): Scan {
    if chunks == [] then s
    else ScanChunk(keys, ScanChunks(keys, s, chunks[..|chunks| - 1]), chunks[|chunks| - 1])
  }

  /** How the input is split makes no difference, for as long as no chunk comes after the one that
      ended the session. */
  lemma {:induction false} ScanIgnoresChunks(keys: Keys, s: Scan, chunks: seq<seq<Byte>>)
    requires forall n | 0 <= n < |chunks| :: !ScanChunks(keys, s, chunks[..n]).ended
    ensures ScanChunks(keys, s, chunks) == ScanAll(keys, s, Flatten(chunks))
  {
    if chunks != [] {
      var m := |chunks| - 1;
      forall n | 0 <= n < m ensures !ScanChunks(keys, s, chunks[..m][..n]).ended {
        assert chunks[..m][..n] == chunks[..n];
      }
      ScanIgnoresChunks(keys, s, chunks[..m]);
      ScanAppends(keys, s, Flatten(chunks[..m]), chunks[m]);
    }
  }

  predicate EndsSession(keys: Keys, pending: bool, b: Byte) {
    b == DASHBOARD_BYTE || b == keys.escape || (pending && (b == keys.command || b == UPPER_D))
  }

  /** The chunk sends nothing: it is empty, it ends the session at once, or it is a prefix byte,
      alone or with a byte after it that ends the session. */
  predicate Silent(keys: Keys, pending: bool, chunk: seq<Byte>) {
    || chunk == []
    || EndsSession(keys, pending, chunk[0])
    || (!pending && chunk[0] == keys.prefix && (|chunk| == 1 || EndsSession(keys, true, chunk[1])))
  }

  lemma {:induction false} SentOnlyGrows(keys: Keys, s: Scan, input: seq<Byte>)
    ensures |s.sent| <= |ScanAll(keys, s, input).sent|
  {
    if input != [] {
      SentOnlyGrows(keys, s, input[..|input| - 1]);
    }
  }

  lemma ScanFirst(keys: Keys, s: Scan, input: seq<Byte>)
    requires input != []
    ensures ScanAll(keys, s, input) == ScanAll(keys, ScanByte(keys, s, input[0]), input[1..])
  {
    ScanAppends(keys, s, [input[0]], input[1..]);
    assert [input[0]] + input[1..] == input;
    assert ScanAll(keys, s, [input[0]]) == ScanByte(keys, s, input[0]) by {
      assert [input[0]][..0] == [];
    }
  }

  lemma {:induction false} EndedScanStops(keys: Keys, s: Scan, input: seq<Byte>)
    requires s.ended
    ensures ScanAll(keys, s, input) == s
  {
    if input != [] {
      EndedScanStops(keys, s, input[..|input| - 1]);
    }
  }

  /** A chunk that is delivered after the session was ended, before its listener is removed, is
      still sent on: nothing of it is sent exactly when the chunk is silent. */
  lemma LateChunkIsSentUnlessSilent(keys: Keys, s: Scan, chunk: seq<Byte>)
    requires s.ended
    ensures ScanChunk(keys, s, chunk).sent == s.sent <==> Silent(keys, s.pending, chunk)
  {
    hide ScanAll;
    var open := s.(ended := false);
    if chunk == [] {
      assert ScanAll(keys, open, []) == open by { EmptyScan(keys, open); }
    } else {
      var one := ScanByte(keys, open, chunk[0]);
      ScanFirst(keys, open, chunk);
      SentOnlyGrows(keys, one, chunk[1..]);
      if one.ended {
        EndedScanStops(keys, one, chunk[1..]);
      } else if |chunk| == 1 {
        EmptyScan(keys, one);
      } else {
        var two := ScanByte(keys, one, chunk[1]);
        ScanFirst(keys, one, chunk[1..]);
        SentOnlyGrows(keys, two, chunk[1..][1..]);
        if two.ended {
          EndedScanStops(keys, two, chunk[1..][1..]);
        }
      }
    }
  }

  lemma EmptyScan(keys: Keys, s: Scan)
    ensures ScanAll(keys, s, []) == s
  {
  }

  /** The byte at `i` ends the session: a single detach key, or a command right after a prefix. */
  predicate Detaches(keys: Keys, input: seq<Byte>, i: nat)
    requires i < |input|
  {
    || input[i] == DASHBOARD_BYTE || input[i] == keys.escape
    || (i > 0 && input[i - 1] == keys.prefix && (input[i] == keys.command || input[i] == UPPER_D))
  }

  predicate PrefixHeld(keys: Keys, input: seq<Byte>) {
    input != [] && input[|input| - 1] == keys.prefix
  }

  /** Without a detach, the bytes sent and the held prefix are exactly the input. */
  lemma {:induction false} ForwardsEverything(keys: Keys, input: seq<Byte>)
    requires forall i | 0 <= i < |input| :: !Detaches(keys, input, i)
    ensures var s := ScanAll(keys, Scan(false, false, []), input);
      && !s.ended && s.pending == PrefixHeld(keys, input)
      && s.sent + (if s.pending then [keys.prefix] else []) == input
  {
    if input != [] {
      var m := |input| - 1;
      forall i | 0 <= i < m ensures !Detaches(keys, input[..m], i) {
        assert !Detaches(keys, input, i);
      }
      ForwardsEverything(keys, input[..m]);
      assert !Detaches(keys, input, m);
    }
  }

  /** With a first detach at `n`, exactly the bytes before it are sent, less a prefix held then. */
  lemma ForwardsUpToDetach(keys: Keys, input: seq<Byte>, n: nat)
    requires n < |input| && Detaches(keys, input, n)
    requires forall i | 0 <= i < n :: !Detaches(keys, input, i)
    ensures var s := ScanAll(keys, Scan(false, false, []), input);
      s.ended && s.sent + (if PrefixHeld(keys, input[..n]) then [keys.prefix] else []) == input[..n]
  {
    forall i | 0 <= i < n ensures !Detaches(keys, input[..n], i) {
      assert !Detaches(keys, input, i);
    }
    ForwardsEverything(keys, input[..n]);
    assert input[..n + 1][..n] == input[..n];
    EndedScansStay(keys, Scan(false, false, []), input, n + 1);
  }

  // ---------------------------------------------------------------- the frame reader

  /** The unfinished frame, the lines handled so far, and whether a line was too long. */
  datatype Reader = Reader(frame: seq<Byte>, handled: seq<seq<Byte>>, failed: bool)

  function ReadByte(r: Reader, b: Byte): Reader {
    if r.failed then r
    else if b == NEWLINE then Reader([], r.handled + [r.frame], false)
    else if |r.frame| + 1 > MAX_FRAME_BYTES then Reader([], r.handled, true)
    else r.(frame := r.frame + [b])
  }

  function ReadAll(r: Reader, input: seq<Byte>): Reader {
    if input == [] then r
    else ReadByte(ReadAll(r, input[..|input| - 1]), input[|input| - 1])
  }

  lemma {:induction false} ReadAppends(r: Reader, a: seq<Byte>, b: seq<Byte>)
    ensures ReadAll(r, a + b) == ReadAll(ReadAll(r, a), b)
  {
    if b == [] {
      assert a + b == a;
    } else {
      var m := |b| - 1;
      ReadAppends(r, a, b[..m]);
      assert (a + b)[..|a| + m] == a + b[..m];
    }
  }

  lemma NothingRead(r: Reader)
    ensures ReadAll(r, []) == r
  {
  }

  lemma ReadNewline(r: Reader, chunk: seq<Byte>, newline: nat)
    requires newline < |chunk| && chunk[newline] == NEWLINE && !ReadAll(r, chunk[..newline]).failed
    ensures ReadAll(r, chunk[..newline + 1]) ==
      Reader([], ReadAll(r, chunk[..newline]).handled + [ReadAll(r, chunk[..newline]).frame], false)
  {
    assert chunk[..newline + 1][..newline] == chunk[..newline];
  }

  /** A stretch without newlines either extends the frame or is too long, as a whole. */
  lemma {:induction false} ReadStretch(r: Reader, piece: seq<Byte>)
    requires !r.failed && NEWLINE !in piece && |r.frame| <= MAX_FRAME_BYTES
    ensures ReadAll(r, piece) ==
      if |r.frame| + |piece| > MAX_FRAME_BYTES then Reader([], r.handled, true) else r.(frame := r.frame + piece)
  {
    if piece == [] {
      assert r.frame + piece == r.frame;
    } else {
      var m := |piece| - 1;
      ReadStretch(r, piece[..m]);
      assert piece[m] in piece;
      assert r.frame + piece == (r.frame + piece[..m]) + [piece[m]];
    }
  }

  lemma {:induction false} FailedReadersStay(r: Reader, input: seq<Byte>)
    requires r.failed
    ensures ReadAll(r, input) == r
  {
    if input != [] {
      FailedReadersStay(r, input[..|input| - 1]);
    }
  }

  /** `indexOf` from an offset; -1 when there is no newline. */
  method IndexOfNewline(chunk: seq<Byte>, offset: nat) returns (index: int)
    requires offset <= |chunk|
    ensures index == -1 ==> NEWLINE !in chunk[offset..]
    ensures index != -1 ==> offset <= index < |chunk| && chunk[index] == NEWLINE && NEWLINE !in chunk[offset..index]
  {
    for k := offset to |chunk|
      invariant NEWLINE !in chunk[offset..k]
    {
      if chunk[k] == NEWLINE {
        return k;
      }
    }
    return -1;
  }

  function Concat(parts: seq<seq<Byte>>): seq<Byte> {
    Flatten(parts)
  }

  lemma NothingFlat()
    ensures Concat([]) == []
  {
  }

  lemma ConcatOneMore(parts: seq<seq<Byte>>, piece: seq<Byte>)
    ensures Concat(parts + [piece]) == Concat(parts) + piece
  {
    assert (parts + [piece])[..|parts|] == parts;
  }

  /** The worker's reader: it keeps the pieces of the unfinished frame and their total length. */
  class FrameReader {
    var parts: seq<seq<Byte>>
    var frameBytes: nat
    var handled: seq<seq<Byte>>
    var failed: bool

    ghost predicate Valid()
      reads this
    {
      frameBytes == |Concat(parts)| && frameBytes <= MAX_FRAME_BYTES && (failed ==> parts == [])
    }

    function Now(): Reader
      reads this
    {
      Reader(Concat(parts), handled, failed)
    }

    constructor ()
      ensures Valid() && Now() == Reader([], [], false)
    {
      parts, frameBytes, handled, failed := [], 0, [], false;
    }

    /** One chunk from standard input; a line over the limit stops the worker. */
    method OnChunk(chunk: seq<Byte>)
      requires Valid() && !failed
      modifies this
      ensures Valid() && Now() == ReadAll(old(Now()), chunk)
    {
      hide ReadAll, ReadByte, Flatten;
      var offset := 0;
      NothingRead(Now());
      ghost var start := Now();
      while offset < |chunk|
        invariant Valid() && !failed && offset <= |chunk|
        invariant Now() == ReadAll(start, chunk[..offset])
      {
        var newline := IndexOfNewline(chunk, offset);
        var end := if newline == -1 then |chunk| else newline;
        var piece := chunk[offset..end];
        ReadStretch(Now(), piece);
        ReadAppends(start, chunk[..offset], piece);
        assert chunk[..offset] + piece == chunk[..end];
        if frameBytes + |piece| > MAX_FRAME_BYTES {
          ReadAppends(start, chunk[..end], chunk[end..]);
          FailedReadersStay(ReadAll(start, chunk[..end]), chunk[end..]);
          assert chunk[..end] + chunk[end..] == chunk;
          NothingFlat();
          parts, frameBytes, failed := [], 0, true;
          return;
        }
        if |piece| > 0 {
          ConcatOneMore(parts, piece);
          parts, frameBytes := parts + [piece], frameBytes + |piece|;
        }
        assert Now() == ReadAll(start, chunk[..end]);
        if newline == -1 {
          assert chunk[..end] == chunk;
          return;
        }
        ReadNewline(start, chunk, newline);
        NothingFlat();
        handled, parts, frameBytes := handled + [Concat(parts)], [], 0;
        offset := newline + 1;
      }
      assert chunk[..offset] == chunk;
    }

    /** The end of input handles an unterminated last line. */
    method OnEnd()
      requires Valid() && !failed
      modifies this
      ensures handled == old(handled) + (if Concat(old(parts)) == [] then [] else [Concat(old(parts))])
    {
      if frameBytes > 0 {
        handled := handled + [Concat(parts)];
      }
    }
  }

  function ReadChunks(r: Reader, chunks: seq<seq<Byte>>): Reader {
    if chunks == [] then r
    else ReadAll(ReadChunks(r, chunks[..|chunks| - 1]), chunks[|chunks| - 1])
  }

  /** How the stream is split makes no difference to the reader. */
  lemma {:induction false} ReadIgnoresChunks(r: Reader, chunks: seq<seq<Byte>>)
    ensures ReadChunks(r, chunks) == ReadAll(r, Flatten(chunks))
  {
    if chunks != [] {
      var m := |chunks| - 1;
      ReadIgnoresChunks(r, chunks[..m]);
      ReadAppends(r, Flatten(chunks[..m]), chunks[m]);
    }
  }

  /** The newline-terminated lines of the input, and what follows the last newline. */
  function Lines(input: seq<Byte>): seq<seq<Byte>> {
    if input == [] then []
    else
      var m := |input| - 1;
      Lines(input[..m]) + (if input[m] == NEWLINE then [Rest(input[..m])] else [])
  }

  function Rest(input: seq<Byte>): seq<Byte> {
    if input == [] then []
    else
      var m := |input| - 1;
      if input[m] == NEWLINE then [] else Rest(input[..m]) + [input[m]]
  }

  /** The number of leading lines within the limit. */
  function ShortLines(lines: seq<seq<Byte>>): (n: nat)
    ensures n <= |lines|
    ensures forall k | 0 <= k < n :: |lines[k]| <= MAX_FRAME_BYTES
    ensures n < |lines| ==> |lines[n]| > MAX_FRAME_BYTES
  {
    if lines == [] then 0
    else
      var m := |lines| - 1;
      var n := ShortLines(lines[..m]);
      if n == m && |lines[m]| <= MAX_FRAME_BYTES then m + 1 else n
  }

  /** The worker handles exactly the newline-delimited lines before the first one over the limit,
      and stops exactly when a line, finished or not, is over it. */
  lemma {:induction false} HandlesLinesBeforeLongOne(input: seq<Byte>)
    ensures var r := ReadAll(Reader([], [], false), input);
      var n := ShortLines(Lines(input));
      && r.handled == Lines(input)[..n]
      && (r.failed <==> n < |Lines(input)| || |Rest(input)| > MAX_FRAME_BYTES)
      && (!r.failed ==> r.frame == Rest(input))
      && (r.failed ==> r.frame == [])
  {
    if input != [] {
      var m := |input| - 1;
      HandlesLinesBeforeLongOne(input[..m]);
      var lines := Lines(input[..m]);
      if input[m] == NEWLINE {
        assert Lines(input)[..|lines|] == lines;
      } else {
        assert Lines(input) == lines;
      }
    }
  }

  /** The input is its lines and its rest again. */
  function Rejoin(lines: seq<seq<Byte>>): seq<Byte> {
    if lines == [] then [] else Rejoin(lines[..|lines| - 1]) + lines[|lines| - 1] + [NEWLINE]
  }

  lemma {:induction false} LinesRejoin(input: seq<Byte>)
    ensures Rejoin(Lines(input)) + Rest(input) == input
    ensures forall k | 0 <= k < |Lines(input)| :: NEWLINE !in Lines(input)[k]
    ensures NEWLINE !in Rest(input)
  {
    if input != [] {
      var m := |input| - 1;
      LinesRejoin(input[..m]);
      var lines := Lines(input[..m]);
      if input[m] == NEWLINE {
        assert Lines(input)[..|lines|] == lines;
        assert Rejoin(Lines(input)) == Rejoin(lines) + Rest(input[..m]) + [NEWLINE];
      } else {
        assert Lines(input) == lines;
      }
    }
  }
}
