/**
 * The INSTREAM conversation with a clamd daemon: the content is sent as frames, each preceded by its length in
 * four big-endian bytes and closed by a zero length; the reply is one line of text.
 */
module ClamAv {
  import opened Wrappers
  import opened Arithmetic
  import opened Text
  import opened Base64Url

  datatype ScanError = EmptyContent | InvalidChunkSize | FrameTooLong | EmptyReply | ErrorReply | UnexpectedReply

  datatype ScanResponse = Clean | Infected(signature: Option<string>)

  const GREETING: seq<Byte> := [122, 73, 78, 83, 84, 82, 69, 65, 77, 0]  // "zINSTREAM\0"

  const FRAME_LIMIT: nat := 0x1_0000_0000

  /** One connection: the bytes sent so far and the segments still to be received. */
  class Socket {
    var sent: seq<Byte>
    var incoming: seq<seq<Byte>>

    constructor (incoming: seq<seq<Byte>>)
      ensures sent == [] && this.incoming == incoming
    {
      sent, this.incoming := [], incoming;
    }

    method SendAll(bytes: seq<Byte>)
      modifies this`sent
      ensures sent == old(sent) + bytes
    {
      sent := sent + bytes;
    }

    /** The next segment, or nothing once the peer has closed. */
    method Recv() returns (segment: seq<Byte>)
      modifies this`incoming
      ensures old(incoming) == [] ==> segment == [] && incoming == []
      ensures old(incoming) != [] ==> segment == old(incoming)[0] && incoming == old(incoming)[1..]
    {
      if incoming == [] {
        return [];
      }
      segment := incoming[0];
      incoming := incoming[1..];
    }
  }

  // ---------------------------------------------------------------------------------------------
  // Framing
  // ---------------------------------------------------------------------------------------------

  /** struct.pack(">I", n) */
  function BigEndian(n: nat): (bytes: seq<Byte>)
    requires n < FRAME_LIMIT
    ensures |bytes| == 4
  {
    [n / 0x100_0000, n / 0x1_0000 % 256, n / 256 % 256, n % 256]
  }

  function FromBigEndian(bytes: seq<Byte>): nat
    requires |bytes| == 4
  {
    (bytes[0] as int) * 0x100_0000 + (bytes[1] as int) * 0x1_0000 + (bytes[2] as int) * 256 + bytes[3] as int
  }

  lemma BigEndianRoundTrip(n: nat)
    requires n < FRAME_LIMIT
    ensures FromBigEndian(BigEndian(n)) == n
  {
    var a, b, c := n / 256, n / 0x1_0000, n / 0x100_0000;
    assert n == 256 * a + n % 256;
    assert b == a / 256 && a == 256 * b + a % 256;
    assert c == b / 256 && b == 256 * c + b % 256;
  }

  /** A chunk whose length fits its four-byte prefix. */
  type Chunk = chunk: seq<Byte> | |chunk| < FRAME_LIMIT

  function Frame(chunk: Chunk): seq<Byte> {
    BigEndian(|chunk|) + chunk
  }

  function Frames(chunks: seq<Chunk>): seq<Byte> {
    if chunks == [] then [] else Frames(chunks[..|chunks| - 1]) + Frame(chunks[|chunks| - 1])
  }

  function Concat(parts: seq<seq<Byte>>): seq<Byte> {
    if parts == [] then [] else Concat(parts[..|parts| - 1]) + parts[|parts| - 1]
  }

  lemma {:induction false} ConcatFirst(parts: seq<seq<Byte>>)
    requires parts != []
    ensures Concat(parts) == parts[0] + Concat(parts[1..])
  {
    var last := |parts| - 1;
    if last == 0 {
      assert Concat(parts[..last]) == [] && Concat(parts[1..]) == [];
    } else {
      var first, middle := parts[0], parts[1..last];
      ConcatFirst(parts[..last]);
      assert parts[1..][..last - 1] == parts[..last][1..] == middle;
      Associative(first, Concat(middle), parts[last]);
    }
  }

  /** The bytes a client sends for these chunks. */
  function Wire(chunks: seq<Chunk>): seq<Byte> {
    GREETING + Frames(chunks) + BigEndian(0)
  }

  /** Chunks of the given size, only the last of which may be shorter; none is empty. */
  ghost predicate ChunksOf(chunks: seq<Chunk>, content: seq<Byte>, size: nat) {
    && Concat(chunks) == content
    && (forall chunk <- chunks :: 0 < |chunk| <= size)
    && (forall i | 0 <= i < |chunks| - 1 :: |chunks[i]| == size)
  }

  method SendFrame(sock: Socket, chunk: seq<Byte>) returns (fits: bool)
    modifies sock`sent
    ensures fits <==> |chunk| < FRAME_LIMIT
    ensures fits ==> sock.sent == old(sock.sent) + Frame(chunk)
    ensures !fits ==> sock.sent == old(sock.sent)
  {
    if |chunk| >= FRAME_LIMIT {
      return false;
    }
    sock.SendAll(BigEndian(|chunk|));
    sock.SendAll(chunk);
    assert sock.sent == old(sock.sent) + Frame(chunk);
    return true;
  }

  lemma AppendFrame(chunks: seq<Chunk>, chunk: Chunk)
    ensures Frames(chunks + [chunk]) == Frames(chunks) + Frame(chunk)
    ensures Concat(chunks + [chunk]) == Concat(chunks) + chunk
  {
    assert (chunks + [chunk])[..|chunks|] == chunks;
  }

  /** The chunks cover the content up to start; all but a last one at the very end are full. */
  ghost predicate Covered(chunks: seq<Chunk>, content: seq<Byte>, start: nat, size: nat) {
    && start <= |content|
    && Concat(chunks) == content[..start]
    && (forall chunk <- chunks :: 0 < |chunk| <= size)
    && (forall i | 0 <= i < |chunks| - 1 :: |chunks[i]| == size)
    && (start < |content| && chunks != [] ==> |chunks[|chunks| - 1]| == size)
    && (chunks == [] <==> start == 0)
  }

  lemma CoverMore(chunks: seq<Chunk>, content: seq<Byte>, start: nat, end: nat, size: nat)
    requires Covered(chunks, content, start, size) && start < end <= |content| && end - start <= size && end - start < FRAME_LIMIT
    requires end < |content| ==> end - start == size
    ensures Covered(chunks + [content[start..end]], content, end, size)
    ensures Frames(chunks + [content[start..end]]) == Frames(chunks) + Frame(content[start..end])
  {
    var chunk: Chunk := content[start..end];
    AppendFrame(chunks, chunk);
    assert content[..end] == content[..start] + chunk;
    ShapeKept(chunks, chunk, size);
  }

  lemma ShapeKept(chunks: seq<Chunk>, chunk: Chunk, size: nat)
    requires 0 < |chunk| <= size && (forall c <- chunks :: 0 < |c| <= size)
    requires forall i | 0 <= i < |chunks| :: |chunks[i]| == size
    ensures var all := chunks + [chunk];
            && (forall c <- all :: 0 < |c| <= size)
            && (forall i | 0 <= i < |all| - 1 :: |all[i]| == size)
            && all[|all| - 1] == chunk
  {
  }

  lemma Associative(a: seq<Byte>, b: seq<Byte>, c: seq<Byte>)
    ensures (a + b) + c == a + (b + c)
  {
  }

  lemma AllCovered(chunks: seq<Chunk>, content: seq<Byte>, size: nat)
    requires Covered(chunks, content, |content|, size)
    ensures ChunksOf(chunks, content, size)
  {
    assert content[..|content|] == content;
  }

  /** The loop over range(0, len(content), size). */
  method SendChunks(sock: Socket, content: seq<Byte>, size: nat) returns (fits: bool, ghost chunks: seq<Chunk>)
    requires size > 0 && content != []
    modifies sock`sent
    ensures fits <==> size < FRAME_LIMIT || |content| < FRAME_LIMIT
    ensures fits ==>
              && ChunksOf(chunks, content, size)
              && sock.sent == old(sock.sent) + Frames(chunks)
    ensures !fits ==> sock.sent == old(sock.sent)
  {
    chunks := [];
    var start := 0;
    while start < |content|
      invariant Covered(chunks, content, start, size)
      invariant start > 0 ==> size < FRAME_LIMIT || |content| < FRAME_LIMIT
      invariant sock.sent == old(sock.sent) + Frames(chunks)
      decreases |content| - start
    {
      var end := if start + size < |content| then start + size else |content|;
      var sent := SendFrame(sock, content[start..end]);
      if !sent {
        return false, chunks;
      }
      CoverMore(chunks, content, start, end, size);
      Associative(old(sock.sent), Frames(chunks), Frame(content[start..end]));
      chunks := chunks + [content[start..end]];
      start := end;
    }
    AllCovered(chunks, content, size);
    return true, chunks;
  }

  /**
   * Sends the whole conversation. A chunk size of zero is refused by range(); a negative one makes the range
   * empty; a chunk too long for its four-byte length is refused by struct.pack.
   */
  method SendContent(sock: Socket, content: seq<Byte>, chunkSize: int)
    returns (r: Result<(), ScanError>, ghost chunks: seq<Chunk>)
    requires content != []
    modifies sock`sent
    ensures r.Success? <==> chunkSize != 0 && (chunkSize < FRAME_LIMIT || |content| < FRAME_LIMIT)
    ensures r.Failure? ==> r.error == (if chunkSize == 0 then InvalidChunkSize else FrameTooLong)
    ensures r.Failure? ==> sock.sent == old(sock.sent) + GREETING
    ensures r.Success? ==>
              && sock.sent == old(sock.sent) + Wire(chunks)
              && (if chunkSize > 0 then ChunksOf(chunks, content, chunkSize) else chunks == [])
  {
    chunks := [];
    sock.SendAll(GREETING);
    if chunkSize == 0 {
      return Failure(InvalidChunkSize), chunks;
    }
    if chunkSize > 0 {
      var fits;
      fits, chunks := SendChunks(sock, content, chunkSize);
      if !fits {
        return Failure(FrameTooLong), chunks;
      }
    }
    sock.SendAll(BigEndian(0));
    Associative(old(sock.sent), GREETING, Frames(chunks));
    Associative(old(sock.sent), GREETING + Frames(chunks), BigEndian(0));
    return Success(()), chunks;
  }

  // ---------------------------------------------------------------------------------------------
  // The daemon's side: an independent reader of length-prefixed frames
  // ---------------------------------------------------------------------------------------------

  /** Reads frames up to the zero length; gives the content and what follows it, or None on a broken stream. */
  function ReadFrames(bytes: seq<Byte>): Option<(seq<Byte>, seq<Byte>)> {
    if |bytes| < 4 then None
    else
      var n := FromBigEndian(bytes[..4]);
      if n == 0 then Some(([], bytes[4..]))
      else if |bytes| < 4 + n then None
      else
        match ReadFrames(bytes[4 + n..])
        case None => None
        case Some((content, rest)) => Some((bytes[4..4 + n] + content, rest))
  }

  lemma ReadOneFrame(chunk: Chunk, more: seq<Byte>)
    requires 0 < |chunk|
    ensures ReadFrames(Frame(chunk) + more) ==
              match ReadFrames(more)
              case None => None
              case Some((content, rest)) => Some((chunk + content, rest))
  {
    var bytes := Frame(chunk) + more;
    BigEndianRoundTrip(|chunk|);
    assert bytes[..4] == BigEndian(|chunk|);
    assert bytes[4..4 + |chunk|] == chunk;
    assert bytes[4 + |chunk|..] == more;
  }

  lemma {:induction false} ReadAllFrames(chunks: seq<Chunk>, more: seq<Byte>)
    requires forall chunk <- chunks :: 0 < |chunk|
    ensures ReadFrames(Frames(chunks) + more) ==
              match ReadFrames(more)
              case None => None
              case Some((content, rest)) => Some((Concat(chunks) + content, rest))
  {
    if chunks == [] {
      assert Frames(chunks) + more == more;
      match ReadFrames(more)
      case None =>
      case Some((content, rest)) => assert [] + content == content;
    } else {
      var last := |chunks| - 1;
      var chunk := chunks[last];
      ReadAllFrames(chunks[..last], Frame(chunk) + more);
      ReadOneFrame(chunk, more);
      assert Frames(chunks) + more == Frames(chunks[..last]) + (Frame(chunk) + more);
      match ReadFrames(more)
      case None =>
      case Some((content, rest)) =>
        assert Concat(chunks[..last]) + (chunk + content) == Concat(chunks) + content;
    }
  }

  lemma {:induction false} FramesLength(chunks: seq<Chunk>)
    ensures |Frames(chunks)| == |Concat(chunks)| + 4 * |chunks|
  {
    if chunks == [] {
    } else {
      FramesLength(chunks[..|chunks| - 1]);
    }
  }

  lemma ChunkCount(chunks: seq<Chunk>, content: seq<Byte>, size: nat)
    requires size > 0 && ChunksOf(chunks, content, size) && content != []
    ensures |chunks| == (|content| + size - 1) / size
  {
    var last := |chunks| - 1;
    FullChunks(chunks[..last], size);
    assert chunks[last] in chunks;
    Ceiling(last * size, |chunks[last]|, size, last);
  }

  lemma {:induction false} FullChunks(chunks: seq<Chunk>, size: nat)
    requires forall i | 0 <= i < |chunks| :: |chunks[i]| == size
    ensures |Concat(chunks)| == |chunks| * size
  {
    if chunks == [] {
    } else {
      FullChunks(chunks[..|chunks| - 1], size);
      OneMore(|chunks| - 1, size);
    }
  }

  /** Rounding up: k full chunks and one of the given rest. */
  lemma Ceiling(full: nat, rest: nat, size: nat, k: nat)
    requires 0 < rest <= size && full == k * size
    ensures (full + rest + size - 1) / size == k + 1
  {
    var m := full + rest + size - 1;
    var d := m / size;
    assert m == size * d + m % size;
    OneMore(k, size);
    OneMore(k + 1, size);
    if d <= k {
      ProductMonotone(d, k, size);
    } else if d >= k + 2 {
      ProductMonotone(k + 2, d, size);
    }
  }

  /**
   * The daemon recovers exactly the content, and nothing is left over; the stream is ten bytes of greeting,
   * the content, and four bytes for every frame and for the end.
   */
  lemma FramingRoundTrip(chunks: seq<Chunk>, content: seq<Byte>, size: nat)
    requires size > 0 && content != [] && ChunksOf(chunks, content, size)
    ensures ReadFrames(Wire(chunks)[|GREETING|..]) == Some((content, []))
    ensures |Wire(chunks)| == 10 + |content| + 4 * ((|content| + size - 1) / size + 1)
  {
    var wire := Wire(chunks);
    assert wire[|GREETING|..] == Frames(chunks) + BigEndian(0);
    ReadAllFrames(chunks, BigEndian(0));
    assert BigEndian(0)[..4] == BigEndian(0) && BigEndian(0)[4..] == [];
    BigEndianRoundTrip(0);
    assert Concat(chunks) + [] == content;
    FramesLength(chunks);
    ChunkCount(chunks, content, size);
  }

  /** Without chunks the daemon reads an empty content: what a negative chunk size would make of any content. */
  lemma NoChunksReadEmpty()
    ensures ReadFrames(Wire([])[|GREETING|..]) == Some(([], []))
  {
    assert Wire([])[|GREETING|..] == BigEndian(0);
    assert BigEndian(0)[..4] == BigEndian(0) && BigEndian(0)[4..] == [];
    BigEndianRoundTrip(0);
  }

  // ---------------------------------------------------------------------------------------------
  // Reading the reply
  // ---------------------------------------------------------------------------------------------

  predicate EndsReply(segment: seq<Byte>) {
    0 in segment || 10 in segment
  }

  /** The bytes gathered from segments: up to the first that is empty or holds a terminator. */
  function Gather(segments: seq<seq<Byte>>): seq<Byte> {
    if segments == [] || segments[0] == [] then []
    else if EndsReply(segments[0]) then segments[0]
    else segments[0] + Gather(segments[1..])
  }

  function WithoutNul(bytes: seq<Byte>): seq<Byte> {
    if bytes == [] then []
    else if bytes[0] == 0 then WithoutNul(bytes[1..]) else [bytes[0]] + WithoutNul(bytes[1..])
  }

  /** `decode` is decoding as UTF-8 with replacement of what is not. */
  method ReadResponse(sock: Socket, decode: seq<Byte> -> string) returns (r: Result<string, ScanError>)
    modifies sock`incoming
    ensures var text := Strip(decode(WithoutNul(Gather(old(sock.incoming)))));
            r == if text == "" then Failure(EmptyReply) else Success(text)
  {
    var buffer := [];
    ghost var all := sock.incoming;
    while true
      invariant buffer + Gather(sock.incoming) == Gather(all)
      decreases |sock.incoming|
    {
      ghost var before := sock.incoming;
      var chunk := sock.Recv();
      if chunk == [] {
        assert Gather(before) == [];
        break;
      }
      ghost var soFar := buffer;
      buffer := buffer + chunk;
      if 0 in chunk || 10 in chunk {
        assert buffer == soFar + Gather(before);
        assert Gather(all) == buffer;
        break;
      }
      assert soFar + (chunk + Gather(sock.incoming)) == buffer + Gather(sock.incoming);
    }
    assert buffer == Gather(all);
    var text := Strip(decode(WithoutNul(buffer)));
    return if text == "" then Failure(EmptyReply) else Success(text);
  }

  /** However a terminated reply is cut into non-empty segments, the same bytes are gathered. */
  lemma {:induction false} SegmentationInvisible(segments: seq<seq<Byte>>, reply: seq<Byte>)
    requires forall s <- segments :: s != []
    requires Concat(segments) == reply
    requires reply != [] && reply[|reply| - 1] == 0
    requires forall i | 0 <= i < |reply| - 1 :: reply[i] != 0 && reply[i] != 10
    ensures Gather(segments) == reply
  {
    var first, more := segments[0], Concat(segments[1..]);
    ConcatFirst(segments);
    assert forall s <- segments[1..] :: s in segments;
    assert first in segments;
    if more == [] {
      assert first == reply;
      assert reply[|reply| - 1] in first;
      assert EndsReply(first);
    } else {
      assert forall i | 0 <= i < |first| :: first[i] == reply[i];
      assert !EndsReply(first);
      assert more[|more| - 1] == reply[|reply| - 1];
      assert forall i | 0 <= i < |more| :: more[i] == reply[|first| + i];
      SegmentationInvisible(segments[1..], more);
    }
  }

  // ---------------------------------------------------------------------------------------------
  // Parsing the reply
  // ---------------------------------------------------------------------------------------------

  /** Upper case, character by character; one character may become several. */
  function Upper(s: string, up: char -> string): string {
    if s == "" then "" else up(s[0]) + Upper(s[1..], up)
  }

  /** On the letters of the reply's own words the mapping is the usual one. */
  ghost predicate LawfulUpper(up: char -> string) {
    forall c: char | IsAscii(c) :: up(c) == [if 'a' <= c <= 'z' then c - 32 as char else c]
  }

  predicate OccursAt(s: string, t: string, i: nat) {
    i + |t| <= |s| && s[i..i + |t|] == t
  }

  predicate Contains(s: string, t: string) {
    exists i: nat | i <= |s| :: OccursAt(s, t, i)
  }

  /** s.split(":", maxsplit=1)[1], for a text that has a colon. */
  function AfterColon(s: string): string
    requires ':' in s
  {
    if s[0] == ':' then s[1..] else AfterColon(s[1..])
  }

  /** s.rsplit(mark, maxsplit=1)[0]: what precedes the last occurrence, or all of s. */
  function BeforeLast(s: string, mark: string): string
    requires mark != ""
  {
    if |s| < |mark| then s
    else if EndsWith(s, mark) then s[..|s| - |mark|]
    else
      var shorter := BeforeLast(s[..|s| - 1], mark);
      if |shorter| == |s| - 1 then s else shorter
  }

  function ParseResponse(response: string, up: char -> string): Result<ScanResponse, ScanError> {
    var upper := Upper(response, up);
    if EndsWith(upper, "OK") then Success(Clean)
    else if Contains(upper, "FOUND") then
      var afterMarker := if ':' in response then Strip(AfterColon(response)) else response;
      var signature := Strip(BeforeLast(afterMarker, " FOUND"));
      Success(Infected(if signature == "" then None else Some(signature)))
    else if Contains(upper, "ERROR") then Failure(ErrorReply)
    else Failure(UnexpectedReply)
  }

  /** Some stretch of the text is the word. */
  ghost predicate Mentions(s: string, word: string) {
    exists before: string, after: string :: s == before + word + after
  }

  /** What a reply in upper case means: one of four things, of which the source tells the first that applies. */
  ghost predicate Answers(r: Result<ScanResponse, ScanError>, upper: string) {
    var ok := exists before: string :: upper == before + "OK";
    && (r == Success(Clean) <==> ok)
    && (r.Success? && r.value.Infected? <==> !ok && Mentions(upper, "FOUND"))
    && (r == Failure(ErrorReply) <==> !ok && !Mentions(upper, "FOUND") && Mentions(upper, "ERROR"))
    && (r == Failure(UnexpectedReply) <==> !ok && !Mentions(upper, "FOUND") && !Mentions(upper, "ERROR"))
  }

  lemma ContainsMeans(s: string, word: string)
    ensures Contains(s, word) <==> Mentions(s, word)
  {
    if i: nat :| i <= |s| && OccursAt(s, word, i) {
      assert s == s[..i] + word + s[i + |word|..];
    }
    if before: string, after: string :| s == before + word + after {
      assert OccursAt(s, word, |before|);
    }
  }

  /** Every reply is read in exactly one of the four ways. */
  lemma ReplyMeans(response: string, up: char -> string)
    ensures Answers(ParseResponse(response, up), Upper(response, up))
  {
    var upper := Upper(response, up);
    EndsWithMeans(upper, "OK");
    ContainsMeans(upper, "FOUND");
    ContainsMeans(upper, "ERROR");
  }

  lemma {:induction false} UpperConcat(a: string, b: string, up: char -> string)
    ensures Upper(a + b, up) == Upper(a, up) + Upper(b, up)
  {
    if a == "" {
      assert a + b == b;
    } else {
      assert (a + b)[1..] == a[1..] + b;
      UpperConcat(a[1..], b, up);
      assert Upper(a + b, up) == up(a[0]) + (Upper(a[1..], up) + Upper(b, up));
    }
  }

  /** Letters already in upper case stay. */
  lemma {:induction false} UpperFixed(s: string, up: char -> string)
    requires LawfulUpper(up)
    requires forall c <- s :: IsAscii(c) && !('a' <= c <= 'z')
    ensures Upper(s, up) == s
  {
    if s == "" {
    } else {
      assert s[0] in s;
      UpperFixed(s[1..], up);
      assert s == [s[0]] + s[1..];
    }
  }

  /** A trimmed non-empty signature comes back whole, whatever colons, spaces or FOUNDs it holds itself. */
  lemma FoundReplyParsed(signature: string, up: char -> string)
    requires LawfulUpper(up)
    requires Trimmed(signature) && signature != ""
    ensures ParseResponse("stream: " + signature + " FOUND", up) == Success(Infected(Some(signature)))
  {
    UpperFound("stream: " + signature, up);
    SignatureExtracted(signature);
  }

  lemma UpperFound(head: string, up: char -> string)
    requires LawfulUpper(up)
    ensures var upper := Upper(head + " FOUND", up);
            !EndsWith(upper, "OK") && Contains(upper, "FOUND")
  {
    UpperConcat(head, " FOUND", up);
    UpperFixed(" FOUND", up);
    FoundSuffix(Upper(head, up));
  }

  lemma FoundSuffix(h: string)
    ensures !EndsWith(h + " FOUND", "OK") && Contains(h + " FOUND", "FOUND")
  {
    var upper := h + " FOUND";
    assert upper[|upper| - 1] == 'D';
    assert "OK"[1] == 'K';
    assert upper[|upper| - 2..][1] == 'D';
    assert OccursAt(upper, "FOUND", |h| + 1);
  }

  lemma SignatureExtracted(signature: string)
    requires Trimmed(signature) && signature != ""
    ensures var response := "stream: " + signature + " FOUND";
            ':' in response && Strip(BeforeLast(Strip(AfterColon(response)), " FOUND")) == signature
  {
    var response, tail := "stream: " + signature + " FOUND", signature + " FOUND";
    assert response == "stream" + ([':'] + (" " + tail));
    FirstColon("stream", " " + tail);
    StripPadded(" ", tail);
    assert tail[|signature|..] == " FOUND";
    assert BeforeLast(tail, " FOUND") == signature;
    StripKeepsTrimmed(signature);
  }

  lemma {:induction false} FirstColon(before: string, after: string)
    requires ':' !in before
    ensures ':' in before + ([':'] + after) && AfterColon(before + ([':'] + after)) == after
  {
    var s := before + ([':'] + after);
    assert s[|before|] == ':';
    if before == "" {
      assert s[1..] == after;
    } else {
      FirstColon(before[1..], after);
      assert s[1..] == before[1..] + ([':'] + after);
    }
  }

  // ---------------------------------------------------------------------------------------------
  // A whole scan
  // ---------------------------------------------------------------------------------------------

  method ScanBytes(sock: Socket, content: seq<Byte>, chunkSize: int, decode: seq<Byte> -> string, up: char -> string)
    returns (r: Result<ScanResponse, ScanError>)
    modifies sock
    ensures content == [] ==> r == Failure(EmptyContent) && sock.sent == old(sock.sent)
    ensures content != [] && chunkSize == 0 ==> r == Failure(InvalidChunkSize)
    ensures content != [] && chunkSize >= FRAME_LIMIT && |content| >= FRAME_LIMIT ==> r == Failure(FrameTooLong)
    ensures content != [] && chunkSize != 0 && (chunkSize < FRAME_LIMIT || |content| < FRAME_LIMIT) ==>
              var text := Strip(decode(WithoutNul(Gather(old(sock.incoming)))));
              && (r == if text == "" then Failure(EmptyReply) else ParseResponse(text, up))
              && (text != "" ==> Answers(r, Upper(text, up)))
    ensures content != [] && chunkSize != 0 && (chunkSize < FRAME_LIMIT || |content| < FRAME_LIMIT) ==>
              && |sock.sent| >= |old(sock.sent)| + |GREETING|
              && sock.sent[..|old(sock.sent)| + |GREETING|] == old(sock.sent) + GREETING
              && ReadFrames(sock.sent[|old(sock.sent)| + |GREETING|..]) == Some((if chunkSize > 0 then content else [], []))
  {
    if content == [] {
      return Failure(EmptyContent);
    }
    var sent, chunks := SendContent(sock, content, chunkSize);
    if sent.Failure? {
      return Failure(sent.error);
    }
    if chunkSize > 0 {
      FramingRoundTrip(chunks, content, chunkSize);
    } else {
      NoChunksReadEmpty();
    }
    Spoken(old(sock.sent), chunks);
    var response := ReadResponse(sock, decode);
    if response.Failure? {
      return Failure(response.error);
    }
    ReplyMeans(response.value, up);
    return ParseResponse(response.value, up);
  }

  /** The daemon reads on after the greeting. */
  lemma Spoken(before: seq<Byte>, chunks: seq<Chunk>)
    ensures var sent := before + Wire(chunks);
            && |sent| >= |before| + |GREETING|
            && sent[..|before| + |GREETING|] == before + GREETING
            && sent[|before| + |GREETING|..] == Wire(chunks)[|GREETING|..]
  {
  }

  /** The low byte of a character: for ASCII text, its encoding. */
  function ByteOf(c: char): Byte {
    c as int % 256
  }

  function AsciiBytes(s: string): seq<Byte> {
    if s == "" then [] else [ByteOf(s[0])] + AsciiBytes(s[1..])
  }

  lemma {:induction false} AsciiBytesPlain(s: string)
    requires forall c <- s :: IsAscii(c) && c as int != 0 && c as int != 10
    ensures |AsciiBytes(s)| == |s|
    ensures forall b <- AsciiBytes(s) :: b != 0 && b != 10
    ensures WithoutNul(AsciiBytes(s) + [0]) == AsciiBytes(s)
  {
    if s == "" {
      assert ([] + [0])[1..] == [];
    } else {
      assert s[0] in s && forall c <- s[1..] :: c in s;
      AsciiBytesPlain(s[1..]);
      KeepFirst(ByteOf(s[0]), AsciiBytes(s[1..]));
    }
  }

  lemma KeepFirst(b: Byte, bytes: seq<Byte>)
    requires b != 0
    ensures WithoutNul([b] + bytes + [0]) == [b] + WithoutNul(bytes + [0])
  {
    assert ([b] + bytes + [0])[1..] == bytes + [0];
  }

  /** A line of ASCII text, sent with a closing NUL and cut into any non-empty segments, is received as it is. */
  lemma ReplyReceived(segments: seq<seq<Byte>>, reply: string, decode: seq<Byte> -> string)
    requires forall s: string | (forall c <- s :: IsAscii(c)) :: decode(AsciiBytes(s)) == s
    requires Trimmed(reply) && (forall c <- reply :: IsAscii(c) && c as int != 0 && c as int != 10)
    requires forall s <- segments :: s != []
    requires Concat(segments) == AsciiBytes(reply) + [0]
    ensures Strip(decode(WithoutNul(Gather(segments)))) == reply
  {
    AsciiBytesPlain(reply);
    var bytes := AsciiBytes(reply) + [0];
    assert forall i | 0 <= i < |bytes| - 1 :: bytes[i] == AsciiBytes(reply)[i] && bytes[i] in AsciiBytes(reply);
    SegmentationInvisible(segments, bytes);
    StripKeepsTrimmed(reply);
  }

  /**
   * End to end: a daemon that finds an ASCII signature in the content reports it to the caller, however its
   * reply is cut into segments.
   */
  lemma FoundReplyReaches(segments: seq<seq<Byte>>, signature: string, decode: seq<Byte> -> string, up: char -> string)
    requires LawfulUpper(up)
    requires forall s: string | (forall c <- s :: IsAscii(c)) :: decode(AsciiBytes(s)) == s
    requires Trimmed(signature) && signature != ""
    requires forall c <- signature :: IsAscii(c) && c as int != 0 && c as int != 10
    requires forall s <- segments :: s != []
    requires Concat(segments) == AsciiBytes("stream: " + signature + " FOUND") + [0]
    ensures var text := Strip(decode(WithoutNul(Gather(segments))));
            text != "" && ParseResponse(text, up) == Success(Infected(Some(signature)))
  {
    FoundReplyIsAscii(signature);
    ReplyReceived(segments, "stream: " + signature + " FOUND", decode);
    FoundReplyParsed(signature, up);
  }

  lemma FoundReplyIsAscii(signature: string)
    requires forall c <- signature :: IsAscii(c) && c as int != 0 && c as int != 10
    ensures var response := "stream: " + signature + " FOUND";
            && (forall c <- response :: IsAscii(c) && c as int != 0 && c as int != 10)
            && Trimmed(response) && response != ""
  {
    assert forall c <- "stream: " :: IsAscii(c) && c as int != 0 && c as int != 10;
    assert forall c <- " FOUND" :: IsAscii(c) && c as int != 0 && c as int != 10;
    var response := "stream: " + signature + " FOUND";
    assert forall c <- response :: c in "stream: " || c in signature || c in " FOUND";
    assert response[0] == 's' && response[|response| - 1] == 'D';
  }

  /** A closing word in capitals is still there in upper case. */
  lemma UpperEndsWith(head: string, tail: string, up: char -> string)
    requires LawfulUpper(up)
    requires forall c <- tail :: IsAscii(c) && !('a' <= c <= 'z')
    ensures Upper(head + tail, up) == Upper(head, up) + tail
  {
    UpperConcat(head, tail, up);
    UpperFixed(tail, up);
  }

  /**
   * End to end: a daemon that finds nothing is believed, however its reply is cut into segments. The daemon's own
   * wording has "stream: " for the head.
   */
  lemma CleanReplyReaches(segments: seq<seq<Byte>>, head: string, decode: seq<Byte> -> string, up: char -> string)
    requires LawfulUpper(up)
    requires forall s: string | (forall c <- s :: IsAscii(c)) :: decode(AsciiBytes(s)) == s
    requires Trimmed(head + "OK") && (forall c <- head :: IsAscii(c) && c as int != 0 && c as int != 10)
    requires forall s <- segments :: s != []
    requires Concat(segments) == AsciiBytes(head + "OK") + [0]
    ensures var text := Strip(decode(WithoutNul(Gather(segments))));
            text != "" && ParseResponse(text, up) == Success(Clean)
  {
    assert forall c <- head + "OK" :: c in head || c in "OK";
    ReplyReceived(segments, head + "OK", decode);
    UpperEndsWith(head, "OK", up);
    ReplyMeans(head + "OK", up);
  }

  /** End to end: a daemon that reports an error never passes for a clean or an infected answer. */
  lemma ErrorReplyReaches(segments: seq<seq<Byte>>, head: string, decode: seq<Byte> -> string, up: char -> string)
    requires LawfulUpper(up)
    requires forall s: string | (forall c <- s :: IsAscii(c)) :: decode(AsciiBytes(s)) == s
    requires Trimmed(head + "ERROR") && (forall c <- head :: IsAscii(c) && c as int != 0 && c as int != 10)
    requires !Mentions(Upper(head + "ERROR", up), "FOUND")
    requires forall s <- segments :: s != []
    requires Concat(segments) == AsciiBytes(head + "ERROR") + [0]
    ensures var text := Strip(decode(WithoutNul(Gather(segments))));
            text != "" && ParseResponse(text, up) == Failure(ErrorReply)
  {
    assert forall c <- head + "ERROR" :: c in head || c in "ERROR";
    ReplyReceived(segments, head + "ERROR", decode);
    UpperEndsWith(head, "ERROR", up);
    ErrorSuffix(Upper(head, up));
    ReplyMeans(head + "ERROR", up);
  }

  lemma ErrorSuffix(h: string)
    ensures !(exists before: string :: h + "ERROR" == before + "OK") && Mentions(h + "ERROR", "ERROR")
  {
    var upper := h + "ERROR";
    assert upper == h + "ERROR" + "";
    assert upper[|upper| - 1] == 'R';
    forall before: string ensures upper != before + "OK" {
      var other := before + "OK";
      assert other[|other| - 1] == 'K';
    }
  }
}
