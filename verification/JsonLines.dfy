/**
 * The line reader behind `json_stream` (core/src/link_resolver.rs): bytes arrive in chunks of any
 * size and are handed out line by line, with line numbers.
 */
module JsonLines {
  import opened Common

  type Bytes = seq<byte>

  const NL: byte := 10

  /** A line to be parsed, with the newline that ends it, and its number in the file. */
  datatype Line = Line(text: Bytes, number: nat)

  // ----- splitting the whole content -----

  /** The content cut at its newlines, after having read `part` of the current line. */
  function Cut(part: Bytes, content: Bytes): (lines: seq<Bytes>)
    ensures lines != []
    decreases content
  {
    if content == [] then [part]
    else if content[0] == NL then [part] + Cut([], content[1..])
    else Cut(part + [content[0]], content[1..])
  }

  /** Lines numbered from `first`; blank lines count but are left out. */
  function Numbered(lines: seq<Bytes>, first: nat): seq<Line> {
    if lines == [] then []
    else (if lines[0] == [] then [] else [Line(lines[0] + [NL], first)]) + Numbered(lines[1..], first + 1)
  }

  /** What a reader that has counted `count` lines should yield for the rest of the content. */
  function LinesOf(content: Bytes, count: nat): seq<Line> {
    Numbered(Cut([], content), count + 1)
  }

  lemma {:induction false} CutPlain(part: Bytes, plain: Bytes, rest: Bytes)
    requires NL !in plain
    ensures Cut(part, plain + rest) == Cut(part + plain, rest)
    decreases plain
  {
    if plain == [] {
      assert plain + rest == rest && part + plain == part;
    } else {
      assert (plain + rest)[1..] == plain[1..] + rest;
      assert plain[0] in plain;
      CutPlain(part + [plain[0]], plain[1..], rest);
      assert part + [plain[0]] + plain[1..] == part + plain;
    }
  }

  /** The first line of content with a newline at `k`, and the rest. */
  lemma LinesOfSplit(content: Bytes, k: nat, count: nat)
    requires k < |content| && content[k] == NL && NL !in content[..k]
    ensures LinesOf(content, count)
         == (if k == 0 then [] else [Line(content[..k + 1], count + 1)]) + LinesOf(content[k + 1..], count + 1)
  {
    assert content == content[..k] + content[k..];
    CutPlain([], content[..k], content[k..]);
    assert [] + content[..k] == content[..k];
    assert content[k..][1..] == content[k + 1..];
    assert content[..k] + [NL] == content[..k + 1];
    assert ([content[..k]] + Cut([], content[k + 1..]))[1..] == Cut([], content[k + 1..]);
  }

  /** A last line without a newline is read as if it had one. */
  lemma LinesOfUnterminated(content: Bytes, count: nat)
    requires NL !in content && content != []
    ensures LinesOf(content, count) == LinesOf(content + [NL], count)
  {
    CutPlain([], content, []);
    CutPlain([], content, [NL]);
    assert content + [] == content && [] + content == content;
    assert [NL][1..] == [];
    assert Cut(content, [NL]) == [content] + Cut([], []);
    assert Cut([], []) == [[]];
    var line := Line(content + [NL], count + 1);
    assert Numbered([[]], count + 2) == [] + Numbered([[]][1..], count + 3);
    assert [content, []][1..] == [[]] && [content][1..] == [];
    assert Numbered([content, []], count + 1) == [line] + Numbered([[]], count + 2);
    assert Numbered([content], count + 1) == [line] + Numbered([], count + 2);
    assert Cut([], content) == [content] && Cut([], content + [NL]) == [content, []];
  }

  // ----- reading chunk by chunk -----

  /** What polling the underlying stream yields: bytes, nothing yet, or an error. */
  datatype Chunk = Data(bytes: Bytes) | NotReady | Broken

  function Content(stream: seq<Chunk>): Bytes {
    if stream == [] then []
    else (if stream[0].Data? then stream[0].bytes else []) + Content(stream[1..])
  }

  datatype Polled = Ready(line: Line) | Pending | Failed | End

  function Newlines(s: Bytes): nat {
    if s == [] then 0 else (if s[0] == NL then 1 else 0) + Newlines(s[1..])
  }

  lemma {:induction false} NewlinesConcat(a: Bytes, b: Bytes)
    ensures Newlines(a + b) == Newlines(a) + Newlines(b)
  {
    if a == [] {
      assert a + b == b;
    } else {
      assert (a + b)[1..] == a[1..] + b;
      NewlinesConcat(a[1..], b);
    }
  }

  lemma {:induction false} NoNewlines(a: Bytes)
    requires NL !in a
    ensures Newlines(a) == 0
  {
    if a != [] {
      assert a[0] in a;
      NoNewlines(a[1..]);
    }
  }

  /** Rounds of the loop left before the buffer runs out: one per line, two for an unfinished one. */
  function Rounds(s: Bytes): nat {
    Newlines(s) + if s != [] && s[|s| - 1] != NL then 2 else 0
  }

  lemma RoundsAfterLine(s: Bytes, k: nat)
    requires k < |s| && s[k] == NL
    ensures Rounds(s[k + 1..]) < Rounds(s)
  {
    assert s == s[..k] + ([NL] + s[k + 1..]);
    NewlinesConcat(s[..k], [NL] + s[k + 1..]);
    NewlinesConcat([NL], s[k + 1..]);
    assert Newlines([NL]) == 1 + Newlines([NL][1..]);
  }

  lemma RoundsAfterTerminating(s: Bytes)
    requires NL !in s && s != []
    ensures Rounds(s + [NL]) < Rounds(s)
  {
    NewlinesConcat(s, [NL]);
    NoNewlines(s);
    assert Newlines([NL]) == 1 + Newlines([NL][1..]);
    assert s[|s| - 1] in s;
  }

  /** `position(|b| b == '\\n')` */
  method FindNewline(s: Bytes) returns (k: nat)
    ensures k <= |s|
    ensures k < |s| ==> s[k] == NL
    ensures NL !in s[..k]
  {
    k := 0;
    while k < |s| && s[k] != NL
      invariant k <= |s| && NL !in s[..k]
    {
      k := k + 1;
    }
  }

  class LineReader {
    var buf: Bytes
    var count: nat
    var stream: seq<Chunk>

    /** The lines this reader has yet to yield. */
    ghost function Remaining(): seq<Line> reads this {
      LinesOf(buf + Content(stream), count)
    }

    constructor (chunks: seq<Chunk>)
      ensures stream == chunks && Remaining() == LinesOf(Content(chunks), 0)
    {
      buf, count, stream := [], 0, chunks;
      new;
      assert buf + Content(stream) == Content(stream);
    }

    /** Polls the stream; the bytes it may give go to the end of the buffer. */
    method NextChunk() returns (chunk: Chunk)
      requires stream != []
      modifies this
      ensures chunk == old(stream)[0] && stream == old(stream)[1..] && count == old(count)
      ensures buf == old(buf) + (if chunk.Data? then chunk.bytes else [])
      ensures Remaining() == old(Remaining())
    {
      chunk := stream[0];
      if chunk.Data? {
        assert buf + Content(stream) == (buf + chunk.bytes) + Content(stream[1..]);
        buf := buf + chunk.bytes;
      } else {
        assert Content(stream) == Content(stream[1..]);
      }
      stream := stream[1..];
    }

    /**
     * One poll: the next line that is due, or the end exactly when none is. A stream that is not
     * ready or breaks costs no line.
     */
    method Poll() returns (r: Polled)
      modifies this
      ensures r.Ready? ==> old(Remaining()) == [r.line] + Remaining()
      ensures r.End? ==> old(Remaining()) == [] && Remaining() == [] && stream == []
      ensures r.Pending? || r.Failed? ==> Remaining() == old(Remaining()) && |stream| < |old(stream)|
      ensures r.Pending? ==> NotReady in old(stream)
      ensures r.Failed? ==> Broken in old(stream)
      ensures exists n :: 0 <= n <= |old(stream)| && stream == old(stream)[n..]
      ensures forall chunk :: chunk in stream ==> chunk in old(stream)
    {
      ghost var n := 0;
      while true
        invariant 0 <= n <= |old(stream)| && stream == old(stream)[n..]
        invariant Remaining() == old(Remaining())
        decreases |stream|, Rounds(buf)
      {
        var offset := FindNewline(buf);
        if offset < |buf| {
          var line := buf[..offset + 1];
          FirstLine(offset);
          RoundsAfterLine(buf, offset);
          buf := buf[offset + 1..];
          count := count + 1;
          if |line| > 1 {
            return Ready(Line(line, count));
          }
        } else {
          assert buf[..offset] == buf;
          if stream != [] {
            var chunk := NextChunk();
            assert chunk == old(stream)[n];
            n := n + 1;
            if chunk.NotReady? {
              return Pending;
            }
            if chunk.Broken? {
              return Failed;
            }
          } else if buf != [] {
            // The input was not terminated with a newline.
            assert buf + Content(stream) == buf && (buf + [NL]) + Content(stream) == buf + [NL];
            LinesOfUnterminated(buf, count);
            RoundsAfterTerminating(buf);
            buf := buf + [NL];
          } else {
            assert buf + Content(stream) == [];
            assert Cut([], []) == [[]] && Numbered([[]], count + 1) == [] + Numbered([[]][1..], count + 2);
            return End;
          }
        }
      }
    }

    lemma FirstLine(k: nat)
      requires k < |buf| && buf[k] == NL && NL !in buf[..k]
      ensures Remaining() == (if k == 0 then [] else [Line(buf[..k + 1], count + 1)])
                             + LinesOf(buf[k + 1..] + Content(stream), count + 1)
    {
      var all := buf + Content(stream);
      assert all[..k] == buf[..k] && all[..k + 1] == buf[..k + 1];
      assert all[k + 1..] == buf[k + 1..] + Content(stream);
      LinesOfSplit(all, k, count);
    }
  }

  lemma TakeLine(lines: seq<Line>, line: Line, rest: seq<Line>)
    ensures lines + ([line] + rest) == (lines + [line]) + rest
  {}

  /**
   * Polling to the end yields the lines of the whole content, however it was cut into chunks and
   * however often the stream was not ready.
   */
  method ReadAll(chunks: seq<Chunk>) returns (lines: seq<Line>)
    requires Broken !in chunks
    ensures lines == LinesOf(Content(chunks), 0)
  {
    var reader := new LineReader(chunks);
    ghost var all, rest := LinesOf(Content(chunks), 0), reader.Remaining();
    lines := [];
    var done := false;
    while !done
      invariant lines + rest == all && rest == reader.Remaining()
      invariant done ==> rest == []
      invariant Broken !in reader.stream
      decreases !done, |rest|, |reader.stream|
    {
      var r := reader.Poll();
      match r
      case Ready(line) =>
        TakeLine(lines, line, reader.Remaining());
        lines, rest := lines + [line], reader.Remaining();
      case End => done := true;
      case Pending =>
      case Failed => assert false;
    }
  }
}
