/** The sidecar's line protocol: one JSON text per line, over a stream cut into data events anywhere. */
module LineProtocol {
  import opened Seqs

  // ---------------------------------------------------------------------
  // Lines of a stream
  // ---------------------------------------------------------------------

  /** The newline-terminated lines, without their newlines. */
  function Lines(s: string): seq<string> {
    if '\n' !in s then [] else [s[..IndexOf(s, '\n')]] + Lines(s[IndexOf(s, '\n') + 1..])
  }

  /** What follows the last newline. */
  function Rest(s: string): (r: string)
    ensures '\n' !in r
  {
    if '\n' !in s then s else Rest(s[IndexOf(s, '\n') + 1..])
  }

  /** A terminated line stands at the front of the lines. */
  lemma LineThenRest(line: string, rest: string)
    requires '\n' !in line
    ensures Lines(line + ("\n" + rest)) == [line] + Lines(rest)
    ensures Rest(line + ("\n" + rest)) == Rest(rest)
  {
    IndexOfFirst(line, '\n', rest);
  }

  /** White space and line terminators in the sense of String.prototype.trim. */
  predicate IsWhite(c: char) {
    c in "\t\n\r " || c in ['\U{000B}', '\U{000C}', '\U{00A0}', '\U{1680}', '\U{2028}', '\U{2029}', '\U{202F}',
                            '\U{205F}', '\U{3000}', '\U{FEFF}'] || '\U{2000}' <= c <= '\U{200A}'
  }

  /** The code points of ECMAScript's white space and line terminators (sections 12.2 and 12.3). */
  lemma WhiteAre(c: char)
    ensures IsWhite(c) <==>
            || c as int in {9, 10, 11, 12, 13, 32, 160, 5760, 8232, 8233, 8239, 8287, 12288, 65279}
            || 8192 <= c as int <= 8202
  {
  }

  function TrimStart(s: string): string {
    if s != "" && IsWhite(s[0]) then TrimStart(s[1..]) else s
  }

  function TrimEnd(s: string): string {
    if s != "" && IsWhite(s[|s| - 1]) then TrimEnd(s[..|s| - 1]) else s
  }

  function Trim(s: string): string {
    TrimEnd(TrimStart(s))
  }

  function KeptOf(line: string): seq<string> {
    if Trim(line) == "" then [] else [Trim(line)]
  }

  /** The trimmed lines that are not blank. */
  function Kept(lines: seq<string>): seq<string> {
    if lines == [] then [] else KeptOf(lines[0]) + Kept(lines[1..])
  }

  lemma TakeLine(s: string)
    requires '\n' in s
    ensures Kept(Lines(s)) == KeptOf(s[..IndexOf(s, '\n')]) + Kept(Lines(s[IndexOf(s, '\n') + 1..]))
    ensures Rest(s) == Rest(s[IndexOf(s, '\n') + 1..])
  {
    hide KeptOf, IndexOf;
    var first, more := s[..IndexOf(s, '\n')], Lines(s[IndexOf(s, '\n') + 1..]);
    assert Lines(s) == [first] + more;
    Cons(first, more);
  }

  lemma NoLines(s: string)
    requires '\n' !in s
    ensures Lines(s) == [] && Kept(Lines(s)) == [] && Rest(s) == s
  {
  }

  // ---------------------------------------------------------------------
  // The receiver
  // ---------------------------------------------------------------------

  class RpcServer {
    var buffer: string
    var handled: seq<string>  // the lines given to handleLine, in order

    constructor ()
      ensures buffer == "" && handled == []
    {
      buffer, handled := "", [];
    }

    method ProcessBuffer()
      modifies this
      ensures handled == old(handled) + Kept(Lines(old(buffer))) && buffer == Rest(old(buffer))
    {
      hide Lines, Rest, Kept, Trim;
      Whole(handled);
      while '\n' in buffer
        invariant handled + Kept(Lines(buffer)) == old(handled) + Kept(Lines(old(buffer)))
        invariant Rest(buffer) == Rest(old(buffer))
        decreases |buffer|
      {
        TakeLine(buffer);
        var newline := IndexOf(buffer, '\n');
        var line := Trim(buffer[..newline]);
        Assoc(handled, KeptOf(buffer[..newline]), Kept(Lines(buffer[newline + 1..])));
        buffer := buffer[newline + 1..];
        if |line| > 0 {
          handled := handled + [line];
        } else {
          Whole(handled);
        }
      }
      NoLines(buffer);
      Whole(handled);
    }

    method OnData(chunk: string)
      modifies this
      ensures handled == old(handled) + Kept(Lines(old(buffer) + chunk)) && buffer == Rest(old(buffer) + chunk)
    {
      buffer := buffer + chunk;
      ProcessBuffer();
    }
  }

  // ---------------------------------------------------------------------
  // Any way of cutting the stream
  // ---------------------------------------------------------------------

  datatype Receiver = Receiver(handled: seq<string>, buffer: string)

  /** OnData, on values. */
  function Received(r: Receiver, chunk: string): Receiver {
    Receiver(r.handled + Kept(Lines(r.buffer + chunk)), Rest(r.buffer + chunk))
  }

  function Run(chunks: seq<string>): Receiver {
    if chunks == [] then Receiver([], "") else Received(Run(chunks[..|chunks| - 1]), chunks[|chunks| - 1])
  }

  function Joined(chunks: seq<string>): string {
    if chunks == [] then "" else Joined(chunks[..|chunks| - 1]) + chunks[|chunks| - 1]
  }

  /** Splitting where a chunk ends, and keeping what is unterminated, loses nothing. */
  lemma {:induction false} LinesOfConcat(a: string, b: string)
    ensures Lines(a + b) == Lines(a) + Lines(Rest(a) + b)
    ensures Rest(a + b) == Rest(Rest(a) + b)
    decreases |a|
  {
    if '\n' in a {
      hide Lines, Rest;
      var line, rest := SplitAtFirst(a, '\n');
      LinesOfConcat(rest, b);
      LineThenRest(line, rest);
      LineThenRest(line, rest + b);
      Assoc("\n", rest, b);
      Assoc(line, "\n" + rest, b);
      Assoc([line], Lines(rest), Lines(Rest(rest) + b));
    } else {
      NoLines(a);
    }
  }

  lemma {:induction false} KeptConcat(a: seq<string>, b: seq<string>)
    ensures Kept(a + b) == Kept(a) + Kept(b)
  {
    if a == [] {
      assert a + b == b;
    } else {
      KeptConcat(a[1..], b);
      Uncons(a, b);
      Assoc(KeptOf(a[0]), Kept(a[1..]), Kept(b));
    }
  }

  /** However the stream is cut into data events, the lines handled are the non-blank lines of the
      whole stream and the buffer holds its unterminated end. */
  lemma {:induction false} ChunkInvariant(chunks: seq<string>)
    ensures Run(chunks) == Receiver(Kept(Lines(Joined(chunks))), Rest(Joined(chunks)))
  {
    if chunks != [] {
      var n := |chunks| - 1;
      var a, b := Joined(chunks[..n]), chunks[n];
      ChunkInvariant(chunks[..n]);
      LinesOfConcat(a, b);
      KeptConcat(Lines(a), Lines(Rest(a) + b));
    }
  }

  // ---------------------------------------------------------------------
  // Frames
  // ---------------------------------------------------------------------

  /** The receiver gets a frame back as it was sent when it has no newline, is not empty and does
      not begin or end with white space, as every JSON object text is. */
  predicate IsFrame(f: string) {
    f != "" && '\n' !in f && !IsWhite(f[0]) && !IsWhite(f[|f| - 1])
  }

  /** sendResponse: each frame and a newline. */
  function Sent(frames: seq<string>): string {
    if frames == [] then "" else frames[0] + ("\n" + Sent(frames[1..]))
  }

  lemma FrameTrimmed(f: string)
    requires IsFrame(f)
    ensures Trim(f) == f
  {
  }

  lemma {:induction false} FramesSurvive(frames: seq<string>)
    requires AllFrames(frames)
    ensures Kept(Lines(Sent(frames))) == frames && Rest(Sent(frames)) == ""
  {
    hide Lines, Rest, Trim;
    if frames == [] {
      NoLines("");
    } else {
      FramesSurvive(frames[1..]);
      LineThenRest(frames[0], Sent(frames[1..]));
      FrameTrimmed(frames[0]);
      Cons(frames[0], Lines(Sent(frames[1..])));
    }
  }

  /** Any sequence of frames, cut into data events anywhere, is received exactly. */
  lemma FramesReceived(frames: seq<string>, chunks: seq<string>)
    requires AllFrames(frames) && Joined(chunks) == Sent(frames)
    ensures Run(chunks) == Receiver(frames, "")
  {
    ChunkInvariant(chunks);
    FramesSurvive(frames);
  }

  lemma {:induction false} TrimStartIs(s: string)
    ensures TrimStart(s) == s <==> s == "" || !IsWhite(s[0])
    ensures |TrimStart(s)| <= |s| && (TrimStart(s) != "" ==> !IsWhite(TrimStart(s)[0]))
    ensures forall c :: c in TrimStart(s) ==> c in s
  {
    if s != "" && IsWhite(s[0]) {
      TrimStartIs(s[1..]);
      assert |TrimStart(s)| < |s|;
    }
  }

  lemma {:induction false} TrimEndIs(s: string)
    ensures TrimEnd(s) == s <==> s == "" || !IsWhite(s[|s| - 1])
    ensures TrimEnd(s) <= s && (TrimEnd(s) != "" ==> !IsWhite(TrimEnd(s)[|TrimEnd(s)| - 1]))
  {
    if s != "" && IsWhite(s[|s| - 1]) {
      TrimEndIs(s[..|s| - 1]);
      assert |TrimEnd(s)| < |s|;
    }
  }

  predicate AllFrames(lines: seq<string>) {
    forall i :: 0 <= i < |lines| ==> IsFrame(lines[i])
  }

  lemma KeptOfIsFrame(line: string)
    requires '\n' !in line
    ensures AllFrames(KeptOf(line))
  {
    hide IsWhite;
    TrimStartIs(line);
    TrimEndIs(TrimStart(line));
  }

  lemma AllFramesConcat(a: seq<string>, b: seq<string>)
    requires AllFrames(a) && AllFrames(b)
    ensures AllFrames(a + b)
  {
    hide IsFrame;
  }

  lemma {:induction false} KeptAreFrames(s: string)
    ensures AllFrames(Kept(Lines(s)))
    decreases |s|
  {
    hide Lines, KeptOf, AllFrames, Kept;
    if '\n' in s {
      var line, rest := SplitAtFirst(s, '\n');
      KeptAreFrames(rest);
      TakeLine(s);
      KeptOfIsFrame(line);
      AllFramesConcat(KeptOf(line), Kept(Lines(rest)));
    } else {
      NoLines(s);
      NoFrames();
    }
  }

  lemma NoFrames()
    ensures AllFrames([])
  {
  }

  /** Nothing else survives unchanged. */
  lemma ReceivedIffFrame(f: string)
    ensures Kept(Lines(f + "\n")) == [f] <==> IsFrame(f)
  {
    assert f + "\n" == Sent([f]);
    if IsFrame(f) {
      FramesSurvive([f]);
    } else {
      KeptAreFrames(f + "\n");
    }
  }

  predicate AllWhite(s: string) {
    forall c :: c in s ==> IsWhite(c)
  }

  lemma {:induction false} StartTrimmed(a: string, s: string)
    requires AllWhite(a) && (s == "" || !IsWhite(s[0]))
    ensures TrimStart(a + s) == s
  {
    hide IsWhite;
    if a == "" {
      assert a + s == s;
    } else {
      Uncons(a, s);
      assert a[0] in a && forall c :: c in a[1..] ==> c in a;
      StartTrimmed(a[1..], s);
    }
  }

  lemma {:induction false} EndTrimmed(s: string, b: string)
    requires AllWhite(b) && (s == "" || !IsWhite(s[|s| - 1]))
    ensures TrimEnd(s + b) == s
    decreases |b|
  {
    hide IsWhite;
    if b == "" {
      assert s + b == s;
    } else {
      var n := |b| - 1;
      assert (s + b)[..|s + b| - 1] == s + b[..n] && (s + b)[|s + b| - 1] == b[n];
      assert b[n] in b && forall c :: c in b[..n] ==> c in b;
      EndTrimmed(s, b[..n]);
    }
  }

  /** A line is handled as what is left without the white space around it, and not at all if that is
      nothing. */
  lemma LineHandled(a: string, core: string, b: string, rest: string)
    requires AllWhite(a) && AllWhite(b) && '\n' !in a + core + b && (core == "" || IsFrame(core))
    ensures Kept(Lines(a + core + b + "\n" + rest)) == (if core == "" then [] else [core]) + Kept(Lines(rest))
  {
    hide IsWhite, Lines, Kept, Trim;
    var line := a + core + b;
    assert line + "\n" + rest == line + ("\n" + rest);
    LineThenRest(line, rest);
    assert Trim(line) == core by { TrimmedIs(a, core, b); }
    KeptCons(line, Lines(rest));
  }

  lemma KeptCons(line: string, lines: seq<string>)
    ensures Kept([line] + lines) == KeptOf(line) + Kept(lines)
  {
    Cons(line, lines);
  }

  lemma TrimmedIs(a: string, core: string, b: string)
    requires AllWhite(a) && AllWhite(b) && (core == "" || IsFrame(core))
    ensures Trim(a + core + b) == core
  {
    hide IsWhite, TrimStart, TrimEnd;
    if core == "" {
      assert a + core + b == (a + b) + "" && AllWhite(a + b);
      StartTrimmed(a + b, "");
      EndTrimmed("", "");
      assert "" + "" == "";
    } else {
      assert a + core + b == a + (core + b);
      assert (core + b)[0] == core[0];
      StartTrimmed(a, core + b);
      EndTrimmed(core, b);
    }
  }
}
