/** The incremental newline-delimited JSON parser used on both ends of the bridge protocol. */
module JsonLines {
  import opened JsonValues
  import opened Text

  const MAX_PARTIAL_LINE_CHARS := 10_000_000

  /** What the invalid-line callback hears about. */
  datatype Report = Oversized(line: string) | NotJson(line: string)

  // ---- the stream as lines -----------------------------------------------------------------

  /** `s.split('\n')`: never empty, its last part is the unfinished line. */
  function Split(s: string): (parts: seq<string>)
    ensures parts != []
  {
    if s == "" then [""]
    else if s[0] == '\n' then [""] + Split(s[1..])
    else
      var parts := Split(s[1..]);
      [[s[0]] + parts[0]] + parts[1..]
  }

  /** The lines of s that a newline ends. */
  function Complete(s: string): seq<string> { var parts := Split(s); parts[..|parts| - 1] }

  /** What follows the last newline of s. */
  function Rest(s: string): string { var parts := Split(s); parts[|parts| - 1] }

  function Frames<F>(parse: string -> Option<F>, lines: seq<string>): seq<F> {
    if lines == [] then []
    else
      var line := Trim(lines[0]);
      var frames := Frames(parse, lines[1..]);
      if line == "" || parse(line).None? then frames else [parse(line).value] + frames
  }

  function Reports<F>(parse: string -> Option<F>, lines: seq<string>): seq<Report> {
    if lines == [] then []
    else
      var line := Trim(lines[0]);
      var reports := Reports(parse, lines[1..]);
      if line == "" || parse(line).Some? then reports else [NotJson(line)] + reports
  }

  // ---- one push ------------------------------------------------------------------------------

  /** The text kept for the next chunk: the unfinished line, unless it is over the cap. */
  function Kept(buffer: string, chunk: string): string {
    if |Rest(buffer + chunk)| > MAX_PARTIAL_LINE_CHARS then "" else Rest(buffer + chunk)
  }

  function Finished<F>(parse: string -> Option<F>, buffer: string, chunk: string): seq<F> {
    Frames(parse, Complete(buffer + chunk))
  }

  function Complaints<F>(parse: string -> Option<F>, buffer: string, chunk: string): seq<Report> {
    var rest := Rest(buffer + chunk);
    (if |rest| > MAX_PARTIAL_LINE_CHARS then [Oversized(rest[..200] + "...")] else []) +
    Reports(parse, Complete(buffer + chunk))
  }

  class JsonLineParser<F> {
    var buffer: string
    const parse: string -> Option<F>

    constructor (parse: string -> Option<F>)
      ensures buffer == "" && this.parse == parse
    {
      buffer := "";
      this.parse := parse;
    }

    method Push(chunk: string) returns (frames: seq<F>, reports: seq<Report>)
      modifies this
      ensures buffer == Kept(old(buffer), chunk)
      ensures frames == Finished(parse, old(buffer), chunk)
      ensures reports == Complaints(parse, old(buffer), chunk)
    {
      buffer := buffer + chunk;
      var lines := Split(buffer);
      buffer, lines := lines[|lines| - 1], lines[..|lines| - 1];
      reports := [];
      if |buffer| > MAX_PARTIAL_LINE_CHARS {
        var discarded := buffer;
        buffer := "";
        reports := [Oversized(discarded[..200] + "...")];
      }
      var invalid;
      frames, invalid := ParseLines(lines);
      reports := reports + invalid;
    }

    /** The loop over the finished lines: blank ones are skipped, invalid ones reported. */
    method ParseLines(lines: seq<string>) returns (frames: seq<F>, reports: seq<Report>)
      ensures frames == Frames(parse, lines) && reports == Reports(parse, lines)
    {
      frames, reports := [], [];
      for i := 0 to |lines|
        invariant frames == Frames(parse, lines[..i])
        invariant reports == Reports(parse, lines[..i])
      {
        var line := Trim(lines[i]);
        if line != "" {
          match parse(line)
          case Some(frame) => frames := frames + [frame];
          case None => reports := reports + [NotJson(line)];
        }
        assert lines[..i] + [lines[i]] == lines[..i + 1];
        OneMoreLine(parse, lines[..i], lines[i]);
      }
      assert lines[..|lines|] == lines;
    }

    function Pending(): string
      reads this
    {
      buffer
    }
  }

  function SerializeFrame<F>(stringify: F -> string, frame: F): string { stringify(frame) + "\n" }

  // ---- runs of pushes ---------------------------------------------------------------------------

  function Concat(chunks: seq<string>): string {
    if chunks == [] then "" else Concat(chunks[..|chunks| - 1]) + chunks[|chunks| - 1]
  }

  function BufferAfter(chunks: seq<string>): string {
    if chunks == [] then "" else Kept(BufferAfter(chunks[..|chunks| - 1]), chunks[|chunks| - 1])
  }

  function FramesAfter<F>(parse: string -> Option<F>, chunks: seq<string>): seq<F> {
    if chunks == [] then []
    else
      var before := chunks[..|chunks| - 1];
      FramesAfter(parse, before) + Finished(parse, BufferAfter(before), chunks[|chunks| - 1])
  }

  /** After no chunk is the unfinished line of the stream over the cap. */
  predicate WithinCap(chunks: seq<string>) {
    forall n | 0 <= n <= |chunks| :: |Rest(Concat(chunks[..n]))| <= MAX_PARTIAL_LINE_CHARS
  }

  lemma {:induction false} RestIsShort(s: string)
    ensures '\n' !in Rest(s) && |Rest(s)| <= |s|
  {
    if s != "" {
      RestIsShort(s[1..]);
      RestStep(s);
    }
  }

  lemma {:induction false} RestStep(s: string)
    requires s != ""
    ensures Rest(s) == if s[0] != '\n' && |Split(s[1..])| == 1 then [s[0]] + Rest(s[1..]) else Rest(s[1..])
  {
  }

  /** After any push the buffer is one unfinished line, at most as long as the cap. */
  lemma {:induction false} KeptIsOneLine(buffer: string, chunk: string)
    ensures '\n' !in Kept(buffer, chunk) && |Kept(buffer, chunk)| <= MAX_PARTIAL_LINE_CHARS
  {
    RestIsShort(buffer + chunk);
  }

  /** No unfinished line is lost in silence: exactly then a report quotes its first 200 characters. */
  lemma {:induction false} LostLineIsReported<F>(parse: string -> Option<F>, buffer: string, chunk: string)
    ensures
      var rest := Rest(buffer + chunk);
      && (Kept(buffer, chunk) != rest <==> |rest| > MAX_PARTIAL_LINE_CHARS)
      && forall r | r in Complaints(parse, buffer, chunk) && r.Oversized? ::
           Kept(buffer, chunk) != rest && r == Oversized(rest[..200] + "...")
    ensures
      Kept(buffer, chunk) != Rest(buffer + chunk) ==> exists r | r in Complaints(parse, buffer, chunk) :: r.Oversized?
  {
    NoOversized(parse, Complete(buffer + chunk));
    if Kept(buffer, chunk) != Rest(buffer + chunk) {
      assert Complaints(parse, buffer, chunk)[0].Oversized?;
    }
  }

  lemma {:induction false} NoOversized<F>(parse: string -> Option<F>, lines: seq<string>)
    ensures forall r | r in Reports(parse, lines) :: r.NotJson?
  {
    if lines != [] { NoOversized(parse, lines[1..]); }
  }

  /** A finished line that is not blank is either a frame or a complaint that quotes it. */
  lemma {:induction false} EveryLineCounts<F>(parse: string -> Option<F>, lines: seq<string>, line: string)
    requires line in lines && Trim(line) != ""
    ensures match parse(Trim(line))
            case Some(frame) => frame in Frames(parse, lines)
            case None => NotJson(Trim(line)) in Reports(parse, lines)
  {
    if line != lines[0] { EveryLineCounts(parse, lines[1..], line); }
  }

  lemma {:induction false} SinglePart(s: string)
    ensures |Split(s)| == 1 ==> Split(s) == [s]
  {
    if s != "" {
      SinglePart(s[1..]);
      assert [s[0]] + s[1..] == s;
    }
  }

  /** Cutting a stream anywhere: only the unfinished line has to be carried over the cut. */
  lemma {:induction false} SplitAcross(a: string, b: string)
    ensures Split(a + b) == Complete(a) + Split(Rest(a) + b)
    decreases |a|
  {
    SinglePart(a);
    if a == "" {
      assert a + b == b == Rest(a) + b;
    } else if |Split(a)| > 1 {
      SplitAcross(a[1..], b);
      SplitStep(a, b);
    }
  }

  lemma {:induction false} SplitStep(a: string, b: string)
    requires a != "" && |Split(a)| > 1
    requires Split(a[1..] + b) == Complete(a[1..]) + Split(Rest(a[1..]) + b)
    ensures Split(a + b) == Complete(a) + Split(Rest(a) + b)
  {
    SplitFirst(a, b);
    if a[0] == '\n' {
      NewFirst("", Split(a[1..]), Split(Rest(a[1..]) + b));
    } else {
      FirstLine(a);
      LongerFirst(a[0], Split(a[1..]), Split(Rest(a[1..]) + b));
    }
  }

  lemma {:induction false} FirstLine(a: string)
    requires a != "" && a[0] != '\n' && |Split(a)| > 1
    ensures |Split(a[1..])| > 1 && Split(a) == [[a[0]] + Split(a[1..])[0]] + Split(a[1..])[1..]
    ensures Rest(a) == Rest(a[1..])
  {
  }

  lemma {:induction false} SplitFirst(a: string, b: string)
    requires a != ""
    ensures
      var tail := Split(a[1..] + b);
      Split(a + b) == if a[0] == '\n' then [""] + tail else [[a[0]] + tail[0]] + tail[1..]
  {
    assert (a + b)[1..] == a[1..] + b;
  }

  lemma {:induction false} NewFirst(first: string, tail: seq<string>, more: seq<string>)
    requires tail != []
    ensures var parts := [first] + tail;
            parts[|parts| - 1] == tail[|tail| - 1] &&
              [first] + (tail[..|tail| - 1] + more) == parts[..|parts| - 1] + more
  {
  }

  lemma {:induction false} LongerFirst(c: char, tail: seq<string>, more: seq<string>)
    requires |tail| > 1
    ensures var parts, whole := [[c] + tail[0]] + tail[1..], tail[..|tail| - 1] + more;
            parts[|parts| - 1] == tail[|tail| - 1] && [[c] + whole[0]] + whole[1..] == parts[..|parts| - 1] + more
  {
  }

  lemma {:induction false} LinesAcross(a: string, b: string)
    ensures Complete(a + b) == Complete(a) + Complete(Rest(a) + b)
    ensures Rest(a + b) == Rest(Rest(a) + b)
  {
    SplitAcross(a, b);
  }

  lemma {:induction false} FramesAppend<F>(parse: string -> Option<F>, a: seq<string>, b: seq<string>)
    ensures Frames(parse, a + b) == Frames(parse, a) + Frames(parse, b)
  {
    if a == [] {
      assert a + b == b;
    } else {
      assert (a + b)[1..] == a[1..] + b;
      FramesAppend(parse, a[1..], b);
    }
  }

  lemma {:induction false} ReportsAppend<F>(parse: string -> Option<F>, a: seq<string>, b: seq<string>)
    ensures Reports(parse, a + b) == Reports(parse, a) + Reports(parse, b)
  {
    if a == [] {
      assert a + b == b;
    } else {
      assert (a + b)[1..] == a[1..] + b;
      ReportsAppend(parse, a[1..], b);
    }
  }

  lemma {:induction false} OneMoreLine<F>(parse: string -> Option<F>, lines: seq<string>, raw: string)
    ensures
      var line := Trim(raw);
      && Frames(parse, lines + [raw]) ==
         Frames(parse, lines) + (if line != "" && parse(line).Some? then [parse(line).value] else [])
      && Reports(parse, lines + [raw]) ==
         Reports(parse, lines) + (if line != "" && parse(line).None? then [NotJson(line)] else [])
  {
    FramesAppend(parse, lines, [raw]);
    ReportsAppend(parse, lines, [raw]);
    assert [raw][1..] == [];
  }

  lemma {:induction false} WithinCapBefore(chunks: seq<string>)
    requires chunks != [] && WithinCap(chunks)
    ensures WithinCap(chunks[..|chunks| - 1])
  {
    var before := chunks[..|chunks| - 1];
    forall n | 0 <= n <= |before| ensures |Rest(Concat(before[..n]))| <= MAX_PARTIAL_LINE_CHARS {
      assert before[..n] == chunks[..n];
    }
  }

  /** However the stream is cut, the parser yields the frames of the stream and keeps its unfinished line. */
  lemma {:induction false} ChunkInvariant<F>(parse: string -> Option<F>, chunks: seq<string>)
    requires WithinCap(chunks)
    ensures FramesAfter(parse, chunks) == Frames(parse, Complete(Concat(chunks)))
    ensures BufferAfter(chunks) == Rest(Concat(chunks))
  {
    if chunks != [] {
      var before, last := chunks[..|chunks| - 1], chunks[|chunks| - 1];
      WithinCapBefore(chunks);
      ChunkInvariant(parse, before);
      LinesAcross(Concat(before), last);
      FramesAppend(parse, Complete(Concat(before)), Complete(Rest(Concat(before)) + last));
      assert chunks[..|chunks|] == chunks;
    }
  }

  /** The kept text tracks the stream at every chunk exactly when no unfinished line is over the cap. */
  lemma {:induction false} TracksStreamIffWithinCap(chunks: seq<string>)
    ensures WithinCap(chunks) <==>
            forall n | 0 <= n <= |chunks| :: BufferAfter(chunks[..n]) == Rest(Concat(chunks[..n]))
  {
    if WithinCap(chunks) {
      forall n | 0 <= n <= |chunks| ensures BufferAfter(chunks[..n]) == Rest(Concat(chunks[..n])) {
        forall m | 0 <= m <= n ensures chunks[..n][..m] == chunks[..m] {}
        ChunkInvariant((s: string) => Some(s), chunks[..n]);
      }
    } else {
      var n :| 0 <= n <= |chunks| && |Rest(Concat(chunks[..n]))| > MAX_PARTIAL_LINE_CHARS;
      assert |BufferAfter(chunks[..n])| <= MAX_PARTIAL_LINE_CHARS;
    }
  }

  /** Beyond the cap the cut does matter: one push reads the line, two pushes lose it. */
  lemma {:induction false} OversizedLineDependsOnCut<F>(parse: string -> Option<F>, line: string)
    requires |line| > MAX_PARTIAL_LINE_CHARS && '\n' !in line && Trim(line) != "" && parse(Trim(line)).Some?
    ensures FramesAfter(parse, [line + "\n"]) == [parse(Trim(line)).value]
    ensures FramesAfter(parse, [line, "\n"]) == []
  {
    NoNewline(line);
    LineSplits(line);
    OnePush(parse, line + "\n");
    OneMoreLine(parse, [], line);
    assert Complete(line + "\n") == [line] == [] + [line];
    TwoPushes(parse, line, "\n");
    LineSplits("");
    assert Complete("" + "\n") == [""];
  }

  lemma {:induction false} TwoPushes<F>(parse: string -> Option<F>, first: string, second: string)
    ensures FramesAfter(parse, [first, second]) ==
            Frames(parse, Complete(first)) + Finished(parse, Kept("", first), second)
    ensures Rest("" + first) == Rest(first)
  {
    OnePush(parse, first);
    assert [first, second][..1] == [first] && "" + first == first;
  }

  lemma {:induction false} OnePush<F>(parse: string -> Option<F>, chunk: string)
    ensures FramesAfter(parse, [chunk]) == Frames(parse, Complete(chunk))
    ensures BufferAfter([chunk]) == Kept("", chunk)
  {
    assert [chunk][..0] == [] && "" + chunk == chunk;
  }

  lemma {:induction false} NoNewline(s: string)
    requires '\n' !in s
    ensures Split(s) == [s]
  {
    if s != "" {
      NoNewline(s[1..]);
      assert [s[0]] + s[1..] == s;
    }
  }

  lemma {:induction false} LineSplits(s: string)
    requires '\n' !in s
    ensures Split(s + "\n") == [s, ""]
  {
    if s == "" {
      assert s + "\n" == "\n" && "\n"[1..] == "";
    } else {
      assert (s + "\n")[1..] == s[1..] + "\n";
      LineSplits(s[1..]);
      assert [s[0]] + s[1..] == s;
    }
  }

  // ---- white space around a frame ------------------------------------------------------------------------

  predicate Blank(s: string) { forall c | c in s :: IsSpace(c) }

  lemma {:induction false} TrimStartPadded(front: string, s: string)
    requires Blank(front)
    ensures TrimStart(front + s) == TrimStart(s)
  {
    if front == "" {
      assert front + s == s;
    } else {
      assert front[0] in front && (front + s)[1..] == front[1..] + s;
      TrimStartPadded(front[1..], s);
    }
  }

  lemma {:induction false} TrimEndPadded(s: string, back: string)
    requires Blank(back)
    ensures TrimEnd(s + back) == TrimEnd(s)
  {
    if back == "" {
      assert s + back == s;
    } else {
      var rest := back[..|back| - 1];
      assert back[|back| - 1] in back && (s + back)[..|s + back| - 1] == s + rest;
      TrimEndPadded(s, rest);
    }
  }

  lemma {:induction false} TrimStartLeaves(s: string, back: string)
    requires Blank(back)
    ensures if Blank(s) then TrimStart(s) == TrimStart(s + back) == "" else TrimStart(s + back) == TrimStart(s) + back
  {
    if s == "" {
      TrimStartPadded(back, "");
      assert s + back == back == back + "";
    } else {
      assert (s + back)[1..] == s[1..] + back;
      assert s == [s[0]] + s[1..];
      if IsSpace(s[0]) {
        TrimStartLeaves(s[1..], back);
        assert Blank(s) <==> Blank(s[1..]);
      } else {
        assert s[0] in s;
      }
    }
  }

  /** White space around a line, such as the carriage return of a CRLF ending, never matters. */
  lemma {:induction false} PaddingIgnored<F>(parse: string -> Option<F>, front: string, line: string, back: string)
    requires Blank(front) && Blank(back)
    ensures Frames(parse, [front + line + back]) == Frames(parse, [line])
    ensures Reports(parse, [front + line + back]) == Reports(parse, [line])
  {
    assert front + line + back == front + (line + back);
    TrimStartPadded(front, line + back);
    TrimStartLeaves(line, back);
    if !Blank(line) { TrimEndPadded(TrimStart(line), back); }
    assert Trim(front + line + back) == Trim(line);
    OneMoreLine(parse, [], front + line + back);
    OneMoreLine(parse, [], line);
    assert [] + [front + line + back] == [front + line + back] && [] + [line] == [line];
  }

  // ---- frames written by serializeFrame ---------------------------------------------------------

  /** JSON.stringify against JSON.parse: a round trip over text without a raw newline (RFC 8259, section 7). */
  ghost predicate Lawful<F(!new)>(stringify: F -> string, parse: string -> Option<F>) {
    forall f :: parse(stringify(f)) == Some(f) && '\n' !in stringify(f) && stringify(f) != "" &&
                Trim(stringify(f)) == stringify(f)
  }

  function SerializeAll<F>(stringify: F -> string, frames: seq<F>): string {
    if frames == [] then "" else SerializeFrame(stringify, frames[0]) + SerializeAll(stringify, frames[1..])
  }

  lemma {:induction false} LineThen(line: string, more: string)
    requires '\n' !in line
    ensures Complete(line + "\n" + more) == [line] + Complete(more)
    ensures Rest(line + "\n" + more) == Rest(more)
  {
    LineSplits(line);
    LinesAcross(line + "\n", more);
    assert "" + more == more;
  }

  lemma {:induction false} SerializedReads<F(!new)>(stringify: F -> string, parse: string -> Option<F>, frames: seq<F>)
    requires Lawful(stringify, parse)
    ensures Frames(parse, Complete(SerializeAll(stringify, frames))) == frames
    ensures Rest(SerializeAll(stringify, frames)) == ""
  {
    if frames != [] {
      var line, more := stringify(frames[0]), SerializeAll(stringify, frames[1..]);
      LineThen(line, more);
      SerializedReads(stringify, parse, frames[1..]);
      assert ([line] + Complete(more))[1..] == Complete(more);
    }
  }

  lemma {:induction false} PartialLineBound<F(!new)>(stringify: F -> string, parse: string -> Option<F>,
                                                     frames: seq<F>, part: string)
    requires Lawful(stringify, parse) && part <= SerializeAll(stringify, frames)
    requires forall f | f in frames :: |stringify(f)| <= MAX_PARTIAL_LINE_CHARS
    ensures |Rest(part)| <= MAX_PARTIAL_LINE_CHARS
  {
    if frames != [] {
      var line, more := stringify(frames[0]), SerializeAll(stringify, frames[1..]);
      if |part| > |line| {
        var behind := part[|line| + 1..];
        assert behind <= more;
        assert part == line + "\n" + behind;
        LineThen(line, behind);
        PartialLineBound(stringify, parse, frames[1..], behind);
      } else {
        assert part <= line;
        RestIsShort(part);
      }
    }
  }

  lemma {:induction false} ConcatPrefix(chunks: seq<string>, n: nat)
    requires n <= |chunks|
    ensures Concat(chunks[..n]) <= Concat(chunks)
  {
    if n < |chunks| {
      var before := chunks[..|chunks| - 1];
      ConcatPrefix(before, n);
      assert before[..n] == chunks[..n];
    } else {
      assert chunks[..n] == chunks;
    }
  }

  /** Serialized frames, cut anywhere, arrive as exactly the frames that were sent. */
  lemma {:induction false} FramesArrive<F(!new)>(stringify: F -> string, parse: string -> Option<F>, frames: seq<F>,
                                                 chunks: seq<string>)
    requires Lawful(stringify, parse) && Concat(chunks) == SerializeAll(stringify, frames)
    requires forall f | f in frames :: |stringify(f)| <= MAX_PARTIAL_LINE_CHARS
    ensures FramesAfter(parse, chunks) == frames && BufferAfter(chunks) == ""
  {
    forall n | 0 <= n <= |chunks| ensures |Rest(Concat(chunks[..n]))| <= MAX_PARTIAL_LINE_CHARS {
      ConcatPrefix(chunks, n);
      PartialLineBound(stringify, parse, frames, Concat(chunks[..n]));
    }
    ChunkInvariant(parse, chunks);
    SerializedReads(stringify, parse, frames);
  }
}
