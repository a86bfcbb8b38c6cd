/** The browser's incremental reader of a server-sent event stream. */
module EventStream {
  import opened Prelude

  // ------------------------------------------------------------ frame ends

  predicate LfLf(b: string, i: nat) {
    i + 2 <= |b| && b[i] == '\n' && b[i + 1] == '\n'
  }

  predicate CrLfCrLf(b: string, i: nat) {
    i + 4 <= |b| && b[i] == '\r' && b[i + 1] == '\n' && b[i + 2] == '\r' && b[i + 3] == '\n'
  }

  predicate EndsHere(b: string, i: nat) { LfLf(b, i) || CrLfCrLf(b, i) }

  function SepAt(b: string, i: nat): nat { if LfLf(b, i) then 2 else 4 }

  /** End of the first separator at or after `i`. */
  function EndFrom(b: string, i: nat): (e: Option<nat>)
    ensures e.Some? ==> i + 2 <= e.value <= |b|
    decreases |b| - i
  {
    if i >= |b| then None
    else if EndsHere(b, i) then Some(i + SepAt(b, i))
    else EndFrom(b, i + 1)
  }

  function FrameEnd(b: string): (e: Option<nat>)
    ensures e.Some? ==> 2 <= e.value <= |b|
  {
    EndFrom(b, 0)
  }

  /** `findSseFrameEnd`, with -1 for none. */
  method FindSseFrameEnd(buffer: string) returns (end: int)
    ensures end == if FrameEnd(buffer).Some? then FrameEnd(buffer).value else -1
  {
    var index := 0;
    while index < |buffer|
      invariant 0 <= index <= |buffer|
      invariant FrameEnd(buffer) == EndFrom(buffer, index)
    {
      if LfLf(buffer, index) {
        return index + 2;
      }
      if CrLfCrLf(buffer, index) {
        return index + 4;
      }
      index := index + 1;
    }
    end := -1;
  }

  /** `splitSseFrame`, its separator test as written: four characters exactly when the character four
      before the end is a carriage return. */
  function SplitSseFrame(b: string, end: nat): (r: (string, string))
    requires 2 <= end <= |b|
    ensures r.1 == b[end..]
  {
    var separator := if end >= 4 && b[end - 4] == '\r' then 4 else 2;
    (b[..end - separator], b[end..])
  }

  // ------------------------------------------------------------ what the separator test does

  lemma {:induction false} EndFromMeans(b: string, i: nat)
    ensures EndFrom(b, i).Some? ==>
      exists k ::
        i <= k && EndsHere(b, k) && EndFrom(b, i).value == k + SepAt(b, k) && forall j :: i <= j < k ==> !EndsHere(b, j)
    ensures EndFrom(b, i).None? ==> forall j :: i <= j ==> !EndsHere(b, j)
    decreases |b| - i
  {
    if i < |b| && !EndsHere(b, i) {
      EndFromMeans(b, i + 1);
    }
  }

  lemma {:induction false} EndFromIs(b: string, i: nat, k: nat)
    requires i <= k && EndsHere(b, k) && forall j :: i <= j < k ==> !EndsHere(b, j)
    ensures EndFrom(b, i) == Some(k + SepAt(b, k))
    decreases k - i
  {
    if i < k {
      EndFromIs(b, i + 1, k);
    }
  }

  /** The length of the separator that ends at the frame end: its last-but-one character is a carriage
      return exactly when it is CR LF CR LF. */
  function Separator(b: string, end: nat): nat
    requires 2 <= end <= |b|
  {
    if b[end - 2] == '\n' then 2 else 4
  }

  /** The split takes off exactly the separator, unless the separator is LF LF and the character two
      before it is a carriage return; then it also takes off the two characters before the separator. */
  lemma SplitTakesTheSeparator(b: string, end: nat)
    requires FrameEnd(b) == Some(end)
    ensures end >= Separator(b, end)
    ensures
      var lost := b[end - 2] == '\n' && end >= 4 && b[end - 4] == '\r';
      && (SplitSseFrame(b, end).0 == b[..end - Separator(b, end)] <==> !lost)
      && (lost ==> SplitSseFrame(b, end).0 == b[..end - 4])
  {
    EndFromMeans(b, 0);
    if end >= 4 {
      assert |b[..end - 4]| != |b[..end - 2]|;
    }
  }

  /** A lone carriage return two characters before the blank line costs the line's last character. */
  lemma LoneReturnLosesText()
    ensures FrameEnd("x\ry\n\n") == Some(5) && SplitSseFrame("x\ry\n\n", 5) == ("x", "")
  {
    var b := "x\ry\n\n";
    assert !EndsHere(b, 0) && !EndsHere(b, 1) && !EndsHere(b, 2) && EndsHere(b, 3);
    EndFromIs(b, 0, 3);
    assert b[..1] == "x" && b[5..] == "";
  }

  // ------------------------------------------------------------ frames of a text

  /** All complete frames of a text, and what follows the last one. */
  function Frames(text: string): (r: (seq<string>, string))
    decreases |text|
  {
    var end := FrameEnd(text);
    if end.None? then ([], text)
    else
      var split := SplitSseFrame(text, end.value);
      var more := Frames(split.1);
      ([split.0] + more.0, more.1)
  }

  /** More text after a frame end leaves that end where it is. */
  lemma EndIsStable(b: string, more: string)
    requires FrameEnd(b).Some?
    ensures FrameEnd(b + more) == FrameEnd(b)
  {
    EndFromMeans(b, 0);
    var k :|
      0 <= k && EndsHere(b, k) && FrameEnd(b).value == k + SepAt(b, k) && forall j :: 0 <= j < k ==> !EndsHere(b, j);
    var longer := b + more;
    assert longer[..|b|] == b;
    assert forall j :: 0 <= j < |b| ==> longer[j] == b[j];
    forall j | 0 <= j < k ensures !EndsHere(longer, j) {
      assert !EndsHere(b, j);
    }
    assert EndsHere(longer, k) && SepAt(longer, k) == SepAt(b, k);
    EndFromIs(longer, 0, k);
  }

  /** The frames of a longer text are those of its beginning, then those of the rest. */
  lemma {:induction false} FramesExtend(a: string, b: string)
    ensures Frames(a + b).0 == Frames(a).0 + Frames(Frames(a).1 + b).0
    ensures Frames(a + b).1 == Frames(Frames(a).1 + b).1
    decreases |a|
  {
    if FrameEnd(a).Some? {
      var end := FrameEnd(a).value;
      EndIsStable(a, b);
      assert (a + b)[end..] == a[end..] + b;
      assert SplitSseFrame(a + b, end).0 == SplitSseFrame(a, end).0;
      FramesExtend(a[end..], b);
      calc {
        Frames(a + b).0;
        [SplitSseFrame(a, end).0] + Frames(a[end..] + b).0;
        [SplitSseFrame(a, end).0] + (Frames(a[end..]).0 + Frames(Frames(a[end..]).1 + b).0);
        Frames(a).0 + Frames(Frames(a).1 + b).0;
      }
    }
  }

  lemma {:induction false} RestHasNoFrame(a: string)
    ensures FrameEnd(Frames(a).1).None?
    decreases |a|
  {
    if FrameEnd(a).Some? {
      RestHasNoFrame(a[FrameEnd(a).value..]);
    }
  }

  /** Text without a line feed completes no frame. */
  lemma NoLineFeedNoFrame(rest: string, tail: string)
    requires FrameEnd(rest).None? && '\n' !in tail
    ensures FrameEnd(rest + tail).None?
  {
    EndFromMeans(rest, 0);
    EndFromMeans(rest + tail, 0);
    var whole := rest + tail;
    forall k: nat ensures !EndsHere(whole, k) {
      assert !EndsHere(rest, k);
      assert forall j :: |rest| <= j < |whole| ==> whole[j] in tail;
    }
  }

  // ------------------------------------------------------------ the reader

  /** Frames up to and including the first terminal one. */
  function UntilTerminal(frames: seq<string>, terminal: string -> bool): seq<string> {
    if frames == [] then []
    else if terminal(frames[0]) then [frames[0]]
    else [frames[0]] + UntilTerminal(frames[1..], terminal)
  }

  predicate Stops(frames: seq<string>, terminal: string -> bool) {
    exists i :: 0 <= i < |frames| && terminal(frames[i])
  }

  lemma {:induction false} UntilTerminalOfSum(a: seq<string>, b: seq<string>, terminal: string -> bool)
    ensures UntilTerminal(a + b, terminal) ==
            if Stops(a, terminal) then UntilTerminal(a, terminal) else a + UntilTerminal(b, terminal)
    ensures Stops(a + b, terminal) <==> Stops(a, terminal) || Stops(b, terminal)
  {
    if a == [] {
      assert a + b == b;
    } else {
      assert (a + b)[1..] == a[1..] + b;
      UntilTerminalOfSum(a[1..], b, terminal);
      assert forall f :: (f in a <==> f == a[0] || f in a[1..]) && (f in a + b <==> f in a || f in b);
      StopsIsMember(a, terminal);
      StopsIsMember(a[1..], terminal);
      StopsIsMember(b, terminal);
      StopsIsMember(a + b, terminal);
    }
  }

  lemma StopsIsMember(frames: seq<string>, terminal: string -> bool)
    ensures Stops(frames, terminal) <==> exists f :: f in frames && terminal(f)
  {
  }

  function Concat(chunks: seq<string>): string {
    if chunks == [] then "" else Concat(chunks[..|chunks| - 1]) + chunks[|chunks| - 1]
  }

  predicate IsSpace(c: char) {
    || c in " \t\n\r" || c == 0x0B as char || c == 0x0C as char || c == 0xA0 as char || c == 0xFEFF as char
    || c == 0x1680 as char || 0x2000 as char <= c <= 0x200A as char || c == 0x2028 as char || c == 0x2029 as char
    || c == 0x202F as char || c == 0x205F as char || c == 0x3000 as char
  }

  /** `trim()` leaves nothing. */
  predicate Blank(s: string) {
    forall i :: 0 <= i < |s| ==> IsSpace(s[i])
  }

  /** What the reader dispatches for a decoded text and the decoder's final flush: the frames up to a
      terminal one; without a terminal one, also what is left at the end, unless blank. */
  function Dispatched(text: string, tail: string, terminal: string -> bool): seq<string> {
    var frames := Frames(text);
    if Stops(frames.0, terminal) then UntilTerminal(frames.0, terminal)
    else if Blank(frames.1 + tail) then frames.0
    else frames.0 + [frames.1 + tail]
  }

  lemma {:induction false} ConcatPrefix(chunks: seq<string>, n: nat)
    requires n <= |chunks|
    ensures exists rest :: Concat(chunks) == Concat(chunks[..n]) + rest
    decreases |chunks|
  {
    if n == |chunks| {
      assert chunks[..n] == chunks;
      assert Concat(chunks) == Concat(chunks) + "";
    } else {
      var front := chunks[..|chunks| - 1];
      assert front[..n] == chunks[..n];
      ConcatPrefix(front, n);
      var rest :| Concat(front) == Concat(chunks[..n]) + rest;
      var last := chunks[|chunks| - 1];
      assert Concat(chunks) == Concat(chunks[..n]) + rest + last == Concat(chunks[..n]) + (rest + last);
    }
  }

  /** A terminal frame in the text read so far decides what is dispatched. */
  lemma StoppedEarly(chunks: seq<string>, n: nat, terminal: string -> bool)
    requires n <= |chunks| && Stops(Frames(Concat(chunks[..n])).0, terminal)
    ensures Stops(Frames(Concat(chunks)).0, terminal)
    ensures UntilTerminal(Frames(Concat(chunks)).0, terminal) ==
            UntilTerminal(Frames(Concat(chunks[..n])).0, terminal)
  {
    ConcatPrefix(chunks, n);
    var rest :| Concat(chunks) == Concat(chunks[..n]) + rest;
    var a := Concat(chunks[..n]);
    FramesExtend(a, rest);
    UntilTerminalOfSum(Frames(a).0, Frames(Frames(a).1 + rest).0, terminal);
  }

  // ------------------------------------------------------------ reading back what the server writes

  /** A frame and the line ending of the blank line after it. */
  datatype Piece = Piece(text: string, crlf: bool)

  /** No blank line of either kind inside. */
  predicate NoBlankLine(s: string) {
    && (forall i: nat :: i + 2 <= |s| && s[i] == '\n' ==> s[i + 1] != '\n')
    && (forall i: nat :: i + 4 <= |s| && s[i] == '\r' ==> !(s[i + 1] == '\n' && s[i + 2] == '\r' && s[i + 3] == '\n'))
  }

  /** A frame that ends with its own last character; one closed by LF LF has no carriage return. */
  predicate Readable(p: Piece) {
    && NoBlankLine(p.text)
    && (p.text != "" ==> p.text[|p.text| - 1] != '\n')
    && (!p.crlf ==> '\r' !in p.text)
  }

  function BlankLine(crlf: bool): string { if crlf then "\r\n\r\n" else "\n\n" }

  function Encoded(pieces: seq<Piece>): string {
    if pieces == [] then "" else pieces[0].text + BlankLine(pieces[0].crlf) + Encoded(pieces[1..])
  }

  function Texts(pieces: seq<Piece>): (texts: seq<string>)
    ensures |texts| == |pieces|
    ensures forall i :: 0 <= i < |pieces| ==> texts[i] == pieces[i].text
  {
    seq(|pieces|, i requires 0 <= i < |pieces| => pieces[i].text)
  }

  lemma NothingEndsInside(p: Piece, more: string, j: nat)
    requires Readable(p) && j < |p.text|
    ensures !EndsHere(p.text + BlankLine(p.crlf) + more, j)
  {
    var f := p.text;
    var b := f + BlankLine(p.crlf) + more;
    assert b[j] == f[j] && b[j] in f;
    assert b[|f|] == BlankLine(p.crlf)[0];
    assert forall i :: 0 <= i < |f| ==> b[i] == f[i];
  }

  lemma SeparatorAt(f: string, crlf: bool, more: string)
    ensures
      var b, n := f + BlankLine(crlf) + more, |f| + |BlankLine(crlf)|;
      && EndsHere(b, |f|) && SepAt(b, |f|) == |BlankLine(crlf)|
      && b[..|f|] == f && b[n..] == more && (crlf ==> b[n - 4] == '\r')
  {
    var b := f + BlankLine(crlf) + more;
    assert b[|f|] == BlankLine(crlf)[0] && b[|f| + 1] == BlankLine(crlf)[1];
    if crlf {
      assert b[|f| + 2] == BlankLine(crlf)[2] && b[|f| + 3] == BlankLine(crlf)[3];
    }
  }

  lemma PieceEnd(p: Piece, more: string)
    requires Readable(p)
    ensures
      var b, end := p.text + BlankLine(p.crlf) + more, |p.text| + |BlankLine(p.crlf)|;
      FrameEnd(b) == Some(end) && SplitSseFrame(b, end) == (p.text, more)
  {
    hide EndsHere, SepAt, NoBlankLine;
    var f := p.text;
    var b := f + BlankLine(p.crlf) + more;
    forall j | 0 <= j < |f| ensures !EndsHere(b, j) {
      NothingEndsInside(p, more, j);
    }
    SeparatorAt(f, p.crlf, more);
    EndFromIs(b, 0, |f|);
    if !p.crlf && |f| >= 2 {
      assert b[|f| - 2] == f[|f| - 2] && f[|f| - 2] in f;
    }
  }

  /** Frames written with a blank line after each are read back exactly, and nothing is left. */
  lemma {:induction false} ServerFramesReadBack(pieces: seq<Piece>)
    requires forall p :: p in pieces ==> Readable(p)
    ensures Frames(Encoded(pieces)) == (Texts(pieces), "")
  {
    hide Readable, BlankLine, SplitSseFrame, FrameEnd;
    if pieces != [] {
      PieceEnd(pieces[0], Encoded(pieces[1..]));
      ServerFramesReadBack(pieces[1..]);
      assert Encoded(pieces) == pieces[0].text + BlankLine(pieces[0].crlf) + Encoded(pieces[1..]);
      assert [pieces[0].text] + Texts(pieces[1..]) == Texts(pieces);
    }
  }

  lemma NoBlankLineNoFrame(g: string)
    requires NoBlankLine(g)
    ensures Frames(g) == ([], g)
  {
    EndFromMeans(g, 0);
  }

  /** What the reader must hand out for frames `fs` followed by a text without their closing blank line, which
      the decoder's flush completes to `g`. */
  ghost predicate HandsOut(fs: seq<string>, g: string, open: bool, terminal: string -> bool, out: seq<string>) {
    && (forall k :: 0 <= k < |fs| && terminal(fs[k]) && (forall j :: 0 <= j < k ==> !terminal(fs[j])) ==> out == fs[..k + 1])
    && (open && (forall f :: f in fs ==> !terminal(f)) ==>
          && (Blank(g) ==> out == fs)
          && (!Blank(g) ==> out == fs + [g]))
  }

  /** Only white space is blank, and the four common white-space characters are. */
  lemma BlankText(s: string)
    ensures (forall i :: 0 <= i < |s| ==> s[i] in " \t\r\n") ==> Blank(s)
    ensures (exists i :: 0 <= i < |s| && '!' <= s[i] <= '~') ==> !Blank(s)
  {
  }

  lemma {:induction false} FirstTerminal(fs: seq<string>, terminal: string -> bool, k: nat)
    requires k < |fs| && terminal(fs[k]) && forall j :: 0 <= j < k ==> !terminal(fs[j])
    ensures UntilTerminal(fs, terminal) == fs[..k + 1]
  {
    if k > 0 {
      FirstTerminal(fs[1..], terminal, k - 1);
      assert fs[..k + 1] == [fs[0]] + fs[1..][..k];
    }
  }

  /** The reader hands out what was written: every frame up to and including the first terminal one; without
      a terminal one every frame, and then the unfinished last one unless it is blank. */
  lemma WrittenIsHandedOut(pieces: seq<Piece>, g: string, tail: string, terminal: string -> bool)
    requires forall p :: p in pieces ==> Readable(p)
    ensures HandsOut(Texts(pieces), g + tail, NoBlankLine(g), terminal, Dispatched(Encoded(pieces) + g, tail, terminal))
  {
    var fs, text := Texts(pieces), Encoded(pieces) + g;
    ServerFramesReadBack(pieces);
    FramesExtend(Encoded(pieces), g);
    assert "" + g == g;
    UntilTerminalOfSum(fs, Frames(g).0, terminal);
    forall k | 0 <= k < |fs| && terminal(fs[k]) && (forall j :: 0 <= j < k ==> !terminal(fs[j]))
      ensures Dispatched(text, tail, terminal) == fs[..k + 1]
    {
      FirstTerminal(fs, terminal, k);
    }
    if NoBlankLine(g) {
      NoBlankLineNoFrame(g);
      assert fs + [] == fs;
      StopsIsMember(fs, terminal);
    }
  }

  /** `consumeEventStream` after the response is open: the frames handed to dispatch depend only on the
      concatenated text and the final flush, not on where the chunks were cut. */
  method ConsumeEventStream(chunks: seq<string>, tail: string, terminal: string -> bool)
    returns (frames: seq<string>)
    ensures frames == Dispatched(Concat(chunks), tail, terminal)
    ensures forall pieces, g :: (forall p :: p in pieces ==> Readable(p)) && Concat(chunks) == Encoded(pieces) + g ==>
      HandsOut(Texts(pieces), g + tail, NoBlankLine(g), terminal, frames)
  {
    hide HandsOut;
    forall pieces, g | (forall p :: p in pieces ==> Readable(p)) && Concat(chunks) == Encoded(pieces) + g
      ensures HandsOut(Texts(pieces), g + tail, NoBlankLine(g), terminal, Dispatched(Concat(chunks), tail, terminal))
    {
      WrittenIsHandedOut(pieces, g, tail, terminal);
    }
    var buffer := "";
    frames := [];
    for n := 0 to |chunks|
      invariant (frames, buffer) == Frames(Concat(chunks[..n]))
      invariant !Stops(frames, terminal)
    {
      assert chunks[..n + 1][..n] == chunks[..n];
      ghost var text, text' := Concat(chunks[..n]), Concat(chunks[..n + 1]);
      FramesExtend(text, chunks[n]);
      buffer := buffer + chunks[n];
      while true
        invariant frames + Frames(buffer).0 == Frames(text').0 && Frames(buffer).1 == Frames(text').1
        invariant !Stops(frames, terminal)
        decreases |buffer|
      {
        var end := FindSseFrameEnd(buffer);
        if end == -1 {
          assert frames + [] == frames;
          break;
        }
        var (frame, remaining) := SplitSseFrame(buffer, end);
        ghost var more := Frames(remaining).0;
        assert Frames(buffer).0 == [frame] + more;
        assert frames + ([frame] + more) == (frames + [frame]) + more;
        UntilTerminalOfSum(frames, [frame], terminal);
        frames := frames + [frame];
        buffer := remaining;
        if terminal(frame) {
          assert [frame][0] == frame;
          UntilTerminalOfSum(frames, more, terminal);
          StoppedEarly(chunks, n + 1, terminal);
          return;
        }
        assert forall i :: 0 <= i < |[frame]| ==> [frame][i] == frame;
      }
    }
    assert chunks[..|chunks|] == chunks;
    buffer := buffer + tail;
    if !Blank(buffer) {
      frames := frames + [buffer];
    }
  }

  /** A final flush without a line feed is as good as more text. */
  lemma FlushIsText(text: string, tail: string, terminal: string -> bool)
    requires '\n' !in tail
    ensures Dispatched(text, tail, terminal) == Dispatched(text + tail, "", terminal)
  {
    FramesExtend(text, tail);
    RestHasNoFrame(text);
    var rest := Frames(text).1;
    NoLineFeedNoFrame(rest, tail);
    assert Frames(rest + tail) == ([], rest + tail);
    assert rest + tail + "" == rest + tail;
    assert Frames(text).0 + [] == Frames(text).0;
  }
}
