/** The example program: an I2C target whose writes may fail, and what ends up on the panel. */
module Ssd1306Example {
  import opened Framebuffer
  import opened Ssd1306Text
  import opened Ssd1306Panel

  datatype WriteResult = Sent | NoState | InvalidSize | NativeError(code: int)

  const MAX_WRITE := 256

  /** An adapter: whether it has device state, the payloads that reached the target, and the codes
      that the coming native calls return (0 is success; calls beyond the script succeed). */
  datatype Link = Link(attached: bool, sent: seq<seq<bv8>>, script: seq<int>)

  function Send(l: Link, data: seq<bv8>): (Link, WriteResult) {
    if !l.attached then (l, NoState)
    else if |data| == 0 || |data| > MAX_WRITE then (l, InvalidSize)
    else if |l.script| == 0 then (l.(sent := l.sent + [data]), Sent)
    else if l.script[0] != 0 then (l.(script := l.script[1..]), NativeError(l.script[0]))
    else (l.(sent := l.sent + [data], script := l.script[1..]), Sent)
  }

  /** Writes one after the other; an exception ends the run. */
  function SendAll(l: Link, writes: seq<seq<bv8>>): (Link, WriteResult)
    decreases |writes|
  {
    if |writes| == 0 then (l, Sent)
    else
      var (l', r) := Send(l, writes[0]);
      if r.Sent? then SendAll(l', writes[1..]) else (l', r)
  }

  lemma {:induction false} SendAllAppend(l: Link, a: seq<seq<bv8>>, b: seq<seq<bv8>>)
    ensures var (l', r) := SendAll(l, a);
            SendAll(l, a + b) == if r.Sent? then SendAll(l', b) else (l', r)
    decreases |a|
  {
    if |a| == 0 {
      assert a + b == b;
    } else {
      SendAllAppend(Send(l, a[0]).0, a[1..], b);
      assert (a + b)[1..] == a[1..] + b;
    }
  }

  /** The first `k` writes went through; the next one decides. */
  lemma OneMore(l: Link, writes: seq<seq<bv8>>, k: nat, now: Link)
    requires k < |writes| && SendAll(l, writes[..k]) == (now, Sent)
    ensures var (l', r) := Send(now, writes[k]);
            if r.Sent? then SendAll(l, writes[..k + 1]) == (l', Sent) else SendAll(l, writes) == (l', r)
  {
    var (l', r) := Send(now, writes[k]);
    SendAllAppend(l, writes[..k], [writes[k]]);
    assert writes[..k + 1] == writes[..k] + [writes[k]];
    assert SendAll(now, [writes[k]]) == (l', r);
    SendAllAppend(l, writes[..k + 1], writes[k + 1..]);
    assert writes == writes[..k + 1] + writes[k + 1..];
  }

  lemma NothingYet(l: Link, writes: seq<seq<bv8>>)
    ensures SendAll(l, writes[..0]) == (l, Sent)
  {
  }

  /** The number of writes, of `n`, that the native layer lets through. */
  function Accepted(script: seq<int>, n: nat): (k: nat)
    ensures k <= n && (k < n ==> k < |script|)
  {
    if n == 0 || (|script| > 0 && script[0] != 0) then 0
    else 1 + Accepted(if |script| > 0 then script[1..] else script, n - 1)
  }

  /** Those up to the first error. */
  lemma {:induction false} AcceptedMeans(script: seq<int>, n: nat)
    ensures var k := Accepted(script, n);
            && (forall i | 0 <= i < k && i < |script| :: script[i] == 0)
            && (k < n ==> script[k] != 0)
  {
    if n > 0 && !(|script| > 0 && script[0] != 0) {
      var rest := if |script| > 0 then script[1..] else script;
      AcceptedMeans(rest, n - 1);
      assert forall i | 0 < i < |script| :: script[i] == rest[i - 1];
    }
  }

  lemma AcceptedStep(script: seq<int>, n: nat)
    requires n > 0
    ensures var rest, k := if |script| > 0 then script[1..] else script, Accepted(script, n);
            if |script| > 0 && script[0] != 0 then k == 0
            else k == 1 + Accepted(rest, n - 1) && (k < n ==> script[k] == rest[k - 1])
  {
  }

  lemma FirstAccepted(writes: seq<seq<bv8>>, k: nat)
    requires 0 < k <= |writes|
    ensures writes[..k] == [writes[0]] + writes[1..][..k - 1]
  {
  }

  /** One valid write on a device: it arrives, unless the native layer reports an error. */
  lemma SendMeaning(l: Link, data: seq<bv8>)
    requires l.attached && 1 <= |data| <= MAX_WRITE
    ensures var (l', r) := Send(l, data);
            && l'.attached && l'.script == (if |l.script| > 0 then l.script[1..] else l.script)
            && (if |l.script| > 0 && l.script[0] != 0 then r == NativeError(l.script[0]) && l'.sent == l.sent
                else r == Sent && l'.sent == l.sent + [data])
  {
  }

  /** What a run of valid writes amounts to: all of them arrive, or those before the first native
      error, in order and each once; the error is passed on. */
  lemma {:induction false} SendAllMeaning(l: Link, writes: seq<seq<bv8>>)
    requires l.attached && forall i | 0 <= i < |writes| :: 1 <= |writes[i]| <= MAX_WRITE
    ensures var (l', r), k := SendAll(l, writes), Accepted(l.script, |writes|);
            && l'.sent == l.sent + writes[..k]
            && (r == Sent <==> k == |writes|)
            && (k < |writes| ==> r == NativeError(l.script[k]))
    decreases |writes|
  {
    hide Send, Accepted;
    if |writes| == 0 {
      assert l.sent + writes[..0] == l.sent;
    } else {
      SendMeaning(l, writes[0]);
      AcceptedStep(l.script, |writes|);
      var (next, r) := Send(l, writes[0]);
      var k := Accepted(l.script, |writes|);
      if r.Sent? {
        SendAllMeaning(next, writes[1..]);
        FirstAccepted(writes, k);
        assert l.sent + [writes[0]] + writes[1..][..k - 1] == l.sent + writes[..k];
      } else {
        assert l.sent + writes[..0] == l.sent;
      }
    }
  }

  class I2cDevice {
    var attached: bool
    var sent: seq<seq<bv8>>
    var script: seq<int>

    function View(): Link
      reads this
    {
      Link(attached, sent, script)
    }

    /** `I2cDevice::write` */
    method Write(data: seq<bv8>) returns (r: WriteResult)
      modifies this
      ensures (View(), r) == Send(old(View()), data)
      ensures r == NoState <==> !old(attached)
      ensures r == InvalidSize <==> old(attached) && (|data| == 0 || |data| > 256)
      ensures r.NativeError? ==> |old(script)| > 0 && r.code == old(script)[0] != 0
      ensures sent == if r == Sent then old(sent) + [data] else old(sent)
    {
      if !attached { return NoState; }
      if |data| == 0 || |data| > MAX_WRITE { return InvalidSize; }
      if |script| > 0 {
        var code := script[0];
        script := script[1..];
        if code != 0 { return NativeError(code); }
      }
      sent := sent + [data];
      return Sent;
    }
  }

  method SendCommand(display: I2cDevice, value: bv8) returns (r: WriteResult)
    modifies display
    ensures (display.View(), r) == Send(old(display.View()), CommandWrite(value))
  {
    r := display.Write([0x00, value]);
  }

  method Initialize(display: I2cDevice) returns (r: WriteResult)
    modifies display
    ensures (display.View(), r) == SendAll(old(display.View()), InitializeWrites(|INITIALIZE|))
  {
    ghost var start, writes := display.View(), InitializeWrites(|INITIALIZE|);
    r := Sent;
    for i := 0 to |INITIALIZE|
      invariant SendAll(start, writes[..i]) == (display.View(), Sent) && r == Sent
    {
      InitializeWriteAt(|INITIALIZE|, i);
      OneMore(start, writes, i, display.View());
      r := SendCommand(display, INITIALIZE[i]);
      if !r.Sent? { return; }
    }
    assert writes[..|writes|] == writes;
  }

  lemma {:induction false} InitializeWriteAt(n: nat, i: nat)
    requires i < n <= |INITIALIZE|
    ensures InitializeWrites(n)[i] == CommandWrite(INITIALIZE[i])
  {
    if i < n - 1 { InitializeWriteAt(n - 1, i); }
  }

  /** The writes of one page of `flush`. */
  function PageWrite(frame: Frame, page: nat, i: nat): seq<bv8>
    requires page < PAGES && i < PAGE_WRITES
  {
    if i < 3 then PointerWrites(page)[i] else ChunkWrite(frame, page, i - 3)
  }

  lemma {:induction false} ChunkWriteAt(frame: Frame, page: nat, n: nat, i: nat)
    requires page < PAGES && i < n <= CHUNKS
    ensures ChunkWrites(frame, page, n)[i] == ChunkWrite(frame, page, i)
  {
    if i < n - 1 { ChunkWriteAt(frame, page, n - 1, i); }
  }

  lemma {:induction false} FlushWriteAt(frame: Frame, n: nat, page: nat, i: nat)
    requires page < n <= PAGES && i < PAGE_WRITES
    ensures PageWrites(frame, n)[page * PAGE_WRITES + i] == PageWrite(frame, page, i)
  {
    var before, head, tail := PageWrites(frame, n - 1), PointerWrites(n - 1), ChunkWrites(frame, n - 1, CHUNKS);
    assert PageWrites(frame, n) == before + head + tail;
    hide PageWrites, ChunkWrites, ChunkWrite, PageCommand, PointerWrites;
    var at := page * PAGE_WRITES + i;
    if page < n - 1 {
      FlushWriteAt(frame, n - 1, page, i);
      assert (before + head + tail)[at] == before[at];
    } else if i >= 3 {
      ChunkWriteAt(frame, page, CHUNKS, i - 3);
      assert (before + head + tail)[at] == tail[i - 3];
    } else {
      assert (before + head + tail)[at] == head[i];
    }
  }

  /** The 44 writes of `flush` one by one: for each page three commands, page first, then the low and the high
      half of column 0, and then its 128 bytes in eight chunks. */
  lemma FlushIs(frame: Frame, page: nat)
    requires page < 4
    ensures |FlushWrites(frame)| == 44
    ensures FlushWrites(frame)[11 * page] == [0x00, [0xB0, 0xB1, 0xB2, 0xB3][page]]
    ensures FlushWrites(frame)[11 * page + 1] == [0x00, 0x00]
    ensures FlushWrites(frame)[11 * page + 2] == [0x00, 0x10]
    ensures forall chunk | 0 <= chunk < 8 ::
              FlushWrites(frame)[11 * page + 3 + chunk]
              == [0x40] + frame[128 * page + 16 * chunk..128 * page + 16 * chunk + 16]
  {
    hide FlushWrites, PageWrites, PointerWrites, ChunkWrite;
    PointersAre(page);
    FlushWriteIs(frame, page, 0);
    FlushWriteIs(frame, page, 1);
    FlushWriteIs(frame, page, 2);
    forall chunk: nat | chunk < 8
      ensures FlushWrites(frame)[11 * page + 3 + chunk]
              == [0x40] + frame[128 * page + 16 * chunk..128 * page + 16 * chunk + 16]
    {
      FlushWriteIs(frame, page, 3 + chunk);
      ChunkAt(frame, page, chunk);
    }
  }

  lemma FlushWriteIs(frame: Frame, page: nat, i: nat)
    requires page < 4 && i < 11
    ensures |FlushWrites(frame)| == 44
    ensures FlushWrites(frame)[11 * page + i]
            == if i < 3 then PointerWrites(page)[i] else ChunkWrite(frame, page, i - 3)
  {
    FlushWriteAt(frame, PAGES, page, i);
    hide PageWrites, PointerWrites, ChunkWrite;
  }

  lemma PageByte(page: nat)
    requires page < 4
    ensures PageCommand(page) == [0xB0, 0xB1, 0xB2, 0xB3][page]
  {
    var commands: seq<bv8> := [0xB0, 0xB1, 0xB2, 0xB3];
    assert PageCommand(page) as int == 176 + page == commands[page] as int;
  }

  lemma PointersAre(page: nat)
    requires page < 4
    ensures PointerWrites(page)[0] == [0x00, [0xB0, 0xB1, 0xB2, 0xB3][page]]
    ensures PointerWrites(page)[1] == [0x00, 0x00]
    ensures PointerWrites(page)[2] == [0x00, 0x10]
  {
    PageByte(page);
    hide PageCommand;
  }

  /** The commands of `initialize`: off, clock, height 32, offset, start line, charge pump, horizontal
      addressing, orientation, pins, contrast, precharge, level, RAM, not inverted, no scrolling, on. */
  lemma InitializeIs(i: nat)
    requires i < 26
    ensures InitializeWrites(26)[i]
            == [0x00, [0xAE, 0xD5, 0x80, 0xA8, 0x1F, 0xD3, 0x00, 0x40, 0x8D, 0x14, 0x20, 0x00, 0xA1,
                       0xC8, 0xDA, 0x02, 0x81, 0x8F, 0xD9, 0xF1, 0xDB, 0x40, 0xA4, 0xA6, 0x2E, 0xAF][i]]
  {
    InitializeWriteAt(26, i);
    hide InitializeWrites;
  }

  lemma ChunkAt(frame: Frame, page: nat, chunk: nat)
    requires page < PAGES && chunk < CHUNKS
    ensures var begin := page * WIDTH + CHUNK * chunk;
            begin + CHUNK <= SIZE && ChunkWrite(frame, page, chunk) == [0x40] + frame[begin..begin + CHUNK]
    ensures FlushWrites(frame) == PageWrites(frame, PAGES)
  {
  }

  method Flush(display: I2cDevice, frame: array<bv8>) returns (r: WriteResult)
    requires frame.Length == SIZE
    modifies display
    ensures (display.View(), r) == SendAll(old(display.View()), FlushWrites(frame[..]))
  {
    hide SendAll, Send, PageWrites, ChunkWrites, FlushWrites, I2cDevice.View;
    ghost var start, writes := display.View(), FlushWrites(frame[..]);
    NothingYet(start, writes);
    r := Sent;
    for page := 0 to PAGES
      invariant SendAll(start, writes[..page * PAGE_WRITES]) == (display.View(), Sent) && r == Sent
    {
      r := SelectPage(display, page, start, frame[..]);
      if !r.Sent? { return; }
      var column := 0;
      ghost var done: nat := 0;
      while column < WIDTH
        invariant column == CHUNK * done && done <= CHUNKS
        invariant SendAll(start, writes[..page * PAGE_WRITES + 3 + done]) == (display.View(), Sent) && r == Sent
      {
        r := SendChunk(display, frame, page, column, start, done);
        if !r.Sent? { return; }
        column, done := column + CHUNK, done + 1;
      }
    }
    assert writes[..|writes|] == writes;
  }

  /** One turn of the inner loop: sixteen bytes of the page from `column` on. */
  method SendChunk(display: I2cDevice, frame: array<bv8>, page: nat, column: nat, ghost start: Link, ghost done: nat)
    returns (r: WriteResult)
    requires frame.Length == SIZE && page < PAGES && column == CHUNK * done && done < CHUNKS
    requires SendAll(start, FlushWrites(frame[..])[..page * PAGE_WRITES + 3 + done]) == (display.View(), Sent)
    modifies display
    ensures if r.Sent?
            then SendAll(start, FlushWrites(frame[..])[..page * PAGE_WRITES + 3 + done + 1]) == (display.View(), Sent)
            else SendAll(start, FlushWrites(frame[..])) == (display.View(), r)
  {
    hide SendAll, Send, PageWrites, ChunkWrites, FlushWrites, I2cDevice.View;
    ChunkAt(frame[..], page, done);
    var begin := page * WIDTH + column;
    var chunk := [0x40] + frame[begin..begin + CHUNK];
    assert chunk == [0x40] + frame[..][begin..begin + CHUNK];
    FlushWriteAt(frame[..], PAGES, page, 3 + done);
    OneMore(start, FlushWrites(frame[..]), page * PAGE_WRITES + 3 + done, display.View());
    r := display.Write(chunk);
  }

  /** The three pointer commands at the head of the page loop. */
  method SelectPage(display: I2cDevice, page: nat, ghost start: Link, ghost frame: Frame) returns (r: WriteResult)
    requires page < PAGES
    requires SendAll(start, FlushWrites(frame)[..page * PAGE_WRITES]) == (display.View(), Sent)
    modifies display
    ensures if r.Sent? then SendAll(start, FlushWrites(frame)[..page * PAGE_WRITES + 3]) == (display.View(), Sent)
            else SendAll(start, FlushWrites(frame)) == (display.View(), r)
  {
    ghost var writes := FlushWrites(frame);
    assert writes == PageWrites(frame, PAGES);
    hide SendAll, Send, PageWrites, ChunkWrites, ChunkWrite, FlushWrites, PageCommand, I2cDevice.View;
    FlushWriteAt(frame, PAGES, page, 0);
    FlushWriteAt(frame, PAGES, page, 1);
    FlushWriteAt(frame, PAGES, page, 2);
    OneMore(start, writes, page * PAGE_WRITES, display.View());
    r := SendCommand(display, PageCommand(page));
    if !r.Sent? { return; }
    OneMore(start, writes, page * PAGE_WRITES + 1, display.View());
    r := SendCommand(display, 0x00);
    if !r.Sent? { return; }
    OneMore(start, writes, page * PAGE_WRITES + 2, display.View());
    r := SendCommand(display, 0x10);
  }

  /* ---------- from text to panel ---------- */

  /** `Framebuffer framebuffer{}` */
  function Blank(): Frame {
    seq(SIZE, _ => 0x00)
  }

  /** What the viewer sees at (px, py). */
  predicate Lit(p: Panel, px: int, py: int)
    requires p.Valid() && OnScreen(px, py)
  {
    Bit(p.At(py / 8, px), py % 8)
  }

  /** Everything that `main` sends for a text. */
  function Session(x: int, y: int, text: string): seq<seq<bv8>> {
    InitializeWrites(|INITIALIZE|) + FlushWrites(Painted(Blank(), x, y, text))
  }

  /** `main`, once it has its display. */
  method Run(display: I2cDevice, x: int32, y: int32, text: string) returns (r: WriteResult)
    requires x as int + GLYPH_WIDTH * |text| < 0x8000_0000 && y as int + GLYPH_HEIGHT - 1 < 0x8000_0000
    modifies display
    ensures (display.View(), r) == SendAll(old(display.View()), Session(x as int, y as int, text))
  {
    hide SendAll, FlushWrites, InitializeWrites, Painted;
    ghost var image := Painted(Blank(), x as int, y as int, text);
    SendAllAppend(display.View(), InitializeWrites(|INITIALIZE|), FlushWrites(image));
    r := Initialize(display);
    if !r.Sent? { return; }
    var frame := new bv8[SIZE](_ => 0x00);
    assert frame[..] == Blank();
    DrawText(frame, x, y, text);
    r := Flush(display, frame);
  }

  /** A flushed frame is lit pixel by pixel, if the panel obeys the pointer commands or has its
      pointer at the origin. */
  lemma FlushedIsLit(p: Panel, frame: Frame, px: int, py: int)
    requires p.Ready() && (p.honours || (p.horizontal && p.Address() == 0)) && OnScreen(px, py)
    ensures Lit(Feed(p, FlushWrites(frame)), px, py) <==> Pixel(frame, px, py)
  {
    hide Feed, FlushWrites, Bit;
    var q, page := Feed(p, FlushWrites(frame)), py / 8;
    if p.honours {
      FlushCopies(p, frame);
      assert q.At(page, px) == frame[page * WIDTH + px];
    } else {
      HorizontalFlush(p, frame);
      assert q.ram[page * WIDTH + px] == frame[page * WIDTH + px];
    }
  }

  /** The whole example: a panel between commands, obeying the pointer commands or with its pointer at
      the origin, shows exactly the text, wherever it was placed and whatever was shown before. */
  lemma SessionShowsText(p: Panel, x: int, y: int, text: string, px: int, py: int)
    requires p.Ready() && (p.honours || p.Address() == 0) && OnScreen(px, py)
    ensures Lit(Feed(p, Session(x, y, text)), px, py) <==> Inked(x, y, text, px, py)
  {
    hide Feed, FlushWrites, InitializeWrites, Inked, Painted, Lit;
    var image := Painted(Blank(), x, y, text);
    FeedConcat(p, InitializeWrites(|INITIALIZE|), FlushWrites(image));
    InitializeSelectsHorizontal(p);
    FlushedIsLit(p.(horizontal := true), image, px, py);
    PaintedPixel(Blank(), x, y, text, px, py);
    assert !Pixel(Blank(), px, py);
  }

  /** All 70 writes of a session are of a size that the adapter accepts, so only a missing device or a
      native error can stop it; then the panel has received the writes before the error. */
  lemma SessionStopsOnlyOnErrors(l: Link, x: int, y: int, text: string)
    requires l.attached
    ensures var (l', r), k := SendAll(l, Session(x, y, text)), Accepted(l.script, 70);
            && |Session(x, y, text)| == 70 && l'.sent == l.sent + Session(x, y, text)[..k]
            && (r == Sent <==> k == 70) && (k < 70 ==> r == NativeError(l.script[k]))
  {
    hide SendAll, FlushWrites, InitializeWrites, Painted;
    var image := Painted(Blank(), x, y, text);
    var writes := Session(x, y, text);
    assert FlushWrites(image) == writes[26..];
    forall i | 0 <= i < |writes| ensures 1 <= |writes[i]| <= MAX_WRITE {
      if i < 26 {
        InitializeWriteAt(26, i);
      } else {
        FlushWriteSize(image, i - 26);
      }
    }
    SendAllMeaning(l, writes);
  }

  lemma FlushWriteSize(frame: Frame, i: nat)
    requires i < 44
    ensures 1 <= |FlushWrites(frame)[i]| <= 17
  {
    FlushWriteAt(frame, PAGES, i / PAGE_WRITES, i % PAGE_WRITES);
  }
}
