/** A simulated panel: what it does with the writes of the example. */
module Ssd1306Panel {
  import opened Framebuffer

  const RAM_PAGES := 8
  const RAM := WIDTH * RAM_PAGES

  /** `pending` is a command that waits for its argument byte.  `honours` tells whether the panel
      obeys the page and column commands; `horizontal` whether its pointer goes on to the next page
      after the last column, the mode chosen by `initialize`, or returns to the first column. */
  datatype Panel = Panel(honours: bool, horizontal: bool, ram: seq<bv8>, page: nat, column: nat, pending: bv8) {
    predicate Valid() {
      |ram| == RAM && page < RAM_PAGES && column < WIDTH
    }

    /** Valid, and not in the middle of a command (0x00 is no command that takes an argument). */
    predicate Ready() {
      Valid() && pending == 0
    }

    function Address(): nat {
      page * WIDTH + column
    }

    function At(page: nat, column: nat): bv8
      requires Valid() && page < RAM_PAGES && column < WIDTH
    {
      ram[page * WIDTH + column]
    }
  }

  const ADDRESSING_MODE: bv8 := 0x20

  /** The commands of `initialize` that are followed by an argument. */
  predicate TakesArgument(c: bv8) {
    || c == 0xD5 || c == 0xA8 || c == 0xD3 || c == 0x8D || c == ADDRESSING_MODE
    || c == 0xDA || c == 0x81 || c == 0xD9 || c == 0xDB
  }

  function Command(p: Panel, c: bv8): Panel {
    if p.pending == ADDRESSING_MODE then p.(horizontal := c == 0, pending := 0)
    else if p.pending != 0 then p.(pending := 0)
    else if TakesArgument(c) then p.(pending := c)
    else if !p.honours then p
    else if c & 0xF8 == 0xB0 then p.(page := (c & 0x07) as nat)
    else if c & 0xF0 == 0x00 then p.(column := p.column / 16 * 16 + (c & 0x0F) as nat)
    else if c & 0xF0 == 0x10 then p.(column := (c & 0x07) as nat * 16 + p.column % 16)
    else p
  }

  function Put(p: Panel, b: bv8): Panel
    requires p.Valid()
  {
    var ram := p.ram[p.Address() := b];
    if p.column + 1 < WIDTH then p.(ram := ram, column := p.column + 1)
    else p.(ram := ram, column := 0, page := if p.horizontal then (p.page + 1) % RAM_PAGES else p.page)
  }

  function PutAll(p: Panel, bytes: seq<bv8>): (r: Panel)
    requires p.Valid()
    ensures r.Valid() && r.honours == p.honours && r.horizontal == p.horizontal && r.pending == p.pending
  {
    if |bytes| == 0 then p else Put(PutAll(p, bytes[..|bytes| - 1]), bytes[|bytes| - 1])
  }

  /** One I2C write: a control byte, then commands (0x00) or display data (0x40).  The example sends
      one command byte at a time. */
  function Receive(p: Panel, payload: seq<bv8>): (r: Panel)
    requires p.Valid()
    ensures r.Valid()
  {
    if |payload| == 2 && payload[0] == 0x00 then CommandValid(p, payload[1]); Command(p, payload[1])
    else if |payload| > 0 && payload[0] == 0x40 then PutAll(p, payload[1..])
    else p
  }

  lemma CommandValid(p: Panel, c: bv8)
    requires p.Valid()
    ensures Command(p, c).Valid()
  {
  }

  function Feed(p: Panel, writes: seq<seq<bv8>>): (r: Panel)
    requires p.Valid()
    ensures r.Valid()
  {
    if |writes| == 0 then p else Receive(Feed(p, writes[..|writes| - 1]), writes[|writes| - 1])
  }

  lemma {:induction false} FeedConcat(p: Panel, a: seq<seq<bv8>>, b: seq<seq<bv8>>)
    requires p.Valid()
    ensures Feed(p, a + b) == Feed(Feed(p, a), b)
  {
    if |b| == 0 {
      assert a + b == a;
    } else {
      FeedConcat(p, a, b[..|b| - 1]);
      assert (a + b)[..|a + b| - 1] == a + b[..|b| - 1];
    }
  }

  lemma {:induction false} PutConcat(p: Panel, a: seq<bv8>, b: seq<bv8>)
    requires p.Valid()
    ensures PutAll(p, a + b) == PutAll(PutAll(p, a), b)
  {
    if |b| == 0 {
      assert a + b == a;
    } else {
      PutConcat(p, a, b[..|b| - 1]);
      assert (a + b)[..|a + b| - 1] == a + b[..|b| - 1];
    }
  }

  /* ---------- the writes of the example ---------- */

  const INITIALIZE: seq<bv8> := [
    0xAE, 0xD5, 0x80, 0xA8, 0x1F, 0xD3, 0x00, 0x40, 0x8D, 0x14, 0x20, 0x00, 0xA1,
    0xC8, 0xDA, 0x02, 0x81, 0x8F, 0xD9, 0xF1, 0xDB, 0x40, 0xA4, 0xA6, 0x2E, 0xAF]

  function CommandWrite(c: bv8): seq<bv8> {
    [0x00, c]
  }

  function InitializeWrites(n: nat): (w: seq<seq<bv8>>)
    requires n <= |INITIALIZE|
    ensures |w| == n
  {
    if n == 0 then [] else InitializeWrites(n - 1) + [CommandWrite(INITIALIZE[n - 1])]
  }

  const CHUNK := 16
  const CHUNKS := 8 // WIDTH / CHUNK
  const PAGE_WRITES := 11 // three pointer commands and the chunks

  function PageCommand(page: nat): bv8
    requires page < PAGES
  {
    (0xB0 + page) as bv8
  }

  function PointerWrites(page: nat): seq<seq<bv8>>
    requires page < PAGES
  {
    [CommandWrite(PageCommand(page)), CommandWrite(0x00), CommandWrite(0x10)]
  }

  function ChunkWrite(frame: Frame, page: nat, chunk: nat): (w: seq<bv8>)
    requires page < PAGES && chunk < CHUNKS
    ensures |w| == CHUNK + 1
  {
    var begin := page * WIDTH + chunk * CHUNK;
    [0x40] + frame[begin..begin + CHUNK]
  }

  function ChunkWrites(frame: Frame, page: nat, n: nat): (w: seq<seq<bv8>>)
    requires page < PAGES && n <= CHUNKS
    ensures |w| == n
  {
    if n == 0 then [] else ChunkWrites(frame, page, n - 1) + [ChunkWrite(frame, page, n - 1)]
  }

  /** The writes for the first `n` pages. */
  function PageWrites(frame: Frame, n: nat): (w: seq<seq<bv8>>)
    requires n <= PAGES
    ensures |w| == n * PAGE_WRITES
  {
    if n == 0 then [] else PageWrites(frame, n - 1) + PointerWrites(n - 1) + ChunkWrites(frame, n - 1, CHUNKS)
  }

  function FlushWrites(frame: Frame): (w: seq<seq<bv8>>)
    ensures |w| == 44
  {
    PageWrites(frame, PAGES)
  }

  /* ---------- initialize ---------- */

  /** The panel after the first `n` bytes of `initialize`. */
  function Initialized(p: Panel, n: nat): Panel
    requires n <= |INITIALIZE|
  {
    p.(horizontal := if n < 12 then p.horizontal else true,
       pending := if n in {2, 4, 6, 9, 11, 15, 17, 19, 21} then INITIALIZE[n - 1] else 0)
  }

  lemma InitializeByte(p: Panel, n: nat)
    requires n < |INITIALIZE|
    ensures Command(Initialized(p, n), INITIALIZE[n]) == Initialized(p, n + 1)
  {
    assert n < 13 ==> n == 0 || n == 1 || n == 2 || n == 3 || n == 4 || n == 5 || n == 6 || n == 7 || n == 8 || n == 9
                      || n == 10 || n == 11 || n == 12;
    assert 13 <= n ==> n == 13 || n == 14 || n == 15 || n == 16 || n == 17 || n == 18 || n == 19 || n == 20 || n == 21
                       || n == 22 || n == 23 || n == 24 || n == 25;
  }

  lemma {:induction false} InitializePrefix(p: Panel, n: nat)
    requires p.Ready() && n <= |INITIALIZE|
    ensures Feed(p, InitializeWrites(n)) == Initialized(p, n)
  {
    if n > 0 {
      InitializePrefix(p, n - 1);
      InitializeByte(p, n - 1);
      assert InitializeWrites(n)[..n - 1] == InitializeWrites(n - 1);
    }
  }

  /** `initialize` selects horizontal addressing and leaves the pointer and the RAM alone; none of its
      argument bytes is taken for a page or column command. */
  lemma InitializeSelectsHorizontal(p: Panel)
    requires p.Ready()
    ensures Feed(p, InitializeWrites(|INITIALIZE|)) == p.(horizontal := true)
  {
    InitializePrefix(p, |INITIALIZE|);
  }

  /* ---------- flush on a panel that honours page and column commands ---------- */

  /** Data that stays within a row replaces that part of the RAM. */
  lemma {:induction false} PutRow(p: Panel, bytes: seq<bv8>)
    requires p.Valid() && p.column + |bytes| <= WIDTH
    ensures var a, r := p.Address(), PutAll(p, bytes);
            && r.ram == p.ram[..a] + bytes + p.ram[a + |bytes|..]
            && (p.column + |bytes| < WIDTH ==> r.page == p.page && r.column == p.column + |bytes|)
            && (|bytes| > 0 && p.column + |bytes| == WIDTH ==> r.column == 0)
  {
    if |bytes| > 0 {
      var last, a := |bytes| - 1, p.Address();
      PutRow(p, bytes[..last]);
      StretchGrows(p.ram, bytes, a);
    }
  }

  /** One more byte after those already in place. */
  lemma StretchGrows(ram: seq<bv8>, bytes: seq<bv8>, a: nat)
    requires |bytes| > 0 && a + |bytes| <= |ram|
    ensures var last := |bytes| - 1;
            (ram[..a] + bytes[..last] + ram[a + last..])[a + last := bytes[last]]
            == ram[..a] + bytes + ram[a + |bytes|..]
  {
  }

  lemma PageCommandDecodes(p: Panel, page: nat)
    requires p.Ready() && p.honours && page < PAGES
    ensures Command(p, PageCommand(page)) == p.(page := page)
  {
    assert page == 0 || page == 1 || page == 2 || page == 3;
  }

  lemma ColumnCommandsDecode(p: Panel)
    requires p.Ready() && p.honours
    ensures Command(Command(p, 0x00), 0x10) == p.(column := 0)
  {
    var q := Command(p, 0x00);
    assert q == p.(column := p.column / 16 * 16);
    assert Command(q, 0x10) == q.(column := q.column % 16);
  }

  lemma ThreeCommands(p: Panel, a: bv8, b: bv8, c: bv8)
    requires p.Valid()
    ensures Feed(p, [CommandWrite(a), CommandWrite(b), CommandWrite(c)]) == Command(Command(Command(p, a), b), c)
  {
    hide Command;
    CommandValid(p, a);
    CommandValid(Command(p, a), b);
    var w := [CommandWrite(a), CommandWrite(b), CommandWrite(c)];
    assert w[..2] == [w[0], w[1]] && w[..2][..1] == [w[0]] && w[..2][..1][..0] == [];
    assert Feed(p, w[..2][..1]) == Command(p, a);
    assert Feed(p, w[..2]) == Command(Command(p, a), b);
  }

  /** The three pointer commands move the pointer to the start of the page. */
  lemma PointerCommands(p: Panel, page: nat)
    requires p.Ready() && page < PAGES
    ensures Feed(p, PointerWrites(page)) == if p.honours then p.(page := page, column := 0) else p
  {
    ThreeCommands(p, PageCommand(page), 0x00, 0x10);
    if p.honours {
      PageCommandDecodes(p, page);
      ColumnCommandsDecode(p.(page := page));
    } else {
      IgnoredCommand(p, page);
    }
  }

  lemma IgnoredCommand(p: Panel, page: nat)
    requires p.Ready() && !p.honours && page < PAGES
    ensures Command(p, PageCommand(page)) == p && Command(p, 0x00) == p && Command(p, 0x10) == p
  {
    assert page == 0 || page == 1 || page == 2 || page == 3;
  }

  lemma NothingSent(p: Panel)
    requires p.Valid()
    ensures Feed(p, []) == p && PutAll(p, []) == p
  {
  }

  /** The first `n` chunks of a page. */
  function Stretch(frame: Frame, page: nat, n: nat): (r: seq<bv8>)
    requires page < PAGES && n <= CHUNKS
    ensures |r| == n * CHUNK
  {
    frame[page * WIDTH..page * WIDTH + n * CHUNK]
  }

  /** The data writes of a page are one stretch of display data. */
  lemma {:induction false} ChunksAreData(p: Panel, frame: Frame, page: nat, n: nat)
    requires p.Valid() && page < PAGES && n <= CHUNKS
    ensures Feed(p, ChunkWrites(frame, page, n)) == PutAll(p, Stretch(frame, page, n))
  {
    hide Feed, PutAll;
    if n == 0 {
      NothingSent(p);
      assert Stretch(frame, page, 0) == [];
    } else {
      hide Stretch;
      ChunksAreData(p, frame, page, n - 1);
      ChunkIsData(p, frame, page, n - 1);
    }
  }

  lemma ChunkIsData(p: Panel, frame: Frame, page: nat, chunk: nat)
    requires p.Valid() && page < PAGES && chunk < CHUNKS
    requires Feed(p, ChunkWrites(frame, page, chunk)) == PutAll(p, Stretch(frame, page, chunk))
    ensures Feed(p, ChunkWrites(frame, page, chunk + 1)) == PutAll(p, Stretch(frame, page, chunk + 1))
  {
    var w, data := ChunkWrites(frame, page, chunk + 1), ChunkWrite(frame, page, chunk);
    assert w[..chunk] == ChunkWrites(frame, page, chunk);
    assert Feed(p, w) == Receive(Feed(p, w[..chunk]), data);
    hide Feed, PutAll, ChunkWrites, Stretch, ChunkWrite;
    PutConcat(p, Stretch(frame, page, chunk), data[1..]);
    StretchStep(frame, page, chunk);
  }

  lemma StretchStep(frame: Frame, page: nat, chunk: nat)
    requires page < PAGES && chunk < CHUNKS
    ensures Stretch(frame, page, chunk) + ChunkWrite(frame, page, chunk)[1..] == Stretch(frame, page, chunk + 1)
  {
  }

  /** One page of `flush`. */
  lemma PageIsData(p: Panel, frame: Frame, page: nat)
    requires p.Ready() && page < PAGES
    ensures var pointed := Feed(Feed(p, PageWrites(frame, page)), PointerWrites(page));
            Feed(p, PageWrites(frame, page + 1)) == PutAll(pointed, frame[page * WIDTH..(page + 1) * WIDTH])
  {
    hide Feed, PutAll, PointerWrites, ChunkWrites;
    var before := PageWrites(frame, page);
    assert PageWrites(frame, page + 1) == before + PointerWrites(page) + ChunkWrites(frame, page, CHUNKS);
    hide PageWrites;
    FeedConcat(p, before + PointerWrites(page), ChunkWrites(frame, page, CHUNKS));
    FeedConcat(p, before, PointerWrites(page));
    ChunksAreData(Feed(Feed(p, before), PointerWrites(page)), frame, page, CHUNKS);
    assert Stretch(frame, page, CHUNKS) == frame[page * WIDTH..(page + 1) * WIDTH];
  }

  /** The first `n` rows of `frame`, and after them those of `ram`. */
  function Over(frame: Frame, ram: seq<bv8>, n: nat): (r: seq<bv8>)
    requires n <= PAGES && |ram| == RAM
    ensures |r| == RAM
  {
    frame[..n * WIDTH] + ram[n * WIDTH..]
  }

  lemma OverStep(frame: Frame, ram: seq<bv8>, n: nat)
    requires n < PAGES && |ram| == RAM
    ensures var now, a, b := Over(frame, ram, n), n * WIDTH, (n + 1) * WIDTH;
            now[..a] + frame[a..b] + now[b..] == Over(frame, ram, n + 1)
  {
  }

  /** One page of `flush` on a panel that has received the pages before it. */
  lemma FlushedPage(q: Panel, frame: Frame, page: nat, before: seq<bv8>)
    requires q.Ready() && q.honours && page < PAGES && |before| == RAM && q.ram == Over(frame, before, page)
    ensures var r := PutAll(Feed(q, PointerWrites(page)), frame[page * WIDTH..(page + 1) * WIDTH]);
            && r.Ready() && r.honours == q.honours && r.horizontal == q.horizontal
            && r.ram == Over(frame, before, page + 1)
  {
    hide Over, PointerWrites, Feed;
    var a, b := page * WIDTH, (page + 1) * WIDTH;
    PointerCommands(q, page);
    PutRow(q.(page := page, column := 0), frame[a..b]);
    hide PutAll;
    OverStep(frame, before, page);
  }

  /** After the first `n` pages of `flush` the RAM holds them, and its other pages are as before. */
  lemma {:induction false} FlushedPages(p: Panel, frame: Frame, n: nat)
    requires p.Ready() && p.honours && n <= PAGES
    ensures var r := Feed(p, PageWrites(frame, n));
            r.Ready() && r.honours && r.horizontal == p.horizontal && r.ram == Over(frame, p.ram, n)
  {
    hide Feed, PutAll, ChunkWrites, PointerWrites;
    if n == 0 {
      NothingSent(p);
      assert Over(frame, p.ram, 0) == p.ram;
    } else {
      hide Over, PointerWrites, PageWrites;
      FlushedPages(p, frame, n - 1);
      PageIsData(p, frame, n - 1);
      FlushedPage(Feed(p, PageWrites(frame, n - 1)), frame, n - 1, p.ram);
    }
  }

  /** Flush refines a copy: on a panel that honours the page and column commands, whatever its RAM,
      its pointer and the way its pointer advances, the RAM of the four pages becomes the frame. */
  lemma FlushCopies(p: Panel, frame: Frame)
    requires p.Ready() && p.honours
    ensures Feed(p, FlushWrites(frame)).ram == frame + p.ram[SIZE..]
    ensures forall page: nat, column: nat | page < PAGES && column < WIDTH ::
              Feed(p, FlushWrites(frame)).At(page, column) == frame[page * WIDTH + column]
  {
    hide Feed, PageWrites;
    FlushedPages(p, frame, PAGES);
    assert frame[..SIZE] == frame;
  }

  /* ---------- flush on a panel that ignores them and advances horizontally ---------- */

  /** The first `n` rows of a frame. */
  function Rows(frame: Frame, n: nat): (r: seq<bv8>)
    requires n <= PAGES
    ensures |r| == n * WIDTH
  {
    frame[..n * WIDTH]
  }

  lemma {:induction false} IgnoredFlush(p: Panel, frame: Frame, n: nat)
    requires p.Ready() && !p.honours && n <= PAGES
    ensures Feed(p, PageWrites(frame, n)) == PutAll(p, Rows(frame, n))
  {
    hide Feed, PutAll;
    if n == 0 {
      NothingSent(p);
      assert Rows(frame, 0) == [];
    } else {
      hide PageWrites, Rows;
      IgnoredFlush(p, frame, n - 1);
      IgnoredPage(p, frame, n - 1);
    }
  }

  lemma IgnoredPage(p: Panel, frame: Frame, page: nat)
    requires p.Ready() && !p.honours && page < PAGES
    requires Feed(p, PageWrites(frame, page)) == PutAll(p, Rows(frame, page))
    ensures Feed(p, PageWrites(frame, page + 1)) == PutAll(p, Rows(frame, page + 1))
  {
    hide Feed, PutAll, PointerWrites, PageWrites;
    var a, b := page * WIDTH, (page + 1) * WIDTH;
    PageIsData(p, frame, page);
    PointerCommands(PutAll(p, Rows(frame, page)), page);
    PutConcat(p, Rows(frame, page), frame[a..b]);
    assert Rows(frame, page) + frame[a..b] == Rows(frame, page + 1);
  }

  /** How far cell `j` lies behind address `a`, going round the RAM. */
  function Behind(a: nat, j: nat): nat
    requires a < RAM && j < RAM
  {
    if a <= j then j - a else j + RAM - a
  }

  /** The cell that lies `n` behind address `a`. */
  lemma BehindAddress(a: nat, n: nat, j: nat)
    requires a < RAM && n < RAM && j < RAM
    ensures j == (a + n) % RAM <==> Behind(a, j) == n
  {
  }

  lemma PutEffect(p: Panel, b: bv8)
    requires p.Valid() && p.horizontal
    ensures Put(p, b).Address() == (p.Address() + 1) % RAM && Put(p, b).ram == p.ram[p.Address() := b]
  {
  }

  lemma NextModulo(x: nat)
    ensures (x % RAM + 1) % RAM == (x + 1) % RAM
  {
  }

  lemma {:induction false} HorizontalAddress(p: Panel, bytes: seq<bv8>)
    requires p.Valid() && p.horizontal
    ensures PutAll(p, bytes).Address() == (p.Address() + |bytes|) % RAM
  {
    if |bytes| > 0 {
      var last := |bytes| - 1;
      HorizontalAddress(p, bytes[..last]);
      PutEffect(PutAll(p, bytes[..last]), bytes[last]);
      NextModulo(p.Address() + last);
    }
  }

  /** Horizontal data fills the RAM from the pointer on, and round. */
  lemma {:induction false} PutHorizontal(p: Panel, bytes: seq<bv8>, j: nat)
    requires p.Valid() && p.horizontal && |bytes| <= RAM && j < RAM
    ensures PutAll(p, bytes).ram[j]
            == if Behind(p.Address(), j) < |bytes| then bytes[Behind(p.Address(), j)] else p.ram[j]
  {
    if |bytes| > 0 {
      var last := |bytes| - 1;
      PutHorizontal(p, bytes[..last], j);
      HorizontalAddress(p, bytes[..last]);
      PutEffect(PutAll(p, bytes[..last]), bytes[last]);
      BehindAddress(p.Address(), last, j);
    }
  }

  /** The RAM that such a panel has after `flush`. */
  lemma HorizontalFlush(p: Panel, frame: Frame)
    requires p.Ready() && p.horizontal && !p.honours
    ensures var r := Feed(p, FlushWrites(frame));
            && r.Ready() && r.horizontal && !r.honours && r.Address() == (p.Address() + SIZE) % RAM
            && forall j: nat | j < RAM ::
                 r.ram[j] == if Behind(p.Address(), j) < SIZE then frame[Behind(p.Address(), j)] else p.ram[j]
  {
    hide Feed, PutAll, PageWrites;
    IgnoredFlush(p, frame, PAGES);
    assert Rows(frame, PAGES) == frame;
    HorizontalAddress(p, frame);
    forall j: nat | j < RAM
      ensures PutAll(p, frame).ram[j]
              == if Behind(p.Address(), j) < SIZE then frame[Behind(p.Address(), j)] else p.ram[j]
    {
      PutHorizontal(p, frame, j);
    }
  }

  ghost predicate Shows(p: Panel, frame: Frame)
    requires p.Valid()
  {
    p.ram[..SIZE] == frame
  }

  lemma OriginShows(p: Panel, frame: Frame)
    requires p.Ready() && p.horizontal && !p.honours && p.Address() == 0
    ensures Shows(Feed(p, FlushWrites(frame)), frame)
  {
    hide Feed, FlushWrites, PutAll;
    HorizontalFlush(p, frame);
    var ram := Feed(p, FlushWrites(frame)).ram;
    assert forall j: nat | j < SIZE :: Behind(0, j) == j && ram[j] == frame[j];
  }

  /** Such a panel shows every flushed frame exactly when its pointer starts at the origin. */
  lemma HorizontalShowsIffAtOrigin(p: Panel)
    requires p.Ready() && p.horizontal && !p.honours
    ensures (forall frame: Frame :: Shows(Feed(p, FlushWrites(frame)), frame)) <==> p.Address() == 0
  {
    if p.Address() == 0 {
      forall frame: Frame ensures Shows(Feed(p, FlushWrites(frame)), frame) {
        OriginShows(p, frame);
      }
    } else {
      var frame := Missed(p);
      assert !Shows(Feed(p, FlushWrites(frame)), frame);
    }
  }

  /** A frame that does not arrive. */
  lemma Missed(p: Panel) returns (frame: Frame)
    requires p.Ready() && p.horizontal && !p.honours && p.Address() != 0
    ensures !Shows(Feed(p, FlushWrites(frame)), frame)
  {
    var first := if Behind(p.Address(), 0) < SIZE then 0x01 else p.ram[0] ^ 0x01;
    frame := seq(SIZE, i => if i == 0 then first else 0x00);
    HorizontalFlush(p, frame);
    assert first != p.ram[0] || Behind(p.Address(), 0) < SIZE;
    assert Feed(p, FlushWrites(frame)).ram[0] != frame[0];
  }

  /** The pointer is at the origin only for the first of two flushes: the second does not arrive for
      some frame, unless the panel is pointed back in between. */
  lemma SecondFlushMisses(p: Panel, first: Frame)
    requires p.Ready() && p.horizontal && !p.honours && p.Address() == 0
    ensures var q := Feed(p, FlushWrites(first));
            Shows(q, first) && exists second: Frame :: !Shows(Feed(q, FlushWrites(second)), second)
  {
    hide Feed, FlushWrites, Shows;
    HorizontalFlush(p, first);
    OriginShows(p, first);
    var second := Missed(Feed(p, FlushWrites(first)));
  }
}
