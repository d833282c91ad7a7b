/** Model of agents/preprocessing_agent.py: a document's text is split into words and cut into
    overlapping word windows, once per chunking strategy; each chunk is labelled with the page
    number of the first `--- Page N ---` marker it contains. */
module Preprocessing {
  import opened Common
  import opened Text

  // ---------------------------------------------------------------- data

  /** The document metadata a chunk copies; None is a missing key, which the chunk reads as ''. */
  datatype DocMetadata = DocMetadata(source: Option<string>, filename: Option<string>)

  /** One document from the ingestion step; wells None is a missing 'wells' key. */
  datatype Document = Document(content: string, metadata: DocMetadata, wells: Option<seq<string>>)

  datatype ChunkMetadata = ChunkMetadata(source: string, filename: string, page: nat, wells: seq<string>,
                                         strategy: string, chunkId: nat, wordCount: nat)

  datatype Chunk = Chunk(content: string, metadata: ChunkMetadata)

  /** One strategy's entry of the 'chunking' configuration; None is a missing key. */
  datatype StrategyConfig = StrategyConfig(chunkSize: Option<int>, chunkOverlap: Option<int>)

  /** The strategies, in the order chunk_documents applies them. */
  const Strategies: seq<string> := ["factual_qa", "technical_extraction", "summary"]

  const DefaultChunkSize := 1000
  const DefaultChunkOverlap := 200

  function StringOr(o: Option<string>): string { if o.Some? then o.value else "" }

  function WellsOr(o: Option<seq<string>>): seq<string> { if o.Some? then o.value else [] }

  // ---------------------------------------------------------------- page markers

  const MarkerHead := "--- Page "
  const MarkerTail := " ---"

  /** The marker text for page n. */
  function Marker(n: nat): string { MarkerHead + ShowNat(n) + MarkerTail }

  /** The page number of a `--- Page N ---` marker that starts at position i, if one does.
      N is the whole digit run: a shorter run would leave a digit where the space must be. */
  function MarkerAt(text: string, i: nat): Option<nat>
  {
    if i + |MarkerHead| <= |text| && text[i..i + |MarkerHead|] == MarkerHead then
      var j := i + |MarkerHead|;
      var k := DigitRun(text[j..]);
      assert text[j..][..k] == text[j..j + k];
      if k > 0 && j + k + |MarkerTail| <= |text| && text[j + k..j + k + |MarkerTail|] == MarkerTail then
        Some(DigitsValue(text[j..j + k]))
      else None
    else None
  }

  /** re.search from position `from` on: the page of the leftmost marker there, 0 when none. */
  function PageFrom(text: string, from: nat): nat
    decreases |text| - from
  {
    if from >= |text| then 0
    else
      var m := MarkerAt(text, from);
      if m.Some? then m.value else PageFrom(text, from + 1)
  }

  /** _detect_page_number. */
  function DetectPageNumber(text: string): nat
  {
    PageFrom(text, 0)
  }

  predicate NoMarkerIn(text: string, from: nat, to: nat)
  {
    forall j :: from <= j < to ==> MarkerAt(text, j).None?
  }

  lemma {:induction false} PageFromFirst(text: string, from: nat, i: nat, n: nat)
    requires from <= i && MarkerAt(text, i) == Some(n) && NoMarkerIn(text, from, i)
    ensures PageFrom(text, from) == n
    decreases i - from
  {
    assert i < |text|;
    if from < i {
      PageFromFirst(text, from + 1, i, n);
    }
  }

  lemma {:induction false} PageFromNone(text: string, from: nat)
    requires NoMarkerIn(text, from, |text|)
    ensures PageFrom(text, from) == 0
    decreases |text| - from
  {
    if from < |text| {
      PageFromNone(text, from + 1);
    }
  }

  /** The leftmost marker decides the page, whatever markers follow it. */
  lemma FirstMarkerWins(text: string, i: nat, n: nat)
    requires MarkerAt(text, i) == Some(n)
    requires forall j :: 0 <= j < i ==> MarkerAt(text, j).None?
    ensures DetectPageNumber(text) == n
  {
    PageFromFirst(text, 0, i, n);
  }

  /** A chunk without any marker is page 0. */
  lemma NoMarkerPageZero(text: string)
    requires forall j :: 0 <= j < |text| ==> MarkerAt(text, j).None?
    ensures DetectPageNumber(text) == 0
  {
    PageFromNone(text, 0);
  }

  /** The marker for page n, written after any text, is read back as n at its position. */
  lemma MarkerRoundTrip(a: string, n: nat, rest: string)
    ensures MarkerAt(a + Marker(n) + rest, |a|) == Some(n)
  {
    var text := a + Marker(n) + rest;
    var digits := ShowNat(n);
    var i, j := |a|, |a| + |MarkerHead|;
    assert text[i..j] == MarkerHead;
    assert text[j..] == digits + (MarkerTail + rest);
    DigitRunPrefix(digits, MarkerTail + rest);
    assert text[j..j + |digits|] == digits;
    assert text[j + |digits|..j + |digits| + |MarkerTail|] == MarkerTail;
    DigitsValueShowNat(n);
  }

  /** A text that opens with a page marker is labelled with that page. */
  lemma PageOfLeadingMarker(n: nat, rest: string)
    ensures DetectPageNumber(Marker(n) + rest) == n
  {
    MarkerRoundTrip([], n, rest);
    assert [] + Marker(n) + rest == Marker(n) + rest;
    FirstMarkerWins(Marker(n) + rest, 0, n);
  }

  // ---------------------------------------------------------------- windows

  /** The word range [start, end) of one chunk. */
  datatype Window = Window(start: nat, end: nat)

  /** The loop leaves only at the last word: over n words it stops for a positive chunk size
      when one window holds all words or the window moves forward (overlap < size). */
  predicate Advances(n: nat, size: int, overlap: int)
  {
    0 < size && (n <= size || overlap < size)
  }

  predicate InWords(w: Window, n: nat) { w.start < w.end <= n }

  predicate AllInWords(ws: seq<Window>, n: nat)
  {
    forall i :: 0 <= i < |ws| ==> InWords(ws[i], n)
  }

  /** The windows the loop of _chunk_text visits from word `start` on. */
  function WindowsFrom(n: nat, size: int, overlap: int, start: nat): (ws: seq<Window>)
    requires Advances(n, size, overlap)
    ensures AllInWords(ws, n)
    ensures ws == [] <==> start >= n
    decreases n - start
  {
    if start >= n then []
    else if start + size >= n then [Window(start, n)]
    else
      var rest := WindowsFrom(n, size, overlap, start + size - overlap);
      [Window(start, start + size)] + rest
  }

  /** Every window holds at least one and at most `size` words; all but the last are full. */
  predicate Sized(ws: seq<Window>, size: int)
  {
    forall i :: 0 <= i < |ws| ==> ws[i].end - ws[i].start <= size && (i < |ws| - 1 ==> ws[i].end - ws[i].start == size)
  }

  /** Each window starts `size - overlap` words after the one before. */
  predicate Strided(ws: seq<Window>, size: int, overlap: int)
  {
    forall i :: 0 < i < |ws| ==> ws[i].start == ws[i - 1].start + (size - overlap)
  }

  predicate Covered(ws: seq<Window>, k: nat)
  {
    exists i :: 0 <= i < |ws| && ws[i].start <= k < ws[i].end
  }

  /** The window sequence starts at `start` and keeps its stride; with a non-negative overlap
      it ends at the last word (a negative one can step past the end first). */
  lemma {:induction false} WindowsShape(n: nat, size: int, overlap: int, start: nat)
    requires Advances(n, size, overlap) && start < n
    ensures var ws := WindowsFrom(n, size, overlap, start);
      ws[0].start == start && Sized(ws, size) && Strided(ws, size, overlap) &&
      (0 <= overlap ==> ws[|ws| - 1].end == n)
    decreases n - start
  {
    var ws := WindowsFrom(n, size, overlap, start);
    if start + size < n {
      var next := start + size - overlap;
      var rest := WindowsFrom(n, size, overlap, next);
      assert ws == [Window(start, start + size)] + rest;
      if next < n {
        WindowsShape(n, size, overlap, next);
        assert forall i :: 1 <= i < |ws| ==> ws[i] == rest[i - 1];
      }
    }
  }

  /** With a non-negative overlap no word is skipped: every word lies in some window. */
  lemma {:induction false} WindowsCover(n: nat, size: int, overlap: int, start: nat, k: nat)
    requires Advances(n, size, overlap) && 0 <= overlap
    requires start <= k < n
    ensures Covered(WindowsFrom(n, size, overlap, start), k)
    decreases n - start
  {
    var ws := WindowsFrom(n, size, overlap, start);
    if k < ws[0].end {
      assert ws[0].start <= k < ws[0].end;
    } else {
      var next := start + size - overlap;
      var rest := WindowsFrom(n, size, overlap, next);
      assert ws == [Window(start, start + size)] + rest;
      WindowsCover(n, size, overlap, next, k);
      var i :| 0 <= i < |rest| && rest[i].start <= k < rest[i].end;
      assert ws[i + 1] == rest[i];
    }
  }

  // ---------------------------------------------------------------- chunks

  /** The chunk made from the words of window w: the words joined by single spaces. */
  function ChunkOf(words: seq<string>, w: Window, id: nat, meta: DocMetadata, wells: seq<string>,
                   strategy: string): Chunk
    requires InWords(w, |words|)
  {
    var text := Join(words[w.start..w.end], " ");
    Chunk(text, ChunkMetadata(StringOr(meta.source), StringOr(meta.filename), DetectPageNumber(text),
                              wells, strategy, id, w.end - w.start))
  }

  /** The chunks of the windows ws, numbered from `id`. */
  function ChunksOf(words: seq<string>, ws: seq<Window>, id: nat, meta: DocMetadata, wells: seq<string>,
                    strategy: string): seq<Chunk>
    requires AllInWords(ws, |words|)
  {
    if ws == [] then []
    else [ChunkOf(words, ws[0], id, meta, wells, strategy)] + ChunksOf(words, ws[1..], id + 1, meta, wells, strategy)
  }

  /** What _chunk_text returns for a text. */
  function TextChunks(text: string, size: int, overlap: int, meta: DocMetadata, wells: seq<string>,
                      strategy: string): seq<Chunk>
    requires Advances(|SplitWords(text)|, size, overlap)
  {
    var words := SplitWords(text);
    ChunksOf(words, WindowsFrom(|words|, size, overlap, 0), 0, meta, wells, strategy)
  }

  /** _chunk_text. A chunk size above zero is required, and, for a text longer than one chunk,
      an overlap below the chunk size (otherwise the Python loop never ends). */
  method ChunkText(text: string, size: int, overlap: int, meta: DocMetadata, wells: seq<string>,
                   strategy: string) returns (chunks: seq<Chunk>)
    requires Advances(|SplitWords(text)|, size, overlap)
    ensures chunks == TextChunks(text, size, overlap, meta, wells, strategy)
  {
    var words := SplitWords(text);
    if |words| == 0 {
      return [];
    }
    chunks := ChunkWords(words, size, overlap, meta, wells, strategy);
  }

  /** The window loop of _chunk_text over a non-empty word list. */
  method ChunkWords(words: seq<string>, size: int, overlap: int, meta: DocMetadata, wells: seq<string>,
                    strategy: string) returns (chunks: seq<Chunk>)
    requires Advances(|words|, size, overlap)
    ensures chunks == ChunksOf(words, WindowsFrom(|words|, size, overlap, 0), 0, meta, wells, strategy)
  {
    ghost var goal := ChunksOf(words, WindowsFrom(|words|, size, overlap, 0), 0, meta, wells, strategy);
    chunks := [];
    var start, id := 0, 0;
    while start < |words|
      invariant chunks + ChunksOf(words, WindowsFrom(|words|, size, overlap, start), id, meta, wells, strategy) == goal
      decreases |words| - start
    {
      var end := if start + size < |words| then start + size else |words|;
      var c := ChunkOf(words, Window(start, end), id, meta, wells, strategy);
      if end >= |words| {
        ChunkStepLast(words, size, overlap, start, id, meta, wells, strategy, c, chunks, goal);
        chunks := chunks + [c];
        return;
      }
      var next := start + (size - overlap);
      ChunkStepOn(words, size, overlap, start, next, id, meta, wells, strategy, c, chunks, goal);
      chunks := chunks + [c];
      id := id + 1;
      start := next;
    }
  }

  /** The last turn of the window loop: the window at `start` reaches the last word. */
  lemma ChunkStepLast(words: seq<string>, size: int, overlap: int, start: nat, id: nat, meta: DocMetadata,
                      wells: seq<string>, strategy: string, c: Chunk, done: seq<Chunk>, goal: seq<Chunk>)
    requires Advances(|words|, size, overlap) && start < |words| <= start + size
    requires c == ChunkOf(words, Window(start, |words|), id, meta, wells, strategy)
    requires done + ChunksOf(words, WindowsFrom(|words|, size, overlap, start), id, meta, wells, strategy) == goal
    ensures done + [c] == goal
  {
    assert WindowsFrom(|words|, size, overlap, start)[1..] == [];
  }

  /** A turn of the window loop that moves on: the full window at `start`, then the windows from
      size - overlap words further. */
  lemma ChunkStepOn(words: seq<string>, size: int, overlap: int, start: nat, next: nat, id: nat, meta: DocMetadata,
                    wells: seq<string>, strategy: string, c: Chunk, done: seq<Chunk>, goal: seq<Chunk>)
    requires Advances(|words|, size, overlap) && start + size < |words| && next == start + (size - overlap)
    requires c == ChunkOf(words, Window(start, start + size), id, meta, wells, strategy)
    requires done + ChunksOf(words, WindowsFrom(|words|, size, overlap, start), id, meta, wells, strategy) == goal
    ensures (done + [c]) + ChunksOf(words, WindowsFrom(|words|, size, overlap, next), id + 1, meta, wells, strategy) == goal
  {
    var rest := ChunksOf(words, WindowsFrom(|words|, size, overlap, next), id + 1, meta, wells, strategy);
    assert WindowsFrom(|words|, size, overlap, start)[1..] == WindowsFrom(|words|, size, overlap, next);
    assert ChunksOf(words, WindowsFrom(|words|, size, overlap, start), id, meta, wells, strategy) == [c] + rest;
    assert done + ([c] + rest) == (done + [c]) + rest;
  }

  /** The chunks of a window list, one per window, in order, numbered on from `id`. */
  lemma {:induction false} ChunksOfAt(words: seq<string>, ws: seq<Window>, id: nat, meta: DocMetadata,
                                      wells: seq<string>, strategy: string)
    requires AllInWords(ws, |words|)
    ensures var cs := ChunksOf(words, ws, id, meta, wells, strategy);
      |cs| == |ws| && forall i :: 0 <= i < |ws| ==> cs[i] == ChunkOf(words, ws[i], id + i, meta, wells, strategy)
  {
    if ws != [] {
      ChunksOfAt(words, ws[1..], id + 1, meta, wells, strategy);
    }
  }

  /** What each chunk of _chunk_text holds: the words of its window, joined, whose re-split gives
      those words back; its word count (between 1 and the chunk size); its position as its id; and
      the page of its first marker. */
  lemma ChunkTextContents(text: string, size: int, overlap: int, meta: DocMetadata, wells: seq<string>,
                          strategy: string, i: nat)
    requires Advances(|SplitWords(text)|, size, overlap)
    requires i < |TextChunks(text, size, overlap, meta, wells, strategy)|
    ensures var words := SplitWords(text);
      var ws := WindowsFrom(|words|, size, overlap, 0);
      var c := TextChunks(text, size, overlap, meta, wells, strategy)[i];
      i < |ws| && SplitWords(c.content) == words[ws[i].start..ws[i].end] &&
      c.metadata.chunkId == i && c.metadata.wordCount == ws[i].end - ws[i].start &&
      1 <= c.metadata.wordCount <= size && c.metadata.page == DetectPageNumber(c.content) &&
      c.metadata.strategy == strategy && c.metadata.wells == wells &&
      c.metadata.source == StringOr(meta.source) && c.metadata.filename == StringOr(meta.filename)
  {
    var words := SplitWords(text);
    var ws := WindowsFrom(|words|, size, overlap, 0);
    ChunksOfAt(words, ws, 0, meta, wells, strategy);
    WindowsShape(|words|, size, overlap, 0);
    assert ws[i].end - ws[i].start <= size;
    SplitWordsClean(text);
    WindowChunk(words, ws[i], i, meta, wells, strategy);
  }

  /** The chunk of one window over clean words: its text splits back into the window's words. */
  lemma WindowChunk(words: seq<string>, w: Window, id: nat, meta: DocMetadata, wells: seq<string>, strategy: string)
    requires InWords(w, |words|)
    requires forall k :: 0 <= k < |words| ==> Word(words[k])
    ensures var c := ChunkOf(words, w, id, meta, wells, strategy);
      SplitWords(c.content) == words[w.start..w.end] && c.metadata.wordCount == w.end - w.start
  {
    var slice := words[w.start..w.end];
    forall k | 0 <= k < |slice| ensures Word(slice[k]) {
      assert slice[k] == words[w.start + k];
    }
    SplitJoin(slice);
  }

  /** The shape of the window list of _chunk_text: no chunks exactly when the text has no words;
      otherwise the first starts at word 0 and each starts size - overlap words after the one
      before; with a non-negative overlap the last ends at the last word and every word is in some
      chunk. */
  lemma ChunkTextWindows(text: string, size: int, overlap: int, meta: DocMetadata, wells: seq<string>,
                         strategy: string)
    requires Advances(|SplitWords(text)|, size, overlap)
    ensures var words := SplitWords(text);
      var ws := WindowsFrom(|words|, size, overlap, 0);
      var cs := TextChunks(text, size, overlap, meta, wells, strategy);
      |cs| == |ws| && (cs == [] <==> words == []) && (words != [] ==> Spans(ws, |words|, size, overlap))
  {
    var words := SplitWords(text);
    ChunksSpan(words, size, overlap, meta, wells, strategy);
  }

  /** The window list of n words: first at word 0, strided, and, for a non-negative overlap,
      reaching the last word and leaving none out. */
  predicate Spans(ws: seq<Window>, n: nat, size: int, overlap: int)
  {
    ws != [] && ws[0].start == 0 && Strided(ws, size, overlap) &&
    (0 <= overlap ==> ws[|ws| - 1].end == n && forall k :: 0 <= k < n ==> Covered(ws, k))
  }

  lemma ChunksSpan(words: seq<string>, size: int, overlap: int, meta: DocMetadata, wells: seq<string>,
                   strategy: string)
    requires Advances(|words|, size, overlap)
    ensures var ws := WindowsFrom(|words|, size, overlap, 0);
      var cs := ChunksOf(words, ws, 0, meta, wells, strategy);
      |cs| == |ws| && (cs == [] <==> words == []) && (words != [] ==> Spans(ws, |words|, size, overlap))
  {
    var ws := WindowsFrom(|words|, size, overlap, 0);
    ChunksOfAt(words, ws, 0, meta, wells, strategy);
    if words != [] {
      WindowsShape(|words|, size, overlap, 0);
      if 0 <= overlap {
        forall k | 0 <= k < |words| ensures Covered(ws, k) {
          WindowsCover(|words|, size, overlap, 0, k);
        }
      }
    }
  }

  // ---------------------------------------------------------------- strategies

  /** strategy_config.get('chunk_size', 1000) for a strategy; a strategy without an entry reads {}. */
  function ChunkSize(cfg: map<string, StrategyConfig>, s: string): int
  {
    if s in cfg && cfg[s].chunkSize.Some? then cfg[s].chunkSize.value else DefaultChunkSize
  }

  function ChunkOverlap(cfg: map<string, StrategyConfig>, s: string): int
  {
    if s in cfg && cfg[s].chunkOverlap.Some? then cfg[s].chunkOverlap.value else DefaultChunkOverlap
  }

  /** Every strategy's window loop ends on n words. */
  predicate AllAdvance(n: nat, cfg: map<string, StrategyConfig>)
  {
    Advances(n, ChunkSize(cfg, Strategies[0]), ChunkOverlap(cfg, Strategies[0])) &&
    Advances(n, ChunkSize(cfg, Strategies[1]), ChunkOverlap(cfg, Strategies[1])) &&
    Advances(n, ChunkSize(cfg, Strategies[2]), ChunkOverlap(cfg, Strategies[2]))
  }

  predicate DocChunkable(d: Document, cfg: map<string, StrategyConfig>)
  {
    AllAdvance(|SplitWords(d.content)|, cfg)
  }

  lemma AllAdvanceAt(n: nat, cfg: map<string, StrategyConfig>, k: nat)
    requires AllAdvance(n, cfg) && k < |Strategies|
    ensures Advances(n, ChunkSize(cfg, Strategies[k]), ChunkOverlap(cfg, Strategies[k]))
  {
  }

  lemma DocChunkableAt(d: Document, cfg: map<string, StrategyConfig>, k: nat)
    requires DocChunkable(d, cfg) && k < |Strategies|
    ensures Advances(|SplitWords(d.content)|, ChunkSize(cfg, Strategies[k]), ChunkOverlap(cfg, Strategies[k]))
  {
    AllAdvanceAt(|SplitWords(d.content)|, cfg, k);
  }

  predicate Chunkable(docs: seq<Document>, cfg: map<string, StrategyConfig>)
  {
    forall i :: 0 <= i < |docs| ==> DocChunkable(docs[i], cfg)
  }

  /** The chunks one strategy makes of one document. */
  function DocChunks(d: Document, cfg: map<string, StrategyConfig>, k: nat): seq<Chunk>
    requires k < |Strategies| && DocChunkable(d, cfg)
  {
    var s := Strategies[k];
    TextChunks(d.content, ChunkSize(cfg, s), ChunkOverlap(cfg, s), d.metadata, WellsOr(d.wells), s)
  }

  /** One strategy's chunks of all documents, document after document. */
  function AllChunks(docs: seq<Document>, cfg: map<string, StrategyConfig>, k: nat): seq<Chunk>
    requires k < |Strategies| && Chunkable(docs, cfg)
  {
    if docs == [] then []
    else AllChunks(docs[..|docs| - 1], cfg, k) + DocChunks(docs[|docs| - 1], cfg, k)
  }

  /** The result has exactly the three strategy keys. */
  predicate HasStrategyKeys(all: map<string, seq<Chunk>>)
  {
    all.Keys == {Strategies[0], Strategies[1], Strategies[2]}
  }

  /** chunk_documents. */
  method ChunkDocuments(docs: seq<Document>, cfg: map<string, StrategyConfig>)
    returns (all: map<string, seq<Chunk>>)
    requires Chunkable(docs, cfg)
    ensures HasStrategyKeys(all)
    ensures forall k :: 0 <= k < |Strategies| ==> all[Strategies[k]] == AllChunks(docs, cfg, k)
  {
    all := map[Strategies[0] := [], Strategies[1] := [], Strategies[2] := []];
    GatheredStart(all, docs, cfg);
    var i := 0;
    while i < |docs|
      invariant i <= |docs| && Gathered(all, docs, cfg, i)
    {
      var next := ChunkDocument(all, docs[i], cfg);
      GatheredStep(all, next, docs, cfg, i);
      all := next;
      i := i + 1;
    }
    GatheredAll(all, docs, cfg);
  }

  /** After i turns of the document loop each strategy's list holds the chunks of the first i documents. */
  predicate Gathered(all: map<string, seq<Chunk>>, docs: seq<Document>, cfg: map<string, StrategyConfig>, i: nat)
  {
    i <= |docs| && Chunkable(docs[..i], cfg) && HasStrategyKeys(all) &&
    forall k :: 0 <= k < |Strategies| ==> all[Strategies[k]] == AllChunks(docs[..i], cfg, k)
  }

  lemma GatheredStart(all: map<string, seq<Chunk>>, docs: seq<Document>, cfg: map<string, StrategyConfig>)
    requires all == map[Strategies[0] := [], Strategies[1] := [], Strategies[2] := []]
    ensures Gathered(all, docs, cfg, 0)
  {
    assert docs[..0] == [];
  }

  lemma GatheredStep(all: map<string, seq<Chunk>>, next: map<string, seq<Chunk>>, docs: seq<Document>,
                     cfg: map<string, StrategyConfig>, i: nat)
    requires Chunkable(docs, cfg) && i < |docs| && Gathered(all, docs, cfg, i)
    requires HasStrategyKeys(next)
    requires forall k :: 0 <= k < |Strategies| ==> next[Strategies[k]] == all[Strategies[k]] + DocChunks(docs[i], cfg, k)
    ensures Gathered(next, docs, cfg, i + 1)
  {
    var front := docs[..i + 1];
    assert front[..i] == docs[..i] && front[i] == docs[i];
    assert Chunkable(front, cfg);
  }

  lemma GatheredAll(all: map<string, seq<Chunk>>, docs: seq<Document>, cfg: map<string, StrategyConfig>)
    requires Chunkable(docs, cfg) && Gathered(all, docs, cfg, |docs|)
    ensures HasStrategyKeys(all)
    ensures forall k :: 0 <= k < |Strategies| ==> all[Strategies[k]] == AllChunks(docs, cfg, k)
  {
    assert docs[..|docs|] == docs;
  }

  /** The inner loop of chunk_documents: each strategy's list is extended by the document's chunks. */
  method ChunkDocument(all: map<string, seq<Chunk>>, d: Document, cfg: map<string, StrategyConfig>)
    returns (all': map<string, seq<Chunk>>)
    requires HasStrategyKeys(all) && DocChunkable(d, cfg)
    ensures HasStrategyKeys(all')
    ensures forall k :: 0 <= k < |Strategies| ==> all'[Strategies[k]] == all[Strategies[k]] + DocChunks(d, cfg, k)
  {
    assert forall j :: 0 <= j < |Strategies| ==> all[Strategies[j]] + [] == all[Strategies[j]];
    ghost var parts := seq(|Strategies|, j requires 0 <= j < |Strategies| => DocChunks(d, cfg, j));
    all' := all;
    for k := 0 to |Strategies|
      invariant Extended(all, all', parts, k)
    {
      ExtendedStep(all, all', parts, k, DocChunks(d, cfg, k));
      all' := ChunkStrategy(all', d, cfg, k);
    }
  }

  /** One turn of the strategy loop: the strategy's list is extended by its chunks of d. */
  method ChunkStrategy(cur: map<string, seq<Chunk>>, d: Document, cfg: map<string, StrategyConfig>, k: nat)
    returns (next: map<string, seq<Chunk>>)
    requires HasStrategyKeys(cur) && DocChunkable(d, cfg) && k < |Strategies|
    ensures next == cur[Strategies[k] := cur[Strategies[k]] + DocChunks(d, cfg, k)]
  {
    var s := Strategies[k];
    DocChunkableAt(d, cfg, k);
    var chunks := ChunkText(d.content, ChunkSize(cfg, s), ChunkOverlap(cfg, s), d.metadata, WellsOr(d.wells), s);
    next := cur[s := cur[s] + chunks];
  }

  /** After k turns of the strategy loop the first k strategies' lists are extended by their parts. */
  predicate Extended(all: map<string, seq<Chunk>>, cur: map<string, seq<Chunk>>, parts: seq<seq<Chunk>>, k: nat)
  {
    HasStrategyKeys(all) && HasStrategyKeys(cur) && |parts| == |Strategies| && k <= |Strategies| &&
    forall j :: 0 <= j < |Strategies| ==> cur[Strategies[j]] == all[Strategies[j]] + (if j < k then parts[j] else [])
  }

  lemma ExtendedStep(all: map<string, seq<Chunk>>, cur: map<string, seq<Chunk>>, parts: seq<seq<Chunk>>, k: nat,
                     chunks: seq<Chunk>)
    requires Extended(all, cur, parts, k) && k < |Strategies| && chunks == parts[k]
    ensures var s := Strategies[k];
      Extended(all, cur[s := cur[s] + chunks], parts, k + 1)
  {
    var s := Strategies[k];
    var next := cur[s := cur[s] + parts[k]];
    assert next.Keys == cur.Keys;
    forall j | 0 <= j < |Strategies|
      ensures next[Strategies[j]] == all[Strategies[j]] + (if j < k + 1 then parts[j] else [])
    {
      if j != k {
        assert |Strategies[j]| != |s|;
      }
    }
  }

  /** get_chunks_by_strategy: a strategy without a key has no chunks. */
  function ChunksByStrategy(all: map<string, seq<Chunk>>, s: string): seq<Chunk>
  {
    if s in all then all[s] else []
  }

  /** Looking a strategy up in the result of chunk_documents: its chunks for the three strategy
      names, none for any other name. */
  lemma ChunksByStrategyOfResult(docs: seq<Document>, cfg: map<string, StrategyConfig>,
                                 all: map<string, seq<Chunk>>, s: string)
    requires Chunkable(docs, cfg)
    requires HasStrategyKeys(all)
    requires forall k :: 0 <= k < |Strategies| ==> all[Strategies[k]] == AllChunks(docs, cfg, k)
    ensures s !in Strategies ==> ChunksByStrategy(all, s) == []
    ensures forall k :: 0 <= k < |Strategies| && s == Strategies[k] ==> ChunksByStrategy(all, s) == AllChunks(docs, cfg, k)
  {
  }

  /** Documents are chunked in order: the chunks of the first documents are a prefix of the chunks
      of all of them. */
  lemma {:induction false} AllChunksInOrder(docs: seq<Document>, cfg: map<string, StrategyConfig>, k: nat, i: nat)
    requires k < |Strategies| && Chunkable(docs, cfg) && i <= |docs|
    ensures Chunkable(docs[..i], cfg)
    ensures AllChunks(docs[..i], cfg, k) <= AllChunks(docs, cfg, k)
    decreases |docs| - i
  {
    if i < |docs| {
      var last := docs[..|docs| - 1];
      assert last[..i] == docs[..i];
      AllChunksInOrder(last, cfg, k, i);
    } else {
      assert docs[..i] == docs;
    }
  }

  /** Every chunk of a strategy carries that strategy's name and holds between one word and the
      strategy's chunk size. */
  predicate Tagged(cs: seq<Chunk>, strategy: string, size: int)
  {
    forall c :: c in cs ==> c.metadata.strategy == strategy && 1 <= c.metadata.wordCount <= size
  }

  lemma ChunksTagged(words: seq<string>, size: int, overlap: int, meta: DocMetadata, wells: seq<string>,
                     strategy: string)
    requires Advances(|words|, size, overlap)
    ensures Tagged(ChunksOf(words, WindowsFrom(|words|, size, overlap, 0), 0, meta, wells, strategy), strategy, size)
  {
    var ws := WindowsFrom(|words|, size, overlap, 0);
    var cs := ChunksOf(words, ws, 0, meta, wells, strategy);
    ChunksOfAt(words, ws, 0, meta, wells, strategy);
    if ws != [] {
      WindowsShape(|words|, size, overlap, 0);
    }
    forall c | c in cs ensures c.metadata.strategy == strategy && 1 <= c.metadata.wordCount <= size {
      var i :| 0 <= i < |cs| && cs[i] == c;
      assert InWords(ws[i], |words|);
    }
  }

  lemma {:induction false} AllChunksTagged(docs: seq<Document>, cfg: map<string, StrategyConfig>, k: nat)
    requires k < |Strategies| && Chunkable(docs, cfg)
    ensures Tagged(AllChunks(docs, cfg, k), Strategies[k], ChunkSize(cfg, Strategies[k]))
  {
    if docs != [] {
      var front := docs[..|docs| - 1];
      var d := docs[|docs| - 1];
      AllChunksTagged(front, cfg, k);
      DocChunkableAt(d, cfg, k);
      var s := Strategies[k];
      ChunksTagged(SplitWords(d.content), ChunkSize(cfg, s), ChunkOverlap(cfg, s), d.metadata, WellsOr(d.wells), s);
    }
  }
}
