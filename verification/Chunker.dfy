/**
 engine/indexing/chunk.py: overlapping token windows, each stripped of white space and carrying the offsets
 of what is left back into the text. The tokeniser is a parameter: its tokens for the text and its decode.
 */
module Chunker {
  import opened Common

  type Token = int
  type Decoder = seq<Token> -> string

  datatype Chunk = Chunk(text: string, start: nat, end: nat, tokenCount: nat)

  // ---- str.strip ----

  /** What str.isspace accepts and str.strip removes. */
  predicate IsSpace(c: char) {
    var n := c as int;
    || 0x9 <= n <= 0xD || 0x1C <= n <= 0x20 || n == 0x85 || n == 0xA0 || n == 0x1680 || 0x2000 <= n <= 0x200A
    || n == 0x2028 || n == 0x2029 || n == 0x202F || n == 0x205F || n == 0x3000
  }

  /** The first place from i on that is not white space, or the end. */
  function InkStart(s: string, i: nat): (start: nat)
    requires i <= |s|
    ensures i <= start <= |s| && forall k :: i <= k < start ==> IsSpace(s[k])
    ensures start < |s| ==> !IsSpace(s[start])
    decreases |s| - i
  {
    if i == |s| || !IsSpace(s[i]) then i else InkStart(s, i + 1)
  }

  /** Just past the last place before n that is not white space, or 0. */
  function InkEnd(s: string, n: nat): (end: nat)
    requires n <= |s|
    ensures end <= n && forall k :: end <= k < n ==> IsSpace(s[k])
    ensures end > 0 ==> !IsSpace(s[end - 1])
  {
    if n == 0 || !IsSpace(s[n - 1]) then n else InkEnd(s, n - 1)
  }

  /** Length of the white space that lstrip removes. */
  function LeadingSpace(s: string): nat { InkStart(s, 0) }

  function Strip(s: string): string {
    if LeadingSpace(s) == |s| then "" else s[LeadingSpace(s)..InkEnd(s, |s|)]
  }

  lemma StripKeepsInk(s: string, i: nat)
    requires i < |s| && !IsSpace(s[i])
    ensures LeadingSpace(s) <= i < InkEnd(s, |s|) <= |s|
    ensures Strip(s) == s[LeadingSpace(s)..InkEnd(s, |s|)]
    ensures !IsSpace(s[LeadingSpace(s)]) && !IsSpace(s[InkEnd(s, |s|) - 1])
  {
  }

  // ---- Windows ----

  datatype Window = Window(from: nat, to: nat)

  /** The windows the loop visits from a given start. */
  function Windows(total: nat, size: nat, overlap: nat, from: nat): seq<Window>
    requires overlap < size && from < total
    decreases total - from
  {
    var to := Min(from + size, total);
    [Window(from, to)] + (if to >= total then [] else Windows(total, size, overlap, to - overlap))
  }

  /** Windows overlap by exactly `overlap` tokens, are full but for the last, and reach the end. */
  lemma {:induction false} WindowsOverlap(total: nat, size: nat, overlap: nat, from: nat, k: nat)
    requires overlap < size && from < total && k < |Windows(total, size, overlap, from)|
    ensures var ws := Windows(total, size, overlap, from);
            && ws[0].from == from
            && ws[k].from < ws[k].to <= total && ws[k].to - ws[k].from <= size
            && (k + 1 < |ws| ==>
                  ws[k].to == ws[k].from + size < total && ws[k + 1].from == ws[k].to - overlap)
            && (k + 1 == |ws| ==> ws[k].to == total)
    decreases total - from
  {
    var to := Min(from + size, total);
    if k > 0 {
      WindowsOverlap(total, size, overlap, to - overlap, k - 1);
    } else if to < total {
      WindowsOverlap(total, size, overlap, to - overlap, 0);
    }
  }

  /** Windows start one stride apart. */
  lemma {:induction false} WindowStart(total: nat, size: nat, overlap: nat, from: nat, k: nat)
    requires overlap < size && from < total && k < |Windows(total, size, overlap, from)|
    ensures Windows(total, size, overlap, from)[k].from == from + k * (size - overlap)
  {
    if k == 0 {
      WindowsOverlap(total, size, overlap, from, 0);
    } else {
      WindowStart(total, size, overlap, from, k - 1);
      WindowsOverlap(total, size, overlap, from, k - 1);
      assert k * (size - overlap) == (k - 1) * (size - overlap) + (size - overlap);
    }
  }

  // ---- Chunks of windows ----

  /** Length of the text before a token, as the loop computes and caches it. */
  function Offset(decode: Decoder, tokens: seq<Token>, at: nat): nat
    requires at <= |tokens|
  {
    if at == 0 then 0 else |decode(tokens[..at])|
  }

  predicate InRange(w: Window, tokens: seq<Token>) { w.from <= w.to <= |tokens| }

  /** The chunk of one window, given the offset and the text of its tokens; none if that is blank. */
  function Emit(offset: nat, piece: string, tokenCount: nat): seq<Chunk> {
    if Strip(piece) == "" then []
    else
      var start := offset + LeadingSpace(piece);
      [Chunk(Strip(piece), start, start + |Strip(piece)|, tokenCount)]
  }

  function ChunkOf(decode: Decoder, tokens: seq<Token>, w: Window): seq<Chunk>
    requires InRange(w, tokens)
  {
    Emit(Offset(decode, tokens, w.from), decode(tokens[w.from..w.to]), w.to - w.from)
  }

  function ChunksOf(decode: Decoder, tokens: seq<Token>, ws: seq<Window>): seq<Chunk>
    requires forall i :: 0 <= i < |ws| ==> InRange(ws[i], tokens)
  {
    if ws == [] then []
    else ChunksOf(decode, tokens, ws[..|ws| - 1]) + ChunkOf(decode, tokens, ws[|ws| - 1])
  }

  lemma {:induction false} WindowsInRange(tokens: seq<Token>, size: nat, overlap: nat, from: nat)
    requires overlap < size && from < |tokens|
    ensures forall i :: 0 <= i < |Windows(|tokens|, size, overlap, from)| ==>
              InRange(Windows(|tokens|, size, overlap, from)[i], tokens)
    decreases |tokens| - from
  {
    var to := Min(from + size, |tokens|);
    if to < |tokens| {
      WindowsInRange(tokens, size, overlap, to - overlap);
    }
  }

  /** What chunk_text returns. */
  ghost function Expected(text: string, tokens: seq<Token>, decode: Decoder, size: nat, overlap: nat): seq<Chunk>
    requires overlap < size
  {
    if Strip(text) == "" || tokens == [] then []
    else
      WindowsInRange(tokens, size, overlap, 0);
      ChunksOf(decode, tokens, Windows(|tokens|, size, overlap, 0))
  }

  datatype TokenChunker = TokenChunker(chunkSize: int, overlap: int)

  /** TokenChunker.__init__: None where the source raises ValueError. */
  function MakeChunker(chunkSize: int, overlap: int): (chunker: Option<TokenChunker>)
    ensures chunker.Some? <==> 0 <= overlap < chunkSize
    ensures chunker.Some? ==> chunker.value == TokenChunker(chunkSize, overlap)
  {
    if chunkSize <= 0 then None
    else if overlap < 0 then None
    else if overlap >= chunkSize then None
    else Some(TokenChunker(chunkSize, overlap))
  }

  /** The part of the loop body that appends a chunk. */
  method EmitChunk(decode: Decoder, tokens: seq<Token>, startToken: nat, endToken: nat, prefixCharCount: nat)
    returns (emitted: seq<Chunk>)
    requires startToken <= endToken <= |tokens| && prefixCharCount == Offset(decode, tokens, startToken)
    ensures emitted == ChunkOf(decode, tokens, Window(startToken, endToken))
  {
    var chunkText := decode(tokens[startToken..endToken]);
    var stripped := Strip(chunkText);
    emitted := [];
    if stripped != "" {
      var startChar := prefixCharCount + LeadingSpace(chunkText);
      emitted := [Chunk(stripped, startChar, startChar + |stripped|, endToken - startToken)];
    }
  }

  ghost predicate CacheOk(cache: map<int, int>, decode: Decoder, tokens: seq<Token>) {
    forall at :: at in cache ==> 0 <= at <= |tokens| && cache[at] == Offset(decode, tokens, at)
  }

  /** The part of the loop body that looks up or computes the length of the prefix. */
  method PrefixLength(decode: Decoder, tokens: seq<Token>, startToken: nat, cache: map<int, int>)
    returns (count: nat, cache': map<int, int>)
    requires startToken <= |tokens| && CacheOk(cache, decode, tokens) && 0 in cache
    ensures count == Offset(decode, tokens, startToken)
    ensures CacheOk(cache', decode, tokens) && 0 in cache'
  {
    if startToken in cache { return cache[startToken], cache; }
    count := |decode(tokens[..startToken])|;
    cache' := cache[startToken := count];
  }

  /** What the loop relies on, window by window. */
  ghost predicate Tiling(ws: seq<Window>, total: nat, size: nat, overlap: nat, from: nat) {
    && ws != [] && ws[0].from == from
    && (forall k :: 0 <= k < |ws| ==> ws[k].from < total && ws[k].to == Min(ws[k].from + size, total))
    && (forall k :: 0 <= k < |ws| - 1 ==> ws[k].to < total && ws[k + 1].from == ws[k].to - overlap)
    && ws[|ws| - 1].to == total
  }

  lemma WindowsTile(total: nat, size: nat, overlap: nat, from: nat)
    requires overlap < size && from < total
    ensures Tiling(Windows(total, size, overlap, from), total, size, overlap, from)
  {
    var ws := Windows(total, size, overlap, from);
    forall k | 0 <= k < |ws| ensures ws[k].from < total && ws[k].to == Min(ws[k].from + size, total) {
      WindowsOverlap(total, size, overlap, from, k);
    }
    forall k | 0 <= k < |ws| - 1 ensures ws[k].to < total && ws[k + 1].from == ws[k].to - overlap {
      WindowsOverlap(total, size, overlap, from, k);
    }
    WindowsOverlap(total, size, overlap, from, |ws| - 1);
  }

  lemma OneMoreWindow(decode: Decoder, tokens: seq<Token>, ws: seq<Window>, k: nat)
    requires k < |ws| && forall i :: 0 <= i < |ws| ==> InRange(ws[i], tokens)
    ensures ChunksOf(decode, tokens, ws[..k + 1]) == ChunksOf(decode, tokens, ws[..k]) + ChunkOf(decode, tokens, ws[k])
  {
    assert ws[..k + 1][..k] == ws[..k];
  }

  /** The loop of chunk_text. */
  method ChunkWindows(size: nat, overlap: nat, tokens: seq<Token>, decode: Decoder, ghost ws: seq<Window>)
    returns (chunks: seq<Chunk>)
    requires overlap < size && tokens != [] && Tiling(ws, |tokens|, size, overlap, 0)
    requires forall i :: 0 <= i < |ws| ==> InRange(ws[i], tokens)
    ensures chunks == ChunksOf(decode, tokens, ws)
  {
    chunks := [];
    var startToken := 0;
    var prefixCharCache: map<int, int> := map[0 := 0];
    var prefixCharCount := 0;
    ghost var k := 0;
    while true
      invariant 0 <= k < |ws| && startToken == ws[k].from
      invariant chunks == ChunksOf(decode, tokens, ws[..k])
      invariant prefixCharCount == Offset(decode, tokens, startToken)
      invariant CacheOk(prefixCharCache, decode, tokens) && 0 in prefixCharCache
      decreases |ws| - k
    {
      var endToken := Min(startToken + size, |tokens|);
      assert ws[k] == Window(startToken, endToken);
      var emitted := EmitChunk(decode, tokens, startToken, endToken, prefixCharCount);
      OneMoreWindow(decode, tokens, ws, k);
      chunks := chunks + emitted;
      if endToken >= |tokens| {
        assert ws[..k + 1] == ws;
        return;
      }
      k := k + 1;
      startToken := Max(0, endToken - overlap);
      prefixCharCount, prefixCharCache := PrefixLength(decode, tokens, startToken, prefixCharCache);
    }
  }

  method ChunkText(chunker: TokenChunker, text: string, tokens: seq<Token>, decode: Decoder) returns (chunks: seq<Chunk>)
    requires 0 <= chunker.overlap < chunker.chunkSize
    ensures chunks == Expected(text, tokens, decode, chunker.chunkSize, chunker.overlap)
  {
    if text == "" { return []; }
    if Strip(text) == "" { return []; }
    if tokens == [] { return []; }
    WindowsInRange(tokens, chunker.chunkSize, chunker.overlap, 0);
    WindowsTile(|tokens|, chunker.chunkSize, chunker.overlap, 0);
    ghost var ws := Windows(|tokens|, chunker.chunkSize, chunker.overlap, 0);
    chunks := ChunkWindows(chunker.chunkSize, chunker.overlap, tokens, decode, ws);
  }

  // ---- Offsets and coverage ----

  /** Where windows are cut, and the two ends. */
  ghost predicate Boundary(ws: seq<Window>, tokens: seq<Token>, t: nat) {
    t == 0 || t == |tokens| || exists k :: 0 <= k < |ws| && (t == ws[k].from || t == ws[k].to)
  }

  /** Decoding inverts encoding and is additive where the windows are cut. */
  ghost predicate Additive(text: string, tokens: seq<Token>, decode: Decoder, ws: seq<Window>) {
    && decode(tokens) == text
    && forall i: nat, j: nat :: i <= j <= |tokens| && Boundary(ws, tokens, i) && Boundary(ws, tokens, j) ==>
         decode(tokens[..j]) == decode(tokens[..i]) + decode(tokens[i..j])
  }

  /** What lies between two boundaries decodes to the part of the text between their offsets. */
  lemma TextBetween(text: string, tokens: seq<Token>, decode: Decoder, ws: seq<Window>, i: nat, j: nat)
    requires Additive(text, tokens, decode, ws) && i <= j <= |tokens|
    requires Boundary(ws, tokens, i) && Boundary(ws, tokens, j)
    ensures var a, b := Offset(decode, tokens, i), Offset(decode, tokens, j);
            a <= b <= |text| && decode(tokens[i..j]) == text[a..b]
    ensures Offset(decode, tokens, |tokens|) == |text|
  {
    assert tokens[..|tokens|] == tokens;
    assert decode(tokens[..0]) == decode(tokens[..0]) + decode(tokens[0..0]);
    assert tokens[..0] == [] == tokens[0..0];
    assert |decode([])| == 0;
    assert decode(tokens[..j]) == decode(tokens[..i]) + decode(tokens[i..j]);
    assert text == decode(tokens[..j]) + decode(tokens[j..|tokens|]);
  }

  ghost predicate ExactChunk(text: string, chunk: Chunk) {
    && chunk.start < chunk.end <= |text|
    && text[chunk.start..chunk.end] == chunk.text
    && !IsSpace(text[chunk.start]) && !IsSpace(text[chunk.end - 1])
  }

  ghost predicate AllExact(text: string, chunks: seq<Chunk>) {
    forall c :: c in chunks ==> ExactChunk(text, c)
  }

  lemma SliceIsExact(text: string, a: nat, piece: string, lead: nat, end: nat, tokenCount: nat)
    requires a + |piece| <= |text| && text[a..a + |piece|] == piece && lead < end <= |piece|
    requires !IsSpace(piece[lead]) && !IsSpace(piece[end - 1])
    ensures ExactChunk(text, Chunk(piece[lead..end], a + lead, a + end, tokenCount))
  {
    SliceOfSlice(text, a, a + |piece|, lead, end);
    assert text[a + lead] == piece[lead];
    assert text[a + end - 1] == piece[end - 1];
  }

  lemma EmitIsSlice(a: nat, piece: string, tokenCount: nat) returns (lead: nat, end: nat)
    requires Strip(piece) != ""
    ensures lead == LeadingSpace(piece) && end == InkEnd(piece, |piece|)
    ensures lead < end <= |piece| && !IsSpace(piece[lead]) && !IsSpace(piece[end - 1])
    ensures Emit(a, piece, tokenCount) == [Chunk(piece[lead..end], a + lead, a + end, tokenCount)]
  {
    StripKeepsInk(piece, LeadingSpace(piece));
    lead, end := LeadingSpace(piece), InkEnd(piece, |piece|);
  }

  /** Stripping a part of the text leaves a part of the text. */
  lemma EmitIsExact(text: string, a: nat, piece: string, tokenCount: nat)
    requires a + |piece| <= |text| && text[a..a + |piece|] == piece
    ensures AllExact(text, Emit(a, piece, tokenCount))
  {
    if Strip(piece) != "" {
      var lead, end := EmitIsSlice(a, piece, tokenCount);
      SliceIsExact(text, a, piece, lead, end, tokenCount);
    }
  }

  /** Position `at` of the text is in range when a visible character stands there, or further on behind one in front. */
  lemma EmitCovers(offset: nat, piece: string, tokenCount: nat, at: nat, k: nat)
    requires offset <= at <= offset + k < offset + |piece| && !IsSpace(piece[k])
    requires !IsSpace(piece[0]) || offset + k == at
    ensures var emitted := Emit(offset, piece, tokenCount);
            |emitted| == 1 && emitted[0].start <= at < emitted[0].end
  {
    StripKeepsInk(piece, k);
    if !IsSpace(piece[0]) {
      StripKeepsInk(piece, 0);
    }
  }

  ghost predicate ExactWindow(text: string, tokens: seq<Token>, decode: Decoder, w: Window) {
    InRange(w, tokens) && AllExact(text, ChunkOf(decode, tokens, w))
  }

  lemma AllExactConcat(text: string, a: seq<Chunk>, b: seq<Chunk>)
    ensures AllExact(text, a + b) <==> AllExact(text, a) && AllExact(text, b)
  {
    if AllExact(text, a + b) {
      assert forall c :: c in a ==> c in a + b;
      assert forall c :: c in b ==> c in a + b;
    }
  }

  ghost predicate WindowsExact(text: string, tokens: seq<Token>, decode: Decoder, ws: seq<Window>) {
    forall k :: 0 <= k < |ws| ==> ExactWindow(text, tokens, decode, ws[k])
  }

  lemma LastWindowExact(text: string, tokens: seq<Token>, decode: Decoder, ws: seq<Window>)
    requires ws != []
    ensures WindowsExact(text, tokens, decode, ws)
            <==> WindowsExact(text, tokens, decode, ws[..|ws| - 1]) && ExactWindow(text, tokens, decode, ws[|ws| - 1])
  {
    var front, last := ws[..|ws| - 1], ws[|ws| - 1];
    if WindowsExact(text, tokens, decode, front) && ExactWindow(text, tokens, decode, last) {
      forall k | 0 <= k < |ws| ensures ExactWindow(text, tokens, decode, ws[k]) {
        assert k < |front| ==> front[k] == ws[k];
      }
    }
  }

  /** All chunks are exact when those of each window are, and only then. */
  lemma {:induction false} ChunksAreExactIff(text: string, tokens: seq<Token>, decode: Decoder, ws: seq<Window>)
    requires forall i :: 0 <= i < |ws| ==> InRange(ws[i], tokens)
    ensures AllExact(text, ChunksOf(decode, tokens, ws)) <==> WindowsExact(text, tokens, decode, ws)
  {
    if ws != [] {
      ChunksAreExactIff(text, tokens, decode, ws[..|ws| - 1]);
      AllExactConcat(text, ChunksOf(decode, tokens, ws[..|ws| - 1]), ChunkOf(decode, tokens, ws[|ws| - 1]));
      LastWindowExact(text, tokens, decode, ws);
    }
  }

  lemma WindowIsExact(text: string, tokens: seq<Token>, decode: Decoder, w: Window)
    requires InRange(w, tokens)
    requires var a, b := Offset(decode, tokens, w.from), Offset(decode, tokens, w.to);
             a <= b <= |text| && decode(tokens[w.from..w.to]) == text[a..b]
    ensures ExactWindow(text, tokens, decode, w)
  {
    PartIsExact(text, Offset(decode, tokens, w.from), Offset(decode, tokens, w.to), decode(tokens[w.from..w.to]), w.to - w.from);
  }

  lemma PartIsExact(text: string, a: nat, b: nat, piece: string, tokenCount: nat)
    requires a <= b <= |text| && piece == text[a..b]
    ensures AllExact(text, Emit(a, piece, tokenCount))
  {
    assert |piece| == b - a;
    EmitIsExact(text, a, piece, tokenCount);
  }

  /** Every chunk is the text between its offsets, and starts and ends with a character that is not white space. */
  lemma OffsetsAreExact(text: string, tokens: seq<Token>, decode: Decoder, size: nat, overlap: nat)
    requires overlap < size
    requires tokens != [] ==> Additive(text, tokens, decode, Windows(|tokens|, size, overlap, 0))
    ensures AllExact(text, Expected(text, tokens, decode, size, overlap))
  {
    if tokens != [] {
      var ws := Windows(|tokens|, size, overlap, 0);
      WindowsInRange(tokens, size, overlap, 0);
      forall k | 0 <= k < |ws| ensures ExactWindow(text, tokens, decode, ws[k]) {
        assert Boundary(ws, tokens, ws[k].from) && Boundary(ws, tokens, ws[k].to);
        TextBetween(text, tokens, decode, ws, ws[k].from, ws[k].to);
        WindowIsExact(text, tokens, decode, ws[k]);
      }
      ChunksAreExactIff(text, tokens, decode, ws);
    }
  }

  /** Each window starts no later in the text than the one before ends, and the last ends with the text. */
  ghost predicate Contiguous(text: string, tokens: seq<Token>, decode: Decoder, ws: seq<Window>) {
    && (forall k :: 0 <= k < |ws| ==> InRange(ws[k], tokens))
    && (forall k :: 0 < k < |ws| ==> Offset(decode, tokens, ws[k].from) <= Offset(decode, tokens, ws[k - 1].to))
    && Offset(decode, tokens, |tokens|) == |text|
  }

  /** Some window from number k on holds the character at `at`. */
  lemma {:induction false} WindowFor(text: string, tokens: seq<Token>, decode: Decoder, ws: seq<Window>,
                                     k: nat, at: nat) returns (j: nat)
    requires Contiguous(text, tokens, decode, ws) && k < |ws| && ws[|ws| - 1].to == |tokens|
    requires Offset(decode, tokens, ws[k].from) <= at < |text|
    ensures j < |ws|
    ensures Offset(decode, tokens, ws[j].from) <= at < Offset(decode, tokens, ws[j].to)
    decreases |ws| - k
  {
    if at < Offset(decode, tokens, ws[k].to) {
      j := k;
    } else {
      j := WindowFor(text, tokens, decode, ws, k + 1, at);
    }
  }

  lemma {:induction false} ChunkOfIsIncluded(decode: Decoder, tokens: seq<Token>, ws: seq<Window>, k: nat)
    requires forall i :: 0 <= i < |ws| ==> InRange(ws[i], tokens)
    requires k < |ws|
    ensures forall c :: c in ChunkOf(decode, tokens, ws[k]) ==> c in ChunksOf(decode, tokens, ws)
  {
    if k < |ws| - 1 {
      ChunkOfIsIncluded(decode, tokens, ws[..|ws| - 1], k);
    }
  }

  /** The window that holds a visible character, when the text has any and windows are contiguous. */
  lemma FindWindow(text: string, tokens: seq<Token>, decode: Decoder, size: nat, overlap: nat, at: nat) returns (w: Window)
    requires overlap < size && tokens != [] && at < |text| && !IsSpace(text[at])
    requires Contiguous(text, tokens, decode, Windows(|tokens|, size, overlap, 0))
    ensures w in Windows(|tokens|, size, overlap, 0) && InRange(w, tokens)
    ensures Offset(decode, tokens, w.from) <= at < Offset(decode, tokens, w.to)
    ensures forall c :: c in ChunkOf(decode, tokens, w) ==> c in Expected(text, tokens, decode, size, overlap)
  {
    var ws := Windows(|tokens|, size, overlap, 0);
    StripKeepsInk(text, at);
    WindowsTile(|tokens|, size, overlap, 0);
    var k := WindowFor(text, tokens, decode, ws, 0, at);
    w := ws[k];
    ChunkOfIsIncluded(decode, tokens, ws, k);
  }

  lemma AdditiveIsContiguous(text: string, tokens: seq<Token>, decode: Decoder, size: nat, overlap: nat)
    requires overlap < size && tokens != [] && Additive(text, tokens, decode, Windows(|tokens|, size, overlap, 0))
    ensures Contiguous(text, tokens, decode, Windows(|tokens|, size, overlap, 0))
  {
    var ws := Windows(|tokens|, size, overlap, 0);
    WindowsInRange(tokens, size, overlap, 0);
    WindowsTile(|tokens|, size, overlap, 0);
    forall k | 0 < k < |ws| ensures Offset(decode, tokens, ws[k].from) <= Offset(decode, tokens, ws[k - 1].to) {
      assert ws[k - 1].to < |tokens| && ws[k - 1 + 1].from == ws[k - 1].to - overlap;
      TextBetween(text, tokens, decode, ws, ws[k].from, ws[k - 1].to);
    }
    TextBetween(text, tokens, decode, ws, 0, 0);
  }

  /** No character other than white space is lost: each lies in the range of some chunk. */
  lemma EveryCharacterIsCovered(text: string, tokens: seq<Token>, decode: Decoder, size: nat, overlap: nat, at: nat)
    returns (chunk: Chunk)
    requires overlap < size && tokens != [] && Additive(text, tokens, decode, Windows(|tokens|, size, overlap, 0))
    requires at < |text| && !IsSpace(text[at])
    ensures chunk in Expected(text, tokens, decode, size, overlap) && chunk.start <= at < chunk.end
  {
    var ws := Windows(|tokens|, size, overlap, 0);
    AdditiveIsContiguous(text, tokens, decode, size, overlap);
    var w := FindWindow(text, tokens, decode, size, overlap, at);
    var k :| 0 <= k < |ws| && ws[k] == w;
    assert Boundary(ws, tokens, w.from) && Boundary(ws, tokens, w.to);
    TextBetween(text, tokens, decode, ws, w.from, w.to);
    var a := Offset(decode, tokens, w.from);
    EmitCovers(a, decode(tokens[w.from..w.to]), w.to - w.from, at, at - a);
    chunk := ChunkOf(decode, tokens, w)[0];
  }

  /** Stripping takes off the white space at both ends and nothing else. */
  lemma StripMeans(s: string) returns (a: nat, b: nat)
    ensures a <= b <= |s| && Strip(s) == s[a..b]
    ensures (forall i :: 0 <= i < a ==> IsSpace(s[i])) && (forall i :: b <= i < |s| ==> IsSpace(s[i]))
    ensures a < b ==> !IsSpace(s[a]) && !IsSpace(s[b - 1])
  {
    a, b := LeadingSpace(s), |s|;
    if a < |s| {
      StripKeepsInk(s, a);
      b := InkEnd(s, |s|);
    }
  }

  /** A window whose text is not blank has a chunk: its stripped text, with its number of tokens. */
  lemma WindowGivesChunk(text: string, tokens: seq<Token>, decode: Decoder, size: nat, overlap: nat, k: nat, at: nat)
    returns (chunk: Chunk)
    requires overlap < size && tokens != [] && Strip(text) != "" && k < |Windows(|tokens|, size, overlap, 0)|
    requires var w := Windows(|tokens|, size, overlap, 0)[k];
             InRange(w, tokens) && at < |decode(tokens[w.from..w.to])| && !IsSpace(decode(tokens[w.from..w.to])[at])
    ensures var w := Windows(|tokens|, size, overlap, 0)[k];
            && chunk in Expected(text, tokens, decode, size, overlap)
            && chunk.text == Strip(decode(tokens[w.from..w.to])) && chunk.tokenCount == w.to - w.from
            && chunk.end - chunk.start == |chunk.text|
  {
    var ws := Windows(|tokens|, size, overlap, 0);
    WindowsInRange(tokens, size, overlap, 0);
    StripKeepsInk(decode(tokens[ws[k].from..ws[k].to]), at);
    chunk := ChunkOf(decode, tokens, ws[k])[0];
    ChunkOfIsIncluded(decode, tokens, ws, k);
  }

  lemma {:induction false} ChunkStems(tokens: seq<Token>, decode: Decoder, ws: seq<Window>, chunk: Chunk) returns (k: nat)
    requires forall i :: 0 <= i < |ws| ==> InRange(ws[i], tokens)
    requires chunk in ChunksOf(decode, tokens, ws)
    ensures k < |ws| && chunk in ChunkOf(decode, tokens, ws[k])
  {
    k := |ws| - 1;
    if chunk !in ChunkOf(decode, tokens, ws[k]) {
      k := ChunkStems(tokens, decode, ws[..k], chunk);
    }
  }

  /** Every chunk is the stripped text of a window, with its number of tokens. */
  lemma ChunkIsWindow(text: string, tokens: seq<Token>, decode: Decoder, size: nat, overlap: nat, chunk: Chunk) returns (w: Window)
    requires overlap < size && tokens != [] && chunk in Expected(text, tokens, decode, size, overlap)
    ensures w in Windows(|tokens|, size, overlap, 0) && InRange(w, tokens)
    ensures chunk.text == Strip(decode(tokens[w.from..w.to])) != "" && chunk.tokenCount == w.to - w.from
  {
    var ws := Windows(|tokens|, size, overlap, 0);
    WindowsInRange(tokens, size, overlap, 0);
    var k := ChunkStems(tokens, decode, ws, chunk);
    w := ws[k];
  }
}
