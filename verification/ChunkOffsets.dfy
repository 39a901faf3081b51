/**
 The offsets of engine/indexing/chunk.py for a tokeniser that works on bytes: each token stands for some bytes,
 the tokens of a text spell its UTF-8 encoding, and decoding is UTF-8 with replacement. When exactly the offsets
 are right, and that every visible character is covered in any case.
 */
module ChunkOffsets {
  import opened Common
  import opened Chunker
  import opened Utf8

  type Vocabulary = Token -> seq<Byte>

  function Spell(vocabulary: Vocabulary, tokens: seq<Token>): seq<Byte> {
    if tokens == [] then [] else Spell(vocabulary, tokens[..|tokens| - 1]) + vocabulary(tokens[|tokens| - 1])
  }

  function DecoderOf(vocabulary: Vocabulary): Decoder {
    (tokens: seq<Token>) => Decode(Spell(vocabulary, tokens))
  }

  /** What an encoder gives for a text. */
  ghost predicate Encodes(vocabulary: Vocabulary, tokens: seq<Token>, text: string) {
    Spell(vocabulary, tokens) == EncodeAll(text) && forall t :: t in tokens ==> vocabulary(t) != []
  }

  /** Bytes in front of a token. */
  function ByteAt(vocabulary: Vocabulary, tokens: seq<Token>, at: nat): nat
    requires at <= |tokens|
  {
    |Spell(vocabulary, tokens[..at])|
  }

  /** A token boundary inside a character of the text. */
  predicate InsideAt(vocabulary: Vocabulary, tokens: seq<Token>, text: string, at: nat)
    requires at <= |tokens| && ByteAt(vocabulary, tokens, at) <= Bytes(text)
  {
    Locate(text, ByteAt(vocabulary, tokens, at)).inside > 0
  }

  // ---- Tokens and bytes ----

  lemma {:induction false} SpellConcat(vocabulary: Vocabulary, a: seq<Token>, b: seq<Token>)
    ensures Spell(vocabulary, a + b) == Spell(vocabulary, a) + Spell(vocabulary, b)
  {
    if b == [] {
      assert a + b == a;
    } else {
      assert (a + b)[..|a + b| - 1] == a + b[..|b| - 1];
      SpellConcat(vocabulary, a, b[..|b| - 1]);
    }
  }

  lemma MiddleOf<T>(a: seq<T>, b: seq<T>, c: seq<T>)
    ensures ((a + b) + c)[|a|..|a| + |b|] == b
  {
  }

  /** A range of tokens spells a slice of the text's bytes. */
  lemma SpellSlice(vocabulary: Vocabulary, tokens: seq<Token>, i: nat, j: nat)
    requires i <= j <= |tokens|
    ensures var m, n := ByteAt(vocabulary, tokens, i), ByteAt(vocabulary, tokens, j);
            m <= n <= |Spell(vocabulary, tokens)| && Spell(vocabulary, tokens[i..j]) == Spell(vocabulary, tokens)[m..n]
  {
    var a, b, c := tokens[..i], tokens[i..j], tokens[j..];
    assert tokens[..j] == a + b && tokens == (a + b) + c;
    SpellConcat(vocabulary, a, b);
    SpellConcat(vocabulary, a + b, c);
    MiddleOf(Spell(vocabulary, a), Spell(vocabulary, b), Spell(vocabulary, c));
  }

  lemma {:induction false} SpellIsNotEmpty(vocabulary: Vocabulary, tokens: seq<Token>)
    requires tokens != [] && forall t :: t in tokens ==> vocabulary(t) != []
    ensures |Spell(vocabulary, tokens)| > 0
  {
    var last := tokens[|tokens| - 1];
    assert last in tokens && |vocabulary(last)| > 0;
    assert |Spell(vocabulary, tokens)| == |Spell(vocabulary, tokens[..|tokens| - 1])| + |vocabulary(last)|;
  }

  /** The cut of the text that a window makes. */
  function WindowCut(vocabulary: Vocabulary, tokens: seq<Token>, text: string, w: Window): Cut
    requires Encodes(vocabulary, tokens, text) && InRange(w, tokens)
  {
    SpellSlice(vocabulary, tokens, w.from, w.to);
    CutOf(text, ByteAt(vocabulary, tokens, w.from), ByteAt(vocabulary, tokens, w.to))
  }

  /** A window decodes to what its cut says. */
  lemma WindowDecodes(vocabulary: Vocabulary, tokens: seq<Token>, text: string, w: Window)
    requires Encodes(vocabulary, tokens, text) && InRange(w, tokens)
    ensures var cut := WindowCut(vocabulary, tokens, text, w);
            && cut.from <= cut.to <= |text| && cut.torn <= 1 && cut.to + cut.torn <= |text|
            && DecoderOf(vocabulary)(tokens[w.from..w.to]) == TextOf(text, cut)
  {
    var m, n := ByteAt(vocabulary, tokens, w.from), ByteAt(vocabulary, tokens, w.to);
    SpellSlice(vocabulary, tokens, w.from, w.to);
    DecodeSlice(text, m, n);
    CutIsOrdered(text, m, n);
    assert SliceIs(text, m, n, CutOf(text, m, n));
  }

  lemma TextOfStart(text: string, place: Place)
    requires place.whole <= |text|
    ensures |text[..place.whole] + Marks(if place.inside > 0 then 1 else 0)| == place.Next()
  {
    MarksAre(if place.inside > 0 then 1 else 0);
  }

  /** The prefix length the loop computes is the place of the next whole character. */
  lemma OffsetIsNext(vocabulary: Vocabulary, tokens: seq<Token>, text: string, at: nat)
    requires Encodes(vocabulary, tokens, text) && at <= |tokens|
    ensures ByteAt(vocabulary, tokens, at) <= Bytes(text)
    ensures Offset(DecoderOf(vocabulary), tokens, at) == Locate(text, ByteAt(vocabulary, tokens, at)).Next()
  {
    SpellSlice(vocabulary, tokens, 0, at);
    assert tokens[0..at] == tokens[..at] && tokens[..0] == [];
    var n := ByteAt(vocabulary, tokens, at);
    DecodePrefix(text, n);
    TextOfStart(text, Locate(text, n));
  }

  // ---- Coverage ----

  lemma OffsetsMeet(vocabulary: Vocabulary, tokens: seq<Token>, text: string, i: nat, j: nat)
    requires Encodes(vocabulary, tokens, text) && i <= j <= |tokens|
    ensures Offset(DecoderOf(vocabulary), tokens, i) <= Offset(DecoderOf(vocabulary), tokens, j)
  {
    OffsetIsNext(vocabulary, tokens, text, i);
    OffsetIsNext(vocabulary, tokens, text, j);
    SpellSlice(vocabulary, tokens, i, j);
    LocateAscends(text, ByteAt(vocabulary, tokens, i), ByteAt(vocabulary, tokens, j));
  }

  lemma WindowsMeet(vocabulary: Vocabulary, tokens: seq<Token>, text: string, size: nat, overlap: nat)
    requires overlap < size && tokens != [] && Encodes(vocabulary, tokens, text)
    ensures Contiguous(text, tokens, DecoderOf(vocabulary), Windows(|tokens|, size, overlap, 0))
  {
    var ws := Windows(|tokens|, size, overlap, 0);
    WindowsInRange(tokens, size, overlap, 0);
    WindowsTile(|tokens|, size, overlap, 0);
    forall k | 0 < k < |ws|
      ensures Offset(DecoderOf(vocabulary), tokens, ws[k].from) <= Offset(DecoderOf(vocabulary), tokens, ws[k - 1].to)
    {
      assert ws[k - 1].to < |tokens| && ws[k - 1 + 1].from == ws[k - 1].to - overlap;
      OffsetsMeet(vocabulary, tokens, text, ws[k].from, ws[k - 1].to);
    }
    OffsetIsNext(vocabulary, tokens, text, |tokens|);
    assert tokens[..|tokens|] == tokens;
    LocateEnd(text);
  }

  /** Marks in front push the characters of a cut back, those behind come last. */
  lemma TextOfAt(text: string, cut: Cut, i: nat)
    requires cut.from <= cut.to <= |text| && cut.from <= i < cut.to + cut.torn && cut.torn <= 1
    ensures |TextOf(text, cut)| == cut.stray + (cut.to - cut.from) + cut.torn
    ensures TextOf(text, cut)[cut.stray + (i - cut.from)] == if i < cut.to then text[i] else REPLACEMENT
    ensures cut.stray > 0 ==> TextOf(text, cut)[0] == REPLACEMENT
  {
    MarksAre(cut.stray);
    MarksAre(cut.torn);
  }

  /** A window whose offsets hold a visible character has it in its chunk's range. */
  lemma WindowCovers(vocabulary: Vocabulary, tokens: seq<Token>, text: string, w: Window, at: nat) returns (chunk: Chunk)
    requires Encodes(vocabulary, tokens, text) && InRange(w, tokens) && at < |text| && !IsSpace(text[at])
    requires Offset(DecoderOf(vocabulary), tokens, w.from) <= at < Offset(DecoderOf(vocabulary), tokens, w.to)
    ensures chunk in ChunkOf(DecoderOf(vocabulary), tokens, w) && chunk.start <= at < chunk.end
  {
    var cut := WindowCut(vocabulary, tokens, text, w);
    WindowDecodes(vocabulary, tokens, text, w);
    CutMeetsOffsets(vocabulary, tokens, text, w);
    CutCovers(text, cut, w.to - w.from, at);
    assert ChunkOf(DecoderOf(vocabulary), tokens, w) == Emit(cut.from, TextOf(text, cut), w.to - w.from);
    chunk := Emit(cut.from, TextOf(text, cut), w.to - w.from)[0];
  }

  lemma CutCovers(text: string, cut: Cut, tokenCount: nat, at: nat)
    requires cut.from <= cut.to && cut.to + cut.torn <= |text| && cut.torn <= 1
    requires cut.from <= at < cut.to + cut.torn && !IsSpace(text[at])
    ensures var emitted := Emit(cut.from, TextOf(text, cut), tokenCount);
            |emitted| == 1 && emitted[0].start <= at < emitted[0].end
  {
    TextOfAt(text, cut, at);
    assert !IsSpace(REPLACEMENT);
    EmitCovers(cut.from, TextOf(text, cut), tokenCount, at, cut.stray + (at - cut.from));
  }

  lemma CutMeetsOffsets(vocabulary: Vocabulary, tokens: seq<Token>, text: string, w: Window)
    requires Encodes(vocabulary, tokens, text) && InRange(w, tokens)
    ensures var cut := WindowCut(vocabulary, tokens, text, w);
            && cut.from == Offset(DecoderOf(vocabulary), tokens, w.from)
            && cut.to + cut.torn == Offset(DecoderOf(vocabulary), tokens, w.to)
  {
    OffsetIsNext(vocabulary, tokens, text, w.from);
    OffsetIsNext(vocabulary, tokens, text, w.to);
    SpellSlice(vocabulary, tokens, w.from, w.to);
    CutIsOrdered(text, ByteAt(vocabulary, tokens, w.from), ByteAt(vocabulary, tokens, w.to));
  }

  /**
   No visible character is lost, wherever the windows are cut: each lies in the range of some chunk, even when
   the chunk's own text has a mark in its place.
   */
  lemma EveryCharacterIsInRange(vocabulary: Vocabulary, tokens: seq<Token>, text: string, size: nat, overlap: nat, at: nat)
    returns (chunk: Chunk)
    requires overlap < size && Encodes(vocabulary, tokens, text) && at < |text| && !IsSpace(text[at])
    ensures chunk in Expected(text, tokens, DecoderOf(vocabulary), size, overlap) && chunk.start <= at < chunk.end
  {
    assert tokens != [];
    WindowsMeet(vocabulary, tokens, text, size, overlap);
    var w := FindWindow(text, tokens, DecoderOf(vocabulary), size, overlap, at);
    chunk := WindowCovers(vocabulary, tokens, text, w, at);
  }

  // ---- When offsets are right ----

  /**
   The marks of a cut are in the text anyway: the torn character is U+FFFD itself, or, behind a character cut in
   front, as much of the text as the chunk is long is nothing but U+FFFD.
   */
  predicate Fits(text: string, cut: Cut)
    requires cut.from <= cut.to && cut.to + cut.torn <= |text|
  {
    var n := cut.stray + (cut.to - cut.from) + cut.torn;
    if cut.stray == 0 then cut.torn > 0 ==> text[cut.to] == REPLACEMENT
    else cut.from + n <= |text| && forall i :: cut.from <= i < cut.from + n ==> text[i] == REPLACEMENT
  }

  lemma FittingIsExact(text: string, cut: Cut, tokenCount: nat)
    requires cut.from <= cut.to && cut.to + cut.torn <= |text| && cut.torn <= 1 && Fits(text, cut)
    ensures AllExact(text, Emit(cut.from, TextOf(text, cut), tokenCount))
  {
    var piece := TextOf(text, cut);
    MarksAre(cut.stray);
    MarksAre(cut.torn);
    assert |piece| == cut.stray + (cut.to - cut.from) + cut.torn;
    forall i | 0 <= i < |piece| ensures piece[i] == text[cut.from + i] {
    }
    assert piece == text[cut.from..cut.from + |piece|];
    EmitIsExact(text, cut.from, piece, tokenCount);
  }

  /** A chunk that repeats the text behind a stray mark is nothing but marks. */
  lemma {:induction false} RepeatedMarks(text: string, cut: Cut, end: nat, i: nat)
    requires cut.from <= cut.to && cut.to + cut.torn <= |text| && cut.torn <= 1 && cut.stray > 0
    requires end <= |TextOf(text, cut)| && cut.from + end <= |text| && i < end
    requires text[cut.from..cut.from + end] == TextOf(text, cut)[..end]
    ensures text[cut.from + i] == REPLACEMENT
  {
    MarksAre(cut.stray);
    MarksAre(cut.torn);
    assert text[cut.from + i] == text[cut.from..cut.from + end][i] == TextOf(text, cut)[i];
    if cut.stray <= i < cut.stray + (cut.to - cut.from) {
      assert TextOf(text, cut)[i] == text[cut.from + (i - cut.stray)];
      RepeatedMarks(text, cut, end, i - cut.stray);
    }
  }

  lemma TornMarkIsWrong(text: string, cut: Cut, tokenCount: nat)
    requires cut.from <= cut.to < |text| && cut.stray == 0 && cut.torn == 1 && text[cut.to] != REPLACEMENT
    ensures !AllExact(text, Emit(cut.from, TextOf(text, cut), tokenCount))
  {
    var piece := TextOf(text, cut);
    TextOfAt(text, cut, cut.to);
    StripKeepsInk(piece, |piece| - 1);
    var lead, end := EmitIsSlice(cut.from, piece, tokenCount);
    var chunk := Emit(cut.from, piece, tokenCount)[0];
    if AllExact(text, Emit(cut.from, piece, tokenCount)) {
      LastOfExact(text, chunk);
    }
  }

  lemma LastOfExact(text: string, chunk: Chunk)
    requires ExactChunk(text, chunk)
    ensures chunk.text != "" && chunk.text[|chunk.text| - 1] == text[chunk.end - 1]
  {
    assert text[chunk.start..chunk.end][chunk.end - chunk.start - 1] == text[chunk.end - 1];
  }

  /** White space at the end of a cut with a stray mark comes from the text. */
  lemma TrailingSpace(text: string, cut: Cut, end: nat)
    requires cut.from <= cut.to && cut.to + cut.torn <= |text| && cut.torn <= 1 && cut.stray > 0
    requires end == InkEnd(TextOf(text, cut), |TextOf(text, cut)|)
    ensures cut.stray <= end <= |TextOf(text, cut)| == cut.stray + (cut.to - cut.from) + cut.torn
    ensures end < |TextOf(text, cut)| ==> cut.from + (end - cut.stray) < |text| && IsSpace(text[cut.from + (end - cut.stray)])
  {
    var piece := TextOf(text, cut);
    MarksAre(cut.stray);
    MarksAre(cut.torn);
    assert piece[cut.stray - 1] == REPLACEMENT;
    StripKeepsInk(piece, cut.stray - 1);
    if end < |piece| {
      assert IsSpace(piece[end]);
      assert piece[end] == text[cut.from + (end - cut.stray)];
    }
  }

  /** A chunk whose text is in the text is all marks as far as it goes, and so it goes to the end of the piece. */
  lemma AllMarks(text: string, cut: Cut, end: nat)
    requires cut.from <= cut.to && cut.to + cut.torn <= |text| && cut.torn <= 1 && cut.stray > 0
    requires end == InkEnd(TextOf(text, cut), |TextOf(text, cut)|) && cut.from + end <= |text|
    requires text[cut.from..cut.from + end] == TextOf(text, cut)[..end]
    ensures Fits(text, cut)
  {
    TrailingSpace(text, cut, end);
    forall j | cut.from <= j < cut.from + end ensures text[j] == REPLACEMENT {
      RepeatedMarks(text, cut, end, j - cut.from);
    }
    assert !IsSpace(REPLACEMENT);
  }

  lemma StrayMarkIsWrong(text: string, cut: Cut, tokenCount: nat)
    requires cut.from <= cut.to && cut.to + cut.torn <= |text| && cut.torn <= 1 && cut.stray > 0
    requires AllExact(text, Emit(cut.from, TextOf(text, cut), tokenCount))
    ensures Fits(text, cut)
  {
    var piece := TextOf(text, cut);
    MarksAre(cut.stray);
    assert piece[0] == REPLACEMENT;
    StripKeepsInk(piece, 0);
    var lead, end := EmitIsSlice(cut.from, piece, tokenCount);
    assert ExactChunk(text, Emit(cut.from, piece, tokenCount)[0]);
    assert piece[0..end] == piece[..end];
    AllMarks(text, cut, end);
  }

  /** A window's chunk is exact if and only if its cut fits. */
  lemma WindowIsExactIff(vocabulary: Vocabulary, tokens: seq<Token>, text: string, w: Window)
    requires Encodes(vocabulary, tokens, text) && InRange(w, tokens)
    ensures var cut := WindowCut(vocabulary, tokens, text, w);
            && cut.from <= cut.to && cut.to + cut.torn <= |text|
            && (ExactWindow(text, tokens, DecoderOf(vocabulary), w) <==> Fits(text, cut))
  {
    var cut := WindowCut(vocabulary, tokens, text, w);
    WindowDecodes(vocabulary, tokens, text, w);
    CutMeetsOffsets(vocabulary, tokens, text, w);
    assert ChunkOf(DecoderOf(vocabulary), tokens, w) == Emit(cut.from, TextOf(text, cut), w.to - w.from);
    if Fits(text, cut) {
      FittingIsExact(text, cut, w.to - w.from);
    } else if cut.stray == 0 {
      TornMarkIsWrong(text, cut, w.to - w.from);
    } else if AllExact(text, ChunkOf(DecoderOf(vocabulary), tokens, w)) {
      StrayMarkIsWrong(text, cut, w.to - w.from);
    }
  }

  ghost predicate FitsAt(vocabulary: Vocabulary, tokens: seq<Token>, text: string, w: Window) {
    Encodes(vocabulary, tokens, text) && InRange(w, tokens)
    && var cut := WindowCut(vocabulary, tokens, text, w);
       cut.from <= cut.to && cut.to + cut.torn <= |text| && Fits(text, cut)
  }

  lemma InkHasTokens(vocabulary: Vocabulary, tokens: seq<Token>, text: string)
    requires Encodes(vocabulary, tokens, text) && Strip(text) != ""
    ensures tokens != []
  {
  }

  /** For every text: all chunks are the text between their offsets if and only if it is blank or all windows fit. */
  lemma OffsetsAreExactIff(vocabulary: Vocabulary, tokens: seq<Token>, text: string, size: nat, overlap: nat)
    requires overlap < size && Encodes(vocabulary, tokens, text)
    ensures Strip(text) != "" ==> tokens != []
    ensures AllExact(text, Expected(text, tokens, DecoderOf(vocabulary), size, overlap))
            <==> Strip(text) == ""
                 || forall w :: w in Windows(|tokens|, size, overlap, 0) ==> FitsAt(vocabulary, tokens, text, w)
  {
    if Strip(text) == "" { return; }
    InkHasTokens(vocabulary, tokens, text);
    var ws := Windows(|tokens|, size, overlap, 0);
    WindowsInRange(tokens, size, overlap, 0);
    ChunksAreExactIff(text, tokens, DecoderOf(vocabulary), ws);
    WindowsFitIff(vocabulary, tokens, text, ws);
  }

  lemma WindowsFitIff(vocabulary: Vocabulary, tokens: seq<Token>, text: string, ws: seq<Window>)
    requires Encodes(vocabulary, tokens, text) && forall k :: 0 <= k < |ws| ==> InRange(ws[k], tokens)
    ensures WindowsExact(text, tokens, DecoderOf(vocabulary), ws)
            <==> forall w :: w in ws ==> FitsAt(vocabulary, tokens, text, w)
  {
    forall k | 0 <= k < |ws|
      ensures ExactWindow(text, tokens, DecoderOf(vocabulary), ws[k]) <==> FitsAt(vocabulary, tokens, text, ws[k])
    {
      WindowIsExactIff(vocabulary, tokens, text, ws[k]);
    }
    assert forall k :: 0 <= k < |ws| ==> ws[k] in ws;
  }

  lemma MarkIsInText(text: string, cut: Cut)
    requires cut.from <= cut.to && cut.to + cut.torn <= |text| && Fits(text, cut) && (cut.stray > 0 || cut.torn > 0)
    ensures REPLACEMENT in text
  {
    assert text[if cut.stray > 0 then cut.from else cut.to] == REPLACEMENT;
  }

  /** Unless the text itself holds U+FFFD, a window fits if and only if neither end lies inside a character. */
  lemma FitsIff(vocabulary: Vocabulary, tokens: seq<Token>, text: string, w: Window)
    requires Encodes(vocabulary, tokens, text) && InRange(w, tokens) && w.from < w.to && REPLACEMENT !in text
    ensures ByteAt(vocabulary, tokens, w.from) <= ByteAt(vocabulary, tokens, w.to) <= Bytes(text)
    ensures FitsAt(vocabulary, tokens, text, w)
            <==> !InsideAt(vocabulary, tokens, text, w.from) && !InsideAt(vocabulary, tokens, text, w.to)
  {
    var cut := WindowCut(vocabulary, tokens, text, w);
    WindowDecodes(vocabulary, tokens, text, w);
    SpellSlice(vocabulary, tokens, w.from, w.to);
    assert Spell(vocabulary, tokens[w.from..w.to]) != [] by {
      assert forall t :: t in tokens[w.from..w.to] ==> t in tokens;
      SpellIsNotEmpty(vocabulary, tokens[w.from..w.to]);
    }
    if Fits(text, cut) && (cut.stray > 0 || cut.torn > 0) {
      MarkIsInText(text, cut);
    }
  }

  /**
   For a text without U+FFFD: all offsets are right if and only if it is blank or no window is cut inside a
   character. Token boundaries inside characters do no harm elsewhere.
   */
  lemma OffsetsAreExactUnlessCut(vocabulary: Vocabulary, tokens: seq<Token>, text: string, size: nat, overlap: nat)
    requires overlap < size && Encodes(vocabulary, tokens, text) && REPLACEMENT !in text
    ensures Strip(text) != "" ==> tokens != []
    ensures AllExact(text, Expected(text, tokens, DecoderOf(vocabulary), size, overlap))
            <==> Strip(text) == ""
                 || forall w :: w in Windows(|tokens|, size, overlap, 0) ==>
                   && w.from < w.to <= |tokens| && ByteAt(vocabulary, tokens, w.from) <= ByteAt(vocabulary, tokens, w.to) <= Bytes(text)
                   && !InsideAt(vocabulary, tokens, text, w.from) && !InsideAt(vocabulary, tokens, text, w.to)
  {
    OffsetsAreExactIff(vocabulary, tokens, text, size, overlap);
    if Strip(text) == "" { return; }
    var ws := Windows(|tokens|, size, overlap, 0);
    forall w | w in ws
      ensures w.from < w.to <= |tokens| && ByteAt(vocabulary, tokens, w.from) <= ByteAt(vocabulary, tokens, w.to) <= Bytes(text)
      ensures FitsAt(vocabulary, tokens, text, w)
              <==> !InsideAt(vocabulary, tokens, text, w.from) && !InsideAt(vocabulary, tokens, text, w.to)
    {
      var k :| 0 <= k < |ws| && ws[k] == w;
      WindowsOverlap(|tokens|, size, overlap, 0, k);
      FitsIff(vocabulary, tokens, text, w);
    }
  }

  /** An emoji of four bytes as two tokens, of which no single one is a character. */
  function EmojiVocabulary(): Vocabulary {
    (t: Token) => if t == 0 then [0xF0, 0x9F, 0x98] else [0x80]
  }

  const EMOJI := "\U{1F600}"

  lemma EmojiIsSpelt()
    ensures Encodes(EmojiVocabulary(), [0, 1], EMOJI) && Bytes(EMOJI) == 4
    ensures ByteAt(EmojiVocabulary(), [0, 1], 0) == 0 && ByteAt(EmojiVocabulary(), [0, 1], 1) == 3
    ensures ByteAt(EmojiVocabulary(), [0, 1], 2) == 4
  {
    var vocabulary, tokens: seq<Token>, first: seq<Token> := EmojiVocabulary(), [0, 1], [0];
    assert tokens[..0] == [] && tokens[..1] == first && tokens[..2] == tokens && first[..0] == [];
    assert EncodeAll(EMOJI) == [0xF0, 0x9F, 0x98, 0x80] by { assert EMOJI[1..] == ""; }
    assert Spell(vocabulary, first) == [0xF0, 0x9F, 0x98];
    assert Spell(vocabulary, tokens) == [0xF0, 0x9F, 0x98, 0x80];
  }

  lemma EmojiPlaces()
    requires Bytes(EMOJI) == 4
    ensures Locate(EMOJI, 0).inside == 0 && Locate(EMOJI, 3).inside == 3 && Locate(EMOJI, 4).inside == 0
  {
    LocateEnd(EMOJI);
  }

  /** With one token to a window its offsets are wrong; with two the same tokens do no harm. */
  lemma TornEmoji()
    ensures Encodes(EmojiVocabulary(), [0, 1], EMOJI)
    ensures !AllExact(EMOJI, Expected(EMOJI, [0, 1], DecoderOf(EmojiVocabulary()), 1, 0))
    ensures AllExact(EMOJI, Expected(EMOJI, [0, 1], DecoderOf(EmojiVocabulary()), 2, 0))
  {
    EmojiIsSpelt();
    EmojiPlaces();
    StripKeepsInk(EMOJI, 0);
    OffsetsAreExactUnlessCut(EmojiVocabulary(), [0, 1], EMOJI, 1, 0);
    OffsetsAreExactUnlessCut(EmojiVocabulary(), [0, 1], EMOJI, 2, 0);
    assert Windows(2, 1, 0, 0)[0] == Window(0, 1);
    assert Windows(2, 2, 0, 0) == [Window(0, 2)];
  }
}
