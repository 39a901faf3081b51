/**
 frontier/dedupe.py: the Bloom filter that keeps the crawler from fetching a URL twice, and the SimHash
 fingerprint of a page. Digests are uninterpreted.
 */
module Dedupe {
  import opened Common

  // ---- Bits of a byte ----

  function Mask(bit: nat): bv8
    requires bit < 8
  {
    match bit
    case 0 => 1
    case 1 => 2
    case 2 => 4
    case 3 => 8
    case 4 => 16
    case 5 => 32
    case 6 => 64
    case 7 => 128
  }

  predicate BitIn(byte: bv8, bit: nat)
    requires bit < 8
  {
    byte & Mask(bit) != 0
  }

  lemma SetBit(byte: bv8, i: nat, j: nat)
    requires i < 8 && j < 8
    ensures BitIn(byte | Mask(i), j) <==> i == j || BitIn(byte, j)
  {
    if i == j {
      assert BitIn(byte | Mask(i), i);
    } else {
      assert Mask(i) & Mask(j) == 0;
      assert (byte | Mask(i)) & Mask(j) == (byte & Mask(j)) | (Mask(i) & Mask(j));
    }
  }

  lemma ZeroByte(j: nat)
    requires j < 8
    ensures !BitIn(0, j)
  {
  }

  // ---- Bloom filter ----

  /** The i-th combination of the two digests of a value, before the reduction modulo the size. */
  type Digest = (string, nat) -> nat

  function Positions(digest: Digest, hashes: nat, size: nat, value: string): (positions: seq<nat>)
    requires size > 0
    ensures |positions| == hashes && forall i :: 0 <= i < hashes ==> positions[i] < size
    decreases hashes
  {
    if hashes == 0 then [] else Positions(digest, hashes - 1, size, value) + [digest(value, hashes - 1) % size]
  }

  /** Positions of the bits that are set, of the first `size`. */
  predicate IsSet(bits: seq<bv8>, p: nat)
    requires p / 8 < |bits|
  {
    BitIn(bits[p / 8], p % 8)
  }

  lemma SetOne(bits: seq<bv8>, p: nat, q: nat)
    requires p / 8 < |bits| && q / 8 < |bits|
    ensures IsSet(bits[p / 8 := bits[p / 8] | Mask(p % 8)], q) <==> p == q || IsSet(bits, q)
  {
    SetBit(bits[p / 8], p % 8, q % 8);
  }

  function PositionSet(digest: Digest, hashes: nat, size: nat, value: string): set<nat>
    requires size > 0
  {
    set p | p in Positions(digest, hashes, size, value)
  }

  /** The positions of a set of values. */
  ghost function Footprint(digest: Digest, hashes: nat, size: nat, values: set<string>): set<nat>
    requires size > 0
  {
    set v, p | v in values && p in PositionSet(digest, hashes, size, v) :: p
  }

  lemma FootprintOfOneMore(digest: Digest, hashes: nat, size: nat, values: set<string>, value: string)
    requires size > 0
    ensures Footprint(digest, hashes, size, values + {value})
            == Footprint(digest, hashes, size, values) + PositionSet(digest, hashes, size, value)
  {
  }

  class UrlBloom {
    const digest: Digest
    const size: nat
    const hashes: nat
    const bits: array<bv8>
    ghost var added: set<string>

    /** The positions whose bit is set. */
    ghost function Bits(): set<nat>
      requires bits.Length == (size + 7) / 8
      reads bits
    {
      set p: nat | p < size && IsSet(bits[..], p)
    }

    /** A bit is set exactly when it is a position of some added value. */
    ghost predicate Valid()
      reads this, bits
    {
      size > 0 && bits.Length == (size + 7) / 8 && Bits() == Footprint(digest, hashes, size, added)
    }

    /** `size` and `hashes` come from _optimal_bloom_params, which makes them at least 8 and 1. */
    constructor (digest: Digest, size: nat, hashes: nat)
      requires size >= 8 && hashes >= 1
      ensures Valid() && added == {} && fresh(bits)
      ensures this.digest == digest && this.size == size && this.hashes == hashes
    {
      this.digest, this.size, this.hashes := digest, size, hashes;
      bits := new bv8[(size + 7) / 8](_ => 0);
      added := {};
      new;
      forall p: nat | p < size ensures !IsSet(bits[..], p) {
        ZeroByte(p % 8);
      }
    }

    /** The body of the loop in add. */
    method SetPosition(position: nat)
      requires position < size && bits.Length == (size + 7) / 8
      modifies bits
      ensures Bits() == old(Bits()) + {position}
    {
      ghost var before := bits[..];
      bits[position / 8] := bits[position / 8] | Mask(position % 8);
      assert bits[..] == before[position / 8 := before[position / 8] | Mask(position % 8)];
      forall q: nat | q < size ensures IsSet(bits[..], q) <==> IsSet(before, q) || q == position {
        SetOne(before, position, q);
      }
    }

    method Add(value: string)
      requires Valid()
      modifies this`added, bits
      ensures Valid() && added == old(added) + {value}
      ensures Bits() == old(Bits()) + PositionSet(digest, hashes, size, value)
    {
      ghost var positions := Positions(digest, hashes, size, value);
      for i := 0 to hashes
        invariant added == old(added)
        invariant Bits() == old(Bits()) + (set p | p in positions[..i])
      {
        PositionAt(digest, hashes, size, value, i);
        assert positions[..i + 1] == positions[..i] + [positions[i]];
        SetPosition(digest(value, i) % size);
      }
      assert positions[..hashes] == positions;
      FootprintOfOneMore(digest, hashes, size, added, value);
      added := added + {value};
    }

    /** `value in filter`: never false for an added value. */
    method Contains(value: string) returns (found: bool)
      requires Valid()
      ensures found <==> PositionSet(digest, hashes, size, value) <= Footprint(digest, hashes, size, added)
      ensures value in added ==> found
    {
      ghost var positions := Positions(digest, hashes, size, value);
      for i := 0 to hashes
        invariant forall p :: p in positions[..i] ==> p in Bits()
      {
        var position := digest(value, i) % size;
        PositionAt(digest, hashes, size, value, i);
        assert positions[..i + 1] == positions[..i] + [positions[i]];
        if !BitIn(bits[position / 8], position % 8) {
          assert !IsSet(bits[..], position) && position in PositionSet(digest, hashes, size, value);
          return false;
        }
        assert IsSet(bits[..], position);
      }
      assert positions[..hashes] == positions;
      found := true;
    }
  }

  lemma {:induction false} PositionAt(digest: Digest, hashes: nat, size: nat, value: string, i: nat)
    requires size > 0 && i < hashes
    ensures Positions(digest, hashes, size, value)[i] == digest(value, i) % size
    decreases hashes
  {
    if i < hashes - 1 {
      PositionAt(digest, hashes - 1, size, value, i);
    }
  }

  // ---- Tokens ----

  /** Maximal runs of alphanumeric characters; `current` is the run that is open where the text starts. */
  function TokensOf(text: string, current: string, isAlnum: char -> bool): seq<string>
    decreases |text|
  {
    var closed := if current == "" then [] else [current];
    if text == "" then closed
    else if isAlnum(text[0]) then TokensOf(text[1..], current + [text[0]], isAlnum)
    else closed + TokensOf(text[1..], "", isAlnum)
  }

  /** A text of alphanumeric characters alone is one token, and the empty text is none. */
  lemma {:induction false} RunIsToken(text: string, current: string, isAlnum: char -> bool)
    requires forall i :: 0 <= i < |text| ==> isAlnum(text[i])
    ensures TokensOf(text, current, isAlnum) == if current + text == "" then [] else [current + text]
    decreases |text|
  {
    if text != "" {
      RunIsToken(text[1..], current + [text[0]], isAlnum);
      assert current + [text[0]] + text[1..] == current + text;
    } else {
      assert current + text == current;
    }
  }

  /** `lowered` is the text after lower(). */
  method Tokenize(lowered: string, isAlnum: char -> bool) returns (tokens: seq<string>)
    ensures tokens == TokensOf(lowered, "", isAlnum)
  {
    tokens := [];
    var current := "";
    for i := 0 to |lowered|
      invariant TokensOf(lowered, "", isAlnum) == tokens + TokensOf(lowered[i..], current, isAlnum)
    {
      assert lowered[i..][1..] == lowered[i + 1..];
      if isAlnum(lowered[i]) {
        current := current + [lowered[i]];
      } else {
        if current != "" {
          tokens := tokens + [current];
          current := "";
        }
      }
    }
    if current != "" {
      tokens := tokens + [current];
    }
  }

  /** A separator ends a token: texts on its two sides are tokenised independently. */
  lemma {:induction false} TokensSplitAtSeparator(a: string, sep: char, b: string, current: string, isAlnum: char -> bool)
    requires !isAlnum(sep)
    ensures TokensOf(a + [sep] + b, current, isAlnum) == TokensOf(a, current, isAlnum) + TokensOf(b, "", isAlnum)
    decreases |a|
  {
    var text := a + [sep] + b;
    if a == "" {
      assert text[1..] == b;
    } else {
      assert text[1..] == a[1..] + [sep] + b;
      if isAlnum(a[0]) {
        TokensSplitAtSeparator(a[1..], sep, b, current + [a[0]], isAlnum);
      } else {
        TokensSplitAtSeparator(a[1..], sep, b, "", isAlnum);
      }
    }
  }

  // ---- SimHash ----

  /** Whether a bit of the 64-bit hash of a token is set. */
  type TokenHash = (string, nat) -> bool

  /** How many tokens have the bit. */
  function Votes(tokens: seq<string>, hash: TokenHash, bit: nat): (votes: nat)
    ensures votes <= |tokens|
  {
    if tokens == [] then 0
    else Votes(tokens[..|tokens| - 1], hash, bit) + (if hash(tokens[|tokens| - 1], bit) then 1 else 0)
  }

  /** The fingerprint, given by the bits that are set: those that more tokens have than lack. */
  ghost function MajorityBits(tokens: seq<string>, hash: TokenHash): set<nat> {
    set bit: nat | bit < 64 && Votes(tokens, hash, bit) > |tokens| - Votes(tokens, hash, bit)
  }

  /** The loop over the bits of one token. */
  method CastVotes(weights: array<int>, token: string, hash: TokenHash)
    requires weights.Length == 64
    modifies weights
    ensures forall b :: 0 <= b < 64 ==> weights[b] == old(weights[b]) + (if hash(token, b) then 1 else -1)
  {
    for bit := 0 to 64
      invariant forall b :: 0 <= b < bit ==> weights[b] == old(weights[b]) + (if hash(token, b) then 1 else -1)
      invariant forall b :: bit <= b < 64 ==> weights[b] == old(weights[b])
    {
      if hash(token, bit) {
        weights[bit] := weights[bit] + 1;
      } else {
        weights[bit] := weights[bit] - 1;
      }
    }
  }

  method Simhash(tokens: seq<string>, hash: TokenHash) returns (fingerprint: set<nat>)
    ensures fingerprint == MajorityBits(tokens, hash)
  {
    var weights := new int[64](_ => 0);
    for i := 0 to |tokens|
      invariant forall b :: 0 <= b < 64 ==> weights[b] == 2 * Votes(tokens[..i], hash, b) - i
    {
      assert tokens[..i + 1][..i] == tokens[..i];
      CastVotes(weights, tokens[i], hash);
    }
    assert tokens[..|tokens|] == tokens;
    fingerprint := {};
    for bit := 0 to 64
      invariant fingerprint == set b: nat | b < bit && weights[b] > 0
    {
      if weights[bit] > 0 {
        fingerprint := fingerprint + {bit};
      }
    }
  }

  /** The places of the tokens that have a bit. */
  ghost function WithBit(tokens: seq<string>, hash: TokenHash, bit: nat): set<nat> {
    set i: nat | i < |tokens| && hash(tokens[i], bit)
  }

  /** The votes for a bit are as many as those places. */
  lemma {:induction false} VotesAre(tokens: seq<string>, hash: TokenHash, bit: nat)
    ensures Votes(tokens, hash, bit) == |WithBit(tokens, hash, bit)|
  {
    if tokens == [] {
      assert WithBit(tokens, hash, bit) == {};
    } else {
      var last := |tokens| - 1;
      var front := tokens[..last];
      VotesAre(front, hash, bit);
      assert WithBit(tokens, hash, bit) == WithBit(front, hash, bit) + (if hash(tokens[last], bit) then {last} else {});
    }
  }

  /** A bit of the fingerprint is set exactly when it is below 64 and more tokens have it than lack it. */
  lemma FingerprintIsMajority(tokens: seq<string>, hash: TokenHash, bit: nat)
    ensures bit in MajorityBits(tokens, hash) <==>
              bit < 64 && 2 * |WithBit(tokens, hash, bit)| > |tokens|
  {
    VotesAre(tokens, hash, bit);
  }

  lemma {:induction false} VotesConcat(a: seq<string>, b: seq<string>, hash: TokenHash, bit: nat)
    ensures Votes(a + b, hash, bit) == Votes(a, hash, bit) + Votes(b, hash, bit)
  {
    if b == [] {
      assert a + b == a;
    } else {
      assert (a + b)[..|a + b| - 1] == a + b[..|b| - 1];
      VotesConcat(a, b[..|b| - 1], hash, bit);
    }
  }

  lemma {:induction false} VotesPermute(s: seq<string>, t: seq<string>, hash: TokenHash, bit: nat)
    requires multiset(s) == multiset(t)
    ensures Votes(s, hash, bit) == Votes(t, hash, bit)
    decreases |s|
  {
    assert |multiset(s)| == |multiset(t)|;
    if s != [] {
      var i := RemoveLast(s, t);
      VotesPermute(s[..|s| - 1], t[..i] + t[i + 1..], hash, bit);
      assert t == (t[..i] + [t[i]]) + t[i + 1..];
      VotesConcat(t[..i] + [t[i]], t[i + 1..], hash, bit);
      VotesConcat(t[..i], t[i + 1..], hash, bit);
      assert (t[..i] + [t[i]])[..i] == t[..i];
    }
  }

  /** The order of the tokens does not matter. */
  lemma SimhashIgnoresOrder(s: seq<string>, t: seq<string>, hash: TokenHash)
    requires multiset(s) == multiset(t)
    ensures MajorityBits(s, hash) == MajorityBits(t, hash)
  {
    assert |multiset(s)| == |multiset(t)|;
    forall bit: nat ensures Votes(s, hash, bit) == Votes(t, hash, bit) {
      VotesPermute(s, t, hash, bit);
    }
  }

  /** Writing a text twice, with a separator between, does not change its fingerprint. */
  lemma SimhashOfDoubledText(text: string, sep: char, isAlnum: char -> bool, hash: TokenHash)
    requires !isAlnum(sep)
    ensures MajorityBits(TokensOf(text + [sep] + text, "", isAlnum), hash)
            == MajorityBits(TokensOf(text, "", isAlnum), hash)
  {
    var tokens := TokensOf(text, "", isAlnum);
    TokensSplitAtSeparator(text, sep, text, "", isAlnum);
    forall bit: nat ensures Votes(tokens + tokens, hash, bit) == 2 * Votes(tokens, hash, bit) {
      VotesConcat(tokens, tokens, hash, bit);
    }
  }
}
