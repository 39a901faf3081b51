/**
 UTF-8 as a tokeniser's decode uses it: encoding, and decoding of any bytes with U+FFFD for each maximal part that
 is not a character, as Python's "replace" error handler does. The lemmas say what decoding a slice of an encoded
 text gives, wherever the slice is cut.
 */
module Utf8 {
  import opened Common

  type Byte = b: int | 0 <= b < 0x100

  const REPLACEMENT := '\U{FFFD}'

  function Size(c: char): nat {
    var n := c as int;
    if n < 0x80 then 1 else if n < 0x800 then 2 else if n < 0x10000 then 3 else 4
  }

  function Encode(c: char): (bytes: seq<Byte>)
    ensures |bytes| == Size(c)
  {
    var n := c as int;
    if n < 0x80 then [n]
    else if n < 0x800 then [0xC0 + n / 64, 0x80 + n % 64]
    else if n < 0x10000 then [0xE0 + n / 4096, 0x80 + n / 64 % 64, 0x80 + n % 64]
    else [0xF0 + n / 262144, 0x80 + n / 4096 % 64, 0x80 + n / 64 % 64, 0x80 + n % 64]
  }

  function Bytes(text: string): nat { if text == "" then 0 else Size(text[0]) + Bytes(text[1..]) }

  function EncodeAll(text: string): (bytes: seq<Byte>)
    ensures |bytes| == Bytes(text)
  {
    if text == "" then [] else Encode(text[0]) + EncodeAll(text[1..])
  }

  /** One character of each length. */
  lemma KnownEncodings()
    ensures Encode('A') == [0x41] && Encode('\U{E9}') == [0xC3, 0xA9]
    ensures Encode('\U{20AC}') == [0xE2, 0x82, 0xAC] && Encode('\U{1F600}') == [0xF0, 0x9F, 0x98, 0x80]
  {
  }

  // ---- Decoding ----

  predicate Continues(b: Byte) { 0x80 <= b < 0xC0 }

  /** Length of the sequence a byte leads, 0 when it leads none. */
  function Length(lead: Byte): nat {
    if lead < 0x80 then 1
    else if 0xC2 <= lead < 0xE0 then 2
    else if 0xE0 <= lead < 0xF0 then 3
    else if 0xF0 <= lead < 0xF5 then 4
    else 0
  }

  /** What may follow a leading byte: no overlong forms, no surrogates, nothing above U+10FFFF. */
  predicate Second(lead: Byte, b: Byte) {
    && Continues(b)
    && (lead == 0xE0 ==> b >= 0xA0) && (lead == 0xED ==> b < 0xA0)
    && (lead == 0xF0 ==> b >= 0x90) && (lead == 0xF4 ==> b < 0x90)
  }

  /** How many bytes belong together at the front: a character, or as much of one as there is, or one stray byte. */
  function Front(bytes: seq<Byte>): (k: nat)
    requires bytes != []
    ensures 1 <= k <= |bytes|
  {
    var n := Length(bytes[0]);
    if n <= 1 || |bytes| < 2 || !Second(bytes[0], bytes[1]) then 1
    else if n == 2 || |bytes| < 3 || !Continues(bytes[2]) then 2
    else if n == 3 || |bytes| < 4 || !Continues(bytes[3]) then 3
    else 4
  }

  function Two(a: int, b: int): int { (a - 0xC0) * 64 + (b - 0x80) }

  function Three(a: int, b: int, c: int): int { (a - 0xE0) * 4096 + (b - 0x80) * 64 + (c - 0x80) }

  function Four(a: int, b: int, c: int, d: int): int {
    (a - 0xF0) * 262144 + (b - 0x80) * 4096 + (c - 0x80) * 64 + (d - 0x80)
  }

  /** The character at the front, if it is complete. */
  function FrontChar(bytes: seq<Byte>): char
    requires bytes != []
  {
    var k := Front(bytes);
    if k != Length(bytes[0]) then REPLACEMENT
    else if k == 1 then bytes[0] as char
    else if k == 2 then Two(bytes[0], bytes[1]) as char
    else if k == 3 then Three(bytes[0], bytes[1], bytes[2]) as char
    else Four(bytes[0], bytes[1], bytes[2], bytes[3]) as char
  }

  function Decode(bytes: seq<Byte>): string {
    if bytes == [] then "" else [FrontChar(bytes)] + Decode(bytes[Front(bytes)..])
  }

  // ---- Whole characters ----

  lemma Digits64(n: nat)
    ensures n == n / 64 * 64 + n % 64 && n / 64 == n / 4096 * 64 + n / 64 % 64
    ensures n / 4096 == n / 262144 * 64 + n / 4096 % 64
  {
    assert n / 4096 == n / 64 / 64 && n / 262144 == n / 4096 / 64;
  }

  lemma FrontIsAscii(c: char, rest: seq<Byte>)
    requires c as int < 0x80
    ensures Front(Encode(c) + rest) == |Encode(c)| && FrontChar(Encode(c) + rest) == c
  {
    assert (Encode(c) + rest)[0] == c as int;
  }

  lemma FrontIsTwo(c: char, rest: seq<Byte>)
    requires 0x80 <= c as int < 0x800
    ensures Front(Encode(c) + rest) == |Encode(c)| && FrontChar(Encode(c) + rest) == c
  {
    var n, s := c as int, Encode(c) + rest;
    assert s[0] == 0xC0 + n / 64 && s[1] == 0x80 + n % 64;
    assert Front(s) == 2 && Two(s[0], s[1]) == n;
  }

  lemma FrontIsThree(c: char, rest: seq<Byte>)
    requires 0x800 <= c as int < 0x10000
    ensures Front(Encode(c) + rest) == |Encode(c)| && FrontChar(Encode(c) + rest) == c
  {
    var n, s := c as int, Encode(c) + rest;
    Digits64(n);
    assert s[0] == 0xE0 + n / 4096 && s[1] == 0x80 + n / 64 % 64 && s[2] == 0x80 + n % 64;
    assert Front(s) == 3 && Three(s[0], s[1], s[2]) == n;
  }

  lemma FrontIsFour(c: char, rest: seq<Byte>)
    requires 0x10000 <= c as int
    ensures Front(Encode(c) + rest) == |Encode(c)| && FrontChar(Encode(c) + rest) == c
  {
    var n, s := c as int, Encode(c) + rest;
    Digits64(n);
    assert s[0] == 0xF0 + n / 262144 && s[1] == 0x80 + n / 4096 % 64 && s[2] == 0x80 + n / 64 % 64 && s[3] == 0x80 + n % 64;
    assert Front(s) == 4 && Four(s[0], s[1], s[2], s[3]) == n;
  }

  lemma FrontIsChar(c: char, rest: seq<Byte>)
    ensures Front(Encode(c) + rest) == |Encode(c)| && FrontChar(Encode(c) + rest) == c
  {
    if c as int < 0x80 { FrontIsAscii(c, rest); }
    else if c as int < 0x800 { FrontIsTwo(c, rest); }
    else if c as int < 0x10000 { FrontIsThree(c, rest); }
    else { FrontIsFour(c, rest); }
  }

  lemma DecodeChar(c: char, rest: seq<Byte>)
    ensures Decode(Encode(c) + rest) == [c] + Decode(rest)
  {
    FrontIsChar(c, rest);
    assert (Encode(c) + rest)[|Encode(c)|..] == rest;
  }

  // ---- Slices of a sequence of two parts ----

  lemma SliceOfFirst<T>(a: seq<T>, b: seq<T>, m: nat, n: nat)
    requires m <= n <= |a|
    ensures (a + b)[m..n] == a[m..n]
  {
  }

  lemma SliceOfSecond<T>(a: seq<T>, b: seq<T>, m: nat, n: nat)
    requires |a| <= m <= n <= |a| + |b|
    ensures (a + b)[m..n] == b[m - |a|..n - |a|]
  {
  }

  lemma SliceOfBoth<T>(a: seq<T>, b: seq<T>, m: nat, n: nat)
    requires m <= |a| <= n <= |a| + |b|
    ensures (a + b)[m..n] == a[m..] + b[0..n - |a|]
  {
  }

  // ---- Parts of a character ----

  function Marks(n: nat): string { if n == 0 then "" else [REPLACEMENT] + Marks(n - 1) }

  lemma {:induction false} MarksAre(n: nat)
    ensures |Marks(n)| == n && forall i :: 0 <= i < n ==> Marks(n)[i] == REPLACEMENT
  {
    if n > 0 {
      MarksAre(n - 1);
    }
  }

  /** A character cut short is one mark. */
  lemma TornChar(c: char, j: nat)
    requires 1 <= j < Size(c)
    ensures Decode(Encode(c)[..j]) == Marks(1)
  {
    var part := Encode(c)[..j];
    assert Front(part) == j && FrontChar(part) == REPLACEMENT;
    assert part[j..] == [];
    assert Marks(0) == "";
  }

  lemma TailContinues(c: char, i: nat)
    requires 1 <= i < Size(c)
    ensures Continues(Encode(c)[i])
  {
  }

  /** Bytes that only continue are a mark each. */
  lemma {:induction false} StrayBytes(bytes: seq<Byte>, rest: seq<Byte>)
    requires forall i :: 0 <= i < |bytes| ==> Continues(bytes[i])
    ensures Decode(bytes + rest) == Marks(|bytes|) + Decode(rest)
  {
    if bytes == [] {
      assert [] + rest == rest;
    } else {
      var all := bytes + rest;
      assert Front(all) == 1 && FrontChar(all) == REPLACEMENT;
      assert all[1..] == bytes[1..] + rest;
      StrayBytes(bytes[1..], rest);
    }
  }

  /** The rest of a character cut in front. */
  lemma StrayTail(c: char, m: nat, rest: seq<Byte>)
    requires 1 <= m < Size(c)
    ensures Decode(Encode(c)[m..] + rest) == Marks(Size(c) - m) + Decode(rest)
  {
    var tail := Encode(c)[m..];
    forall i | 0 <= i < |tail| ensures Continues(tail[i]) {
      TailContinues(c, m + i);
    }
    StrayBytes(tail, rest);
  }

  // ---- Slices of an encoded text ----

  /** A place among the bytes: after so many whole characters, and so far inside the next. */
  datatype Place = Place(whole: nat, inside: nat) {
    /** Where the next whole character starts. */
    function Next(): nat { if inside > 0 then whole + 1 else whole }
  }

  function Locate(text: string, n: nat): (place: Place)
    requires n <= Bytes(text)
    ensures place.whole <= |text| && place.inside <= n
    ensures place.inside > 0 ==> place.whole < |text| && place.inside < Size(text[place.whole])
  {
    if n == 0 then Place(0, 0)
    else
      var size := Size(text[0]);
      if n < size then Place(0, n)
      else
        var place := Locate(text[1..], n - size);
        Place(place.whole + 1, place.inside)
  }

  /** Nothing of a character is inside exactly when the bytes up to there encode the characters up to there. */
  lemma {:induction false} NotInsideIff(text: string, n: nat)
    requires n <= Bytes(text)
    ensures Locate(text, n).inside == 0 <==> exists i :: 0 <= i <= |text| && Bytes(text[..i]) == n
  {
    if n == 0 {
      assert text[..0] == "" && Bytes(text[..0]) == 0;
    } else {
      var size, more := Size(text[0]), text[1..];
      forall i | 1 <= i <= |text| ensures Bytes(text[..i]) == size + Bytes(more[..i - 1]) {
        assert text[..i][0] == text[0] && text[..i][1..] == more[..i - 1];
      }
      if n >= size {
        NotInsideIff(more, n - size);
        if j :| 0 <= j <= |more| && Bytes(more[..j]) == n - size {
          assert Bytes(text[..j + 1]) == n;
        }
      }
      if i :| 0 <= i <= |text| && Bytes(text[..i]) == n {
        assert i >= 1 by { assert text[..0] == ""; }
        assert Bytes(more[..i - 1]) == n - size;
      }
    }
  }

  lemma {:induction false} LocateAscends(text: string, m: nat, n: nat)
    requires m <= n <= Bytes(text)
    ensures Locate(text, m).whole <= Locate(text, n).whole && Locate(text, m).Next() <= Locate(text, n).Next()
  {
    if m > 0 && m >= Size(text[0]) {
      LocateAscends(text[1..], m - Size(text[0]), n - Size(text[0]));
    }
  }

  lemma {:induction false} LocateEnd(text: string)
    ensures Locate(text, Bytes(text)) == Place(|text|, 0)
  {
    if text != "" {
      LocateEnd(text[1..]);
    }
  }

  lemma OneMoreChar(text: string, whole: nat, marks: string)
    requires text != "" && whole < |text|
    ensures [text[0]] + (text[1..][..whole] + marks) == text[..whole + 1] + marks
  {
    assert [text[0]] + text[1..][..whole] == text[..whole + 1];
  }

  lemma PrefixInFirst(text: string, n: nat)
    requires text != "" && 0 < n < Size(text[0]) && n <= Bytes(text)
    ensures Decode(EncodeAll(text)[0..n]) == Marks(1)
  {
    SliceOfFirst(Encode(text[0]), EncodeAll(text[1..]), 0, n);
    TornChar(text[0], n);
    assert Encode(text[0])[0..n] == Encode(text[0])[..n];
  }

  lemma PrefixPastFirst(text: string, n: nat)
    requires text != "" && Size(text[0]) <= n <= Bytes(text)
    ensures Decode(EncodeAll(text)[0..n]) == [text[0]] + Decode(EncodeAll(text[1..])[0..n - Size(text[0])])
  {
    var code, more := Encode(text[0]), EncodeAll(text[1..]);
    SliceOfBoth(code, more, 0, n);
    DecodeChar(text[0], more[0..n - |code|]);
    assert code[0..] == code;
  }

  /** The start of the bytes decodes to the whole characters there, and a mark for one that is cut. */
  lemma {:induction false} DecodePrefix(text: string, n: nat)
    requires n <= Bytes(text)
    ensures var place := Locate(text, n);
            Decode(EncodeAll(text)[0..n]) == text[..place.whole] + Marks(if place.inside > 0 then 1 else 0)
  {
    if n == 0 {
      assert EncodeAll(text)[0..0] == [];
    } else if n < Size(text[0]) {
      PrefixInFirst(text, n);
    } else {
      PrefixPastFirst(text, n);
      DecodePrefix(text[1..], n - Size(text[0]));
      var place := Locate(text, n);
      OneMoreChar(text, place.whole - 1, Marks(if place.inside > 0 then 1 else 0));
    }
  }

  /**
   What a slice decodes to: `stray` marks for the end of a character cut in front, the characters from `from` to
   `to`, and `torn` marks (at most one) for the start of a character cut behind.
   */
  datatype Cut = Cut(stray: nat, from: nat, to: nat, torn: nat)

  function CutOf(text: string, m: nat, n: nat): Cut
    requires m <= n <= Bytes(text)
  {
    var a, b := Locate(text, m), Locate(text, n);
    var torn := if b.inside > 0 then 1 else 0;
    if a.inside == 0 then Cut(0, a.whole, b.whole, torn)
    else if b.whole == a.whole then Cut(n - m, a.whole + 1, a.whole + 1, 0)
    else Cut(Size(text[a.whole]) - a.inside, a.whole + 1, b.whole, torn)
  }

  function TextOf(text: string, cut: Cut): string
    requires cut.from <= cut.to <= |text|
  {
    Marks(cut.stray) + text[cut.from..cut.to] + Marks(cut.torn)
  }

  /** The bytes from m to n decode to what the cut says. */
  ghost predicate SliceIs(text: string, m: nat, n: nat, cut: Cut)
    requires m <= n <= Bytes(text)
  {
    cut.from <= cut.to <= |text| && Decode(EncodeAll(text)[m..n]) == TextOf(text, cut)
  }

  lemma CutIsOrdered(text: string, m: nat, n: nat)
    requires m <= n <= Bytes(text)
    ensures var cut := CutOf(text, m, n);
            && cut.from == Locate(text, m).Next() <= cut.to <= |text|
            && cut.torn <= 1 && cut.to + cut.torn == Locate(text, n).Next() <= |text|
  {
    LocateAscends(text, m, n);
  }

  /** The slice starts inside the first character and ends there. */
  lemma SliceInsideFirst(text: string, m: nat, n: nat)
    requires text != "" && 0 < m <= n < Size(text[0]) && n <= Bytes(text)
    ensures Decode(EncodeAll(text)[m..n]) == Marks(n - m)
  {
    var code := Encode(text[0]);
    SliceOfFirst(code, EncodeAll(text[1..]), m, n);
    assert forall i :: 0 <= i < n - m ==> code[m..n][i] == code[m + i];
    forall i | m <= i < n ensures Continues(code[i]) {
      TailContinues(text[0], i);
    }
    StrayBytes(code[m..n], []);
    assert code[m..n] + [] == code[m..n] && Marks(n - m) + "" == Marks(n - m);
  }

  /** The slice starts inside the first character and ends behind it. */
  lemma SliceFromInside(text: string, m: nat, n: nat)
    requires text != "" && 0 < m < Size(text[0]) <= n <= Bytes(text)
    ensures Decode(EncodeAll(text)[m..n])
            == Marks(Size(text[0]) - m) + Decode(EncodeAll(text[1..])[0..n - Size(text[0])])
  {
    var code, more := Encode(text[0]), EncodeAll(text[1..]);
    SliceOfBoth(code, more, m, n);
    StrayTail(text[0], m, more[0..n - |code|]);
  }

  lemma CutInsideFirst(text: string, m: nat, n: nat)
    requires text != "" && 0 < m < Size(text[0]) && m <= n <= Bytes(text)
    ensures n < Size(text[0]) ==> CutOf(text, m, n) == Cut(n - m, 1, 1, 0)
    ensures n >= Size(text[0]) ==>
              var place := Locate(text[1..], n - Size(text[0]));
              CutOf(text, m, n) == Cut(Size(text[0]) - m, 1, place.whole + 1, if place.inside > 0 then 1 else 0)
  {
  }

  lemma TextFromSecond(text: string, whole: nat)
    requires text != "" && whole < |text|
    ensures text[1..][..whole] == text[1..whole + 1]
  {
  }

  lemma Regroup(a: string, b: string, c: string)
    ensures a + (b + c) == (a + b) + c
  {
  }

  lemma JoinMarks(text: string, stray: nat, whole: nat, torn: nat, decoded: string)
    requires text != "" && whole < |text| && decoded == text[1..][..whole] + Marks(torn)
    ensures Marks(stray) + decoded == TextOf(text, Cut(stray, 1, whole + 1, torn))
  {
    TextFromSecond(text, whole);
    Regroup(Marks(stray), text[1..whole + 1], Marks(torn));
  }

  lemma InsideFirstIsMarks(text: string, stray: nat)
    requires text != ""
    ensures TextOf(text, Cut(stray, 1, 1, 0)) == Marks(stray)
  {
    assert text[1..1] == "" && Marks(0) == "";
  }

  lemma TextInsideFirst(text: string, m: nat, n: nat)
    requires text != "" && 0 < m <= n < Size(text[0]) && n <= Bytes(text)
    ensures SliceIs(text, m, n, Cut(n - m, 1, 1, 0))
  {
    SliceInsideFirst(text, m, n);
    InsideFirstIsMarks(text, n - m);
  }

  lemma IsSlice(text: string, m: nat, n: nat, cut: Cut, decoded: string)
    requires m <= n <= Bytes(text) && cut.from <= cut.to <= |text|
    requires Decode(EncodeAll(text)[m..n]) == decoded && decoded == TextOf(text, cut)
    ensures SliceIs(text, m, n, cut)
  {
  }

  lemma TextFromInside(text: string, m: nat, n: nat)
    requires text != "" && 0 < m < Size(text[0]) <= n <= Bytes(text)
    ensures var place := Locate(text[1..], n - Size(text[0]));
            SliceIs(text, m, n, Cut(Size(text[0]) - m, 1, place.whole + 1, if place.inside > 0 then 1 else 0))
  {
    var place := Locate(text[1..], n - Size(text[0]));
    DecodePrefix(text[1..], n - Size(text[0]));
    JoinMarks(text, Size(text[0]) - m, place.whole, if place.inside > 0 then 1 else 0,
              Decode(EncodeAll(text[1..])[0..n - Size(text[0])]));
    SliceFromInside(text, m, n);
    IsSlice(text, m, n, Cut(Size(text[0]) - m, 1, place.whole + 1, if place.inside > 0 then 1 else 0),
            Marks(Size(text[0]) - m) + Decode(EncodeAll(text[1..])[0..n - Size(text[0])]));
  }

  lemma DecodeFromInside(text: string, m: nat, n: nat)
    requires text != "" && 0 < m < Size(text[0]) && m <= n <= Bytes(text)
    ensures SliceIs(text, m, n, CutOf(text, m, n))
  {
    CutInsideFirst(text, m, n);
    if n < Size(text[0]) {
      TextInsideFirst(text, m, n);
    } else {
      TextFromInside(text, m, n);
    }
  }

  lemma DecodeFromStart(text: string, n: nat)
    requires n <= Bytes(text)
    ensures SliceIs(text, 0, n, CutOf(text, 0, n))
  {
    DecodePrefix(text, n);
    var whole := Locate(text, n).whole;
    assert Marks(0) + text[0..whole] == text[..whole];
  }

  lemma ShiftedCut(text: string, m: nat, n: nat)
    requires text != "" && Size(text[0]) <= m <= n <= Bytes(text)
    ensures var rest := CutOf(text[1..], m - Size(text[0]), n - Size(text[0]));
            CutOf(text, m, n) == Cut(rest.stray, rest.from + 1, rest.to + 1, rest.torn)
  {
  }

  /** The slice starts behind the first character. */
  lemma ShiftedText(text: string, cut: Cut)
    requires text != "" && cut.from <= cut.to <= |text[1..]|
    ensures TextOf(text[1..], cut) == TextOf(text, Cut(cut.stray, cut.from + 1, cut.to + 1, cut.torn))
  {
    assert text[1..][cut.from..cut.to] == text[cut.from + 1..cut.to + 1];
  }

  lemma SameBytes(text: string, m: nat, n: nat)
    requires text != "" && Size(text[0]) <= m <= n <= Bytes(text)
    ensures EncodeAll(text)[m..n] == EncodeAll(text[1..])[m - Size(text[0])..n - Size(text[0])]
  {
    SliceOfSecond(Encode(text[0]), EncodeAll(text[1..]), m, n);
  }

  lemma DecodeShifted(text: string, m: nat, n: nat, rest: Cut, cut: Cut)
    requires text != "" && Size(text[0]) <= m <= n <= Bytes(text)
    requires SliceIs(text[1..], m - Size(text[0]), n - Size(text[0]), rest)
    requires cut == Cut(rest.stray, rest.from + 1, rest.to + 1, rest.torn)
    ensures SliceIs(text, m, n, cut)
  {
    SameBytes(text, m, n);
    ShiftedText(text, rest);
  }

  lemma DecodeBehindFirst(text: string, m: nat, n: nat, rest: Cut, cut: Cut)
    requires text != "" && Size(text[0]) <= m <= n <= Bytes(text)
    requires rest == CutOf(text[1..], m - Size(text[0]), n - Size(text[0])) && cut == CutOf(text, m, n)
    requires SliceIs(text[1..], m - Size(text[0]), n - Size(text[0]), rest)
    ensures SliceIs(text, m, n, cut)
  {
    assert cut == Cut(rest.stray, rest.from + 1, rest.to + 1, rest.torn) by { ShiftedCut(text, m, n); }
    DecodeShifted(text, m, n, rest, cut);
  }

  /** Any slice of the bytes, wherever it is cut. */
  lemma {:induction false} DecodeSlice(text: string, m: nat, n: nat)
    requires m <= n <= Bytes(text)
    ensures SliceIs(text, m, n, CutOf(text, m, n))
  {
    if m == 0 {
      DecodeFromStart(text, n);
    } else if m >= Size(text[0]) {
      DecodeSlice(text[1..], m - Size(text[0]), n - Size(text[0]));
      var size := Size(text[0]);
      DecodeBehindFirst(text, m, n, CutOf(text[1..], m - size, n - size), CutOf(text, m, n));
    } else {
      DecodeFromInside(text, m, n);
    }
  }

  /** Decoding undoes encoding. */
  lemma DecodeUndoesEncode(text: string)
    ensures Decode(EncodeAll(text)) == text
  {
    DecodePrefix(text, Bytes(text));
    LocateEnd(text);
    assert EncodeAll(text)[0..Bytes(text)] == EncodeAll(text);
    assert text[..|text|] + Marks(0) == text;
  }
}
