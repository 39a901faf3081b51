/**
 electron/main.js: a chat reply arrives as decoded chunks cut anywhere; flushSseBuffer sends the frames that
 are complete and hands back the unfinished tail, to which the next chunk is appended.
 */
module SseSplitter {
  import opened Common

  const BREAK: string := "\n\n"

  predicate BreakAt(text: string, i: nat) {
    i + 1 < |text| && text[i] == '\n' && text[i + 1] == '\n'
  }

  predicate NoBreak(text: string) {
    forall i: nat :: i < |text| ==> !BreakAt(text, i)
  }

  /** `indexOf('\n\n', from)` */
  function IndexOfBreak(text: string, from: nat): (index: int)
    ensures -1 <= index
    ensures index >= 0 ==> from <= index && BreakAt(text, index)
    ensures forall j: nat :: from <= j && (index == -1 || j < index) ==> !BreakAt(text, j)
    decreases |text| - from
  {
    if from + 1 >= |text| then -1 else if BreakAt(text, from) then from else IndexOfBreak(text, from + 1)
  }

  datatype Split = Split(frames: seq<string>, rest: string)

  /** Cut at each leftmost break; what follows the last one is the rest. */
  function SplitFrames(text: string): Split
    decreases |text|
  {
    var i := IndexOfBreak(text, 0);
    if i < 0 then Split([], text)
    else var tail := SplitFrames(text[i + 2..]); Split([text[..i]] + tail.frames, tail.rest)
  }

  // ---- What splitting means ----

  function Join(frames: seq<string>, rest: string): string {
    if frames == [] then rest else frames[0] + BREAK + Join(frames[1..], rest)
  }

  /** No break inside a frame, nor one that starts with the frame's last character. */
  ghost predicate WellSplit(frames: seq<string>, rest: string) {
    (forall i :: 0 <= i < |frames| ==> NoBreak(frames[i] + "\n")) && NoBreak(rest)
  }

  lemma NoEarlierBreak(text: string, i: nat)
    requires i == IndexOfBreak(text, 0)
    ensures NoBreak(text[..i] + "\n")
  {
    forall j: nat | j < i + 1 ensures !BreakAt(text[..i] + "\n", j) {
      assert !BreakAt(text, j) || j == i;
    }
  }

  lemma {:induction false} SplitJoins(text: string)
    ensures var s := SplitFrames(text); Join(s.frames, s.rest) == text && WellSplit(s.frames, s.rest)
    decreases |text|
  {
    var i := IndexOfBreak(text, 0);
    if i < 0 {
      assert NoBreak(text);
    } else {
      SplitJoins(text[i + 2..]);
      var s, tail := SplitFrames(text), SplitFrames(text[i + 2..]);
      assert s.frames[1..] == tail.frames;
      assert text == text[..i] + BREAK + text[i + 2..];
      NoEarlierBreak(text, i);
    }
  }

  lemma FirstBreak(frame: string, tail: string)
    requires NoBreak(frame + "\n")
    ensures IndexOfBreak(frame + BREAK + tail, 0) == |frame|
  {
    var text := frame + BREAK + tail;
    assert BreakAt(text, |frame|);
    forall j: nat | j < |frame| ensures !BreakAt(text, j) {
      assert !BreakAt(frame + "\n", j);
    }
  }

  /** There is only one way to cut a text into frames and a rest: the one the splitter finds. */
  lemma {:induction false} SplitIsUnique(frames: seq<string>, rest: string)
    requires WellSplit(frames, rest)
    ensures SplitFrames(Join(frames, rest)) == Split(frames, rest)
    decreases |frames|
  {
    if frames == [] {
      assert IndexOfBreak(rest, 0) == -1;
    } else {
      var tail := Join(frames[1..], rest);
      FirstBreak(frames[0], tail);
      var text := frames[0] + BREAK + tail;
      assert text[|frames[0]| + 2..] == tail;
      assert text[..|frames[0]|] == frames[0];
      SplitIsUnique(frames[1..], rest);
    }
  }

  // ---- Chunks ----

  lemma BreakStays(a: string, b: string)
    requires IndexOfBreak(a, 0) >= 0
    ensures IndexOfBreak(a + b, 0) == IndexOfBreak(a, 0)
  {
    var i := IndexOfBreak(a, 0);
    assert BreakAt(a + b, i);
    forall j: nat | j < i ensures !BreakAt(a + b, j) {
      assert !BreakAt(a, j);
    }
  }

  /** Splitting may stop after any prefix and resume from the rest it left. */
  lemma {:induction false} SplitResumes(a: string, b: string)
    ensures var s := SplitFrames(a);
            var t := SplitFrames(s.rest + b);
            SplitFrames(a + b) == Split(s.frames + t.frames, t.rest)
    decreases |a|
  {
    var i := IndexOfBreak(a, 0);
    if i < 0 {
      assert SplitFrames(a).rest == a;
    } else {
      BreakStays(a, b);
      assert (a + b)[i + 2..] == a[i + 2..] + b;
      assert (a + b)[..i] == a[..i];
      SplitResumes(a[i + 2..], b);
    }
  }

  function Concat(pieces: seq<string>): string {
    if pieces == [] then "" else Concat(pieces[..|pieces| - 1]) + pieces[|pieces| - 1]
  }

  /** Chunk after chunk: split the kept rest followed by the new chunk, keep the new rest. */
  function Pump(pieces: seq<string>): Split {
    if pieces == [] then Split([], "")
    else
      var before := Pump(pieces[..|pieces| - 1]);
      var now := SplitFrames(before.rest + pieces[|pieces| - 1]);
      Split(before.frames + now.frames, now.rest)
  }

  /** However the text is cut into chunks, the frames and the rest are those of the whole text. */
  lemma {:induction false} PumpIsSplit(pieces: seq<string>)
    ensures Pump(pieces) == SplitFrames(Concat(pieces))
  {
    if pieces != [] {
      PumpIsSplit(pieces[..|pieces| - 1]);
      SplitResumes(Concat(pieces[..|pieces| - 1]), pieces[|pieces| - 1]);
    }
  }

  // ---- Sending ----

  /** What String.prototype.trim removes (white space and line terminators of ECMAScript). */
  predicate IsSpace(c: char) {
    var n := c as int;
    || 0x9 <= n <= 0xD || n == 0x20 || n == 0xA0 || n == 0x1680 || 0x2000 <= n <= 0x200A
    || n == 0x2028 || n == 0x2029 || n == 0x202F || n == 0x205F || n == 0x3000 || n == 0xFEFF
  }

  predicate Blank(frame: string) {
    forall i :: 0 <= i < |frame| ==> IsSpace(frame[i])
  }

  function NonBlank(frames: seq<string>): seq<string> {
    if frames == [] then []
    else NonBlank(frames[..|frames| - 1]) + (if Blank(frames[|frames| - 1]) then [] else [frames[|frames| - 1]])
  }

  lemma {:induction false} NonBlankConcat(a: seq<string>, b: seq<string>)
    ensures NonBlank(a + b) == NonBlank(a) + NonBlank(b)
  {
    if b == [] {
      assert a + b == a;
    } else {
      assert (a + b)[..|a + b| - 1] == a + b[..|b| - 1];
      NonBlankConcat(a, b[..|b| - 1]);
    }
  }

  /** Each frame is sent as often as it was framed, unless it holds nothing but white space. */
  lemma {:induction false} NonBlankKeeps(frames: seq<string>, frame: string)
    ensures multiset(NonBlank(frames))[frame]
            == if exists i :: 0 <= i < |frame| && !IsSpace(frame[i]) then multiset(frames)[frame] else 0
  {
    if frames != [] {
      NonBlankKeeps(frames[..|frames| - 1], frame);
      assert frames == frames[..|frames| - 1] + [frames[|frames| - 1]];
    }
  }

  /** What is sent is what was framed, in order. */
  lemma {:induction false} NonBlankKeepsOrder(frames: seq<string>, i: nat, j: nat) returns (k: nat, l: nat)
    requires i < j < |NonBlank(frames)|
    ensures k < l < |frames| && frames[k] == NonBlank(frames)[i] && frames[l] == NonBlank(frames)[j]
  {
    var front := frames[..|frames| - 1];
    if j < |NonBlank(front)| {
      k, l := NonBlankKeepsOrder(front, i, j);
    } else {
      l := |frames| - 1;
      k := NonBlankPlace(front, i);
    }
  }

  lemma {:induction false} NonBlankPlace(frames: seq<string>, i: nat) returns (k: nat)
    requires i < |NonBlank(frames)|
    ensures k < |frames| && frames[k] == NonBlank(frames)[i]
  {
    k := |frames| - 1;
    if i < |NonBlank(frames[..k])| {
      k := NonBlankPlace(frames[..k], i);
    }
  }

  /** The renderer a stream reports to; `sent` lists the frames it was sent, `destroyed` is set from outside. */
  class Target {
    var destroyed: bool
    var sent: seq<string>

    constructor ()
      ensures !destroyed && sent == []
    {
      destroyed, sent := false, [];
    }
  }

  lemma AppendTwice(a: seq<string>, b: seq<string>, c: seq<string>)
    ensures (a + b) + c == a + (b + c)
    ensures a + (b + []) == a + b
  {
  }

  /** What is done and what is still to do make up the whole. */
  ghost predicate Progress(whole: Split, frames: seq<string>, working: string) {
    whole == Split(frames + SplitFrames(working).frames, SplitFrames(working).rest)
  }

  /** One turn of the flush loop: the next frame moves from the working text to the frames. */
  lemma FlushTurn(whole: Split, frames: seq<string>, working: string, index: nat, sent: seq<string>)
    requires index == IndexOfBreak(working, 0) && Progress(whole, frames, working)
    ensures var frame := working[..index];
            && Progress(whole, frames + [frame], working[index + 2..])
            && sent + NonBlank(frames + [frame])
               == if Blank(frame) then sent + NonBlank(frames) else (sent + NonBlank(frames)) + [frame]
  {
    var frame, tail := working[..index], SplitFrames(working[index + 2..]);
    AppendTwice(frames, [frame], tail.frames);
    assert (frames + [frame])[..|frames|] == frames;
    AppendTwice(sent, NonBlank(frames), [frame]);
  }

  lemma FlushEnds(whole: Split, frames: seq<string>, working: string)
    requires IndexOfBreak(working, 0) == -1 && Progress(whole, frames, working)
    ensures whole == Split(frames, working)
  {
    assert frames + [] == frames;
  }

  method FlushSseBuffer(target: Target, buffer: string) returns (rest: string)
    modifies target`sent
    ensures target.destroyed ==> rest == "" && target.sent == old(target.sent)
    ensures !target.destroyed ==>
              rest == SplitFrames(buffer).rest && target.sent == old(target.sent) + NonBlank(SplitFrames(buffer).frames)
  {
    if target.destroyed { return ""; }
    var working := buffer;
    var index := IndexOfBreak(working, 0);
    ghost var frames: seq<string>, whole, sent := [], SplitFrames(buffer), target.sent;
    assert Progress(whole, frames, working) && sent == sent + NonBlank(frames);
    while index != -1
      invariant index == IndexOfBreak(working, 0)
      invariant Progress(whole, frames, working)
      invariant target.sent == sent + NonBlank(frames)
      decreases |working|
    {
      FlushTurn(whole, frames, working, index, sent);
      var frame := working[..index];
      working := working[index + 2..];
      if !Blank(frame) && !target.destroyed {
        target.sent := target.sent + [frame];
      }
      frames := frames + [frame];
      index := IndexOfBreak(working, 0);
    }
    FlushEnds(whole, frames, working);
    rest := working;
  }

  lemma PumpTurn(pieces: seq<string>, i: nat)
    requires i < |pieces|
    ensures var before, now := Pump(pieces[..i]), SplitFrames(Pump(pieces[..i]).rest + pieces[i]);
            && Pump(pieces[..i + 1]).rest == now.rest
            && NonBlank(Pump(pieces[..i + 1]).frames) == NonBlank(before.frames) + NonBlank(now.frames)
  {
    assert pieces[..i + 1][..i] == pieces[..i];
    NonBlankConcat(Pump(pieces[..i]).frames, SplitFrames(Pump(pieces[..i]).rest + pieces[i]).frames);
  }

  /**
   The read loop of the stream handler; the last piece is what the decoder still holds at the end of the
   reply, and what is left in the buffer after it is dropped. The target is destroyed just before piece
   number `closesBefore` arrives, or never when that is past the end.
   */
  method PumpReply(target: Target, pieces: seq<string>, closesBefore: nat)
    requires !target.destroyed
    modifies target
    ensures var heard := pieces[..Min(closesBefore, |pieces|)];
            target.sent == old(target.sent) + NonBlank(SplitFrames(Concat(heard)).frames)
  {
    var buffer := "";
    ghost var heard := 0;
    for i := 0 to |pieces|
      invariant target.destroyed <==> i > closesBefore
      invariant heard == Min(i, closesBefore)
      invariant i <= closesBefore ==> buffer == Pump(pieces[..i]).rest
      invariant target.sent == old(target.sent) + NonBlank(Pump(pieces[..heard]).frames)
    {
      PumpTurn(pieces, i);
      AppendTwice(old(target.sent), NonBlank(Pump(pieces[..i]).frames), NonBlank(SplitFrames(buffer + pieces[i]).frames));
      if i == closesBefore {
        target.destroyed := true;
      }
      buffer := FlushSseBuffer(target, buffer + pieces[i]);
      heard := Min(i + 1, closesBefore);
    }
    PumpIsSplit(pieces[..heard]);
  }
}
