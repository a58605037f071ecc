// Python's splitlines on UTF-8 text. It breaks at more places than a newline: at a carriage
// return, at four separators below the space, and at U+0085, U+2028 and U+2029.
module SplitLines {
  import opened Wrappers

  const NEWLINE := 10

  // The length of the line break that the text starts with, or zero.
  function Break(text: Bytes): (n: nat)
    ensures n <= |text|
  {
    if text == [] then 0
    else if text[0] == 13 then (if |text| > 1 && text[1] == NEWLINE then 2 else 1)
    else if 10 <= text[0] <= 12 || 28 <= text[0] <= 30 then 1
    else if |text| > 1 && text[0] == 0xC2 && text[1] == 0x85 then 2
    else if |text| > 2 && text[0] == 0xE2 && text[1] == 0x80 && 0xA8 <= text[2] <= 0xA9 then 3
    else 0
  }

  // The text before the first break, or all of it.
  function FirstPiece(text: Bytes): (piece: Bytes)
    ensures |piece| <= |text| && piece == text[..|piece|]
    ensures |piece| < |text| ==> Break(text[|piece|..]) > 0
  {
    if text == [] || Break(text) > 0 then [] else [text[0]] + FirstPiece(text[1..])
  }

  // What comes after the first break.
  function AfterBreak(text: Bytes): (rest: Bytes)
    requires text != []
    ensures |rest| < |text|
  {
    var n := |FirstPiece(text)|;
    if n < |text| then text[n + Break(text[n..])..] else []
  }

  // The pieces between the breaks, without an empty piece after the last one.
  function Pieces(text: Bytes): (r: seq<Bytes>)
    decreases |text|
  {
    if text == [] then [] else [FirstPiece(text)] + Pieces(AfterBreak(text))
  }

  predicate Unbroken(line: Bytes) { forall i :: 0 <= i < |line| ==> Break(line[i..]) == 0 }

  // A break within a line is one whatever follows the newline at its end.
  lemma BreakStays(line: Bytes, rest: Bytes)
    requires line != []
    ensures Break(line) > 0 <==> Break(line + [NEWLINE] + rest) > 0
  {
    var text := line + [NEWLINE] + rest;
    assert text[|line|] == NEWLINE && forall i :: 0 <= i < |line| ==> text[i] == line[i];
  }

  lemma UnbrokenTail(line: Bytes)
    requires line != []
    ensures Unbroken(line) <==> Break(line) == 0 && Unbroken(line[1..])
  {
    hide Break;
    assert line[0..] == line;
    assert forall i :: 0 <= i < |line| - 1 ==> line[1..][i..] == line[i + 1..];
    if Break(line) == 0 && Unbroken(line[1..]) {
      forall i | 0 <= i < |line| ensures Break(line[i..]) == 0 {
        if i > 0 { assert line[1..][i - 1..] == line[i..]; }
      }
    }
  }

  // How far the first piece of a line goes that a newline ends.
  lemma {:induction false} PieceOf(line: Bytes, rest: Bytes)
    ensures var piece := FirstPiece(line + [NEWLINE] + rest);
            |piece| <= |line| && piece == line[..|piece|] && (|piece| == |line| <==> Unbroken(line))
  {
    var text := line + [NEWLINE] + rest;
    if line == [] {
      assert text[0] == NEWLINE;
    } else {
      assert text[1..] == line[1..] + [NEWLINE] + rest;
      BreakStays(line, rest);
      UnbrokenTail(line);
      PieceOf(line[1..], rest);
      hide Break, Unbroken;
      if Break(text) == 0 {
        var tail := FirstPiece(text[1..]);
        assert FirstPiece(text) == [line[0]] + tail;
        assert line[..|tail| + 1] == [line[0]] + line[1..][..|tail|];
      }
    }
  }

  lemma NewlineBreaks(line: Bytes, rest: Bytes)
    ensures var text := line + [NEWLINE] + rest;
            Break(text[|line|..]) == 1 && text[|line| + 1..] == rest && text[..|line|] == line
  {
    assert (line + [NEWLINE] + rest)[|line|..] == [NEWLINE] + rest;
  }

  // A line is the first piece exactly when nothing in it breaks.
  lemma PiecesCons(line: Bytes, rest: Bytes)
    ensures var pieces := Pieces(line + [NEWLINE] + rest);
            if Unbroken(line) then pieces == [line] + Pieces(rest)
            else pieces != [] && exists k :: 0 <= k < |line| && pieces[0] == line[..k]
  {
    var text := line + [NEWLINE] + rest;
    PieceOf(line, rest);
    NewlineBreaks(line, rest);
    assert Unbroken(line) ==> AfterBreak(text) == rest;
    hide Unbroken, Break, FirstPiece, AfterBreak;
    assert Pieces(text)[0] == FirstPiece(text) == line[..|FirstPiece(text)|];
  }

  // Some bytes that stay a break wherever they stand.
  ghost predicate IsBreak(mark: Bytes) { mark == [0xC2, 0x85] || mark == [0xE2, 0x80, 0xA8] || mark == [0xE2, 0x80, 0xA9] }

  // A line without control characters is unbroken exactly when it holds none of the three.
  lemma UnbrokenIff(line: Bytes)
    requires forall i :: 0 <= i < |line| ==> line[i] >= 32
    ensures Unbroken(line) <==> !exists p, mark, s :: IsBreak(mark) && line == p + mark + s
  {
    if !Unbroken(line) {
      var i :| 0 <= i < |line| && Break(line[i..]) > 0;
      var p, mark, s := Around(line, i);
    }
    hide Unbroken;
    forall p, mark, s | IsBreak(mark) && line == p + mark + s ensures !Unbroken(line) { Breaks(p, mark, s); }
  }

  lemma Around(line: Bytes, i: nat) returns (p: Bytes, mark: Bytes, s: Bytes)
    requires i < |line| && line[i] >= 32 && Break(line[i..]) > 0
    ensures IsBreak(mark) && line == p + mark + s
  {
    var n := Break(line[i..]);
    p, mark, s := line[..i], line[i..][..n], line[i..][n..];
  }

  lemma Breaks(p: Bytes, mark: Bytes, s: Bytes)
    requires IsBreak(mark)
    ensures !Unbroken(p + mark + s)
  {
    var line := p + mark + s;
    assert line[|p|..] == mark + s;
    assert Break(mark + s) > 0;
  }
}
