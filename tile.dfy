/**
 The puzzle's tile and its text rendering.

 A tile is a value holding one C++ `int`; the number 0 marks the empty tile.
 Writing a tile to a stream pads its decimal number with spaces, with a
 different padding for each range of numbers: one space on each side from 10
 up, two spaces on each side for 1 to 9, three spaces for the empty tile and
 nothing at all for a negative number.
 */
module Tiles {
  import opened Decimal

  /** The range of a 32-bit C++ `int`. */
  type Int32 = x: int | -0x8000_0000 <= x < 0x8000_0000

  datatype Tile = Tile(number: Int32) {

    /** The tile of number 0 is the empty tile. */
    predicate IsEmpty() {
      number == 0
    }

    /** The tile's number. */
    function Num(): Int32 {
      number
    }
  }

  /** A default-constructed tile: its number is value-initialised to 0. */
  function DefaultTile(): (t: Tile)
    ensures t.Num() == 0 && t.IsEmpty()
  {
    Tile(0)
  }

  /** The explicit constructor keeps the number it is given. */
  function NewTile(number: Int32): (t: Tile)
    ensures t.Num() == number
    ensures t.IsEmpty() <==> number == 0
  {
    Tile(number)
  }

  /**
   The text that writing `t` to a stream appends. Only spaces and digits
   appear in it, and it is empty exactly when the number is negative.
   */
  function Render(t: Tile): (r: string)
    ensures forall i :: 0 <= i < |r| ==> r[i] == ' ' || IsDigit(r[i])
    ensures r == [] <==> t.Num() < 0
  {
    var n := t.Num();
    if n > 9 then " " + Digits(n) + " "
    else if n > 0 then "  " + Digits(n) + "  "
    else if n == 0 then "   "
    else ""
  }

  /** Writing a tile to a stream whose text so far is `out`. */
  function Write(out: string, t: Tile): (out': string)
    ensures out <= out' && out'[|out|..] == Render(t)
  {
    out + Render(t)
  }

  /**
   Writing several tiles one after another, as a chain of `<<` does: each
   `<<` returns the stream it wrote to, so the next tile is written after it.
   */
  function WriteAll(out: string, tiles: seq<Tile>): (out': string)
    ensures out <= out'
    decreases tiles
  {
    if tiles == [] then out else WriteAll(Write(out, tiles[0]), tiles[1..])
  }

  /** The renderings of `tiles`, in order, joined together. */
  function RenderAll(tiles: seq<Tile>): (r: string)
    ensures |r| == SumWidths(tiles)
  {
    if tiles == [] then "" else Render(tiles[0]) + RenderAll(tiles[1..])
  }

  /** A chain of writes appends each tile's rendering, in order, to what was there. */
  lemma {:induction false} WriteAllContents(out: string, tiles: seq<Tile>)
    ensures WriteAll(out, tiles) == out + RenderAll(tiles)
    decreases tiles
  {
    if tiles != [] {
      WriteAllContents(Write(out, tiles[0]), tiles[1..]);
      assert out + Render(tiles[0]) + RenderAll(tiles[1..]) == out + RenderAll(tiles);
    }
  }

  /** The text of a number of two or more digits: one space, the digits, one space. */
  lemma RenderMultiDigit(t: Tile)
    requires t.Num() > 9
    ensures |Render(t)| == |Digits(t.Num())| + 2
    ensures Render(t)[0] == ' ' && Render(t)[|Render(t)| - 1] == ' '
    ensures Render(t)[1] != '0' && AllDigits(Render(t)[1..|Render(t)| - 1])
    ensures Pow10(|Render(t)| - 3) <= t.Num() < Pow10(|Render(t)| - 2)
    ensures t.Num() <= 99 ==> |Render(t)| == 4
  {
  }

  /** The text of a one-digit number is always five characters wide. */
  lemma RenderSingleDigit(t: Tile)
    requires 1 <= t.Num() <= 9
    ensures |Render(t)| == 5
    ensures Render(t) == "  " + [DigitChar(t.Num())] + "  "
  {
  }

  /** The empty tile is three spaces and shows no digit. */
  lemma RenderEmpty(t: Tile)
    requires t.IsEmpty()
    ensures Render(t) == "   "
    ensures forall i :: 0 <= i < |Render(t)| ==> !IsDigit(Render(t)[i])
  {
  }

  /** A tile renders as three spaces exactly when it is the empty tile. */
  lemma EmptyIffBlank(t: Tile)
    ensures t.IsEmpty() <==> Render(t) == "   "
  {
  }

  /** The widths of the rendered text for every number a 15- or 24-puzzle holds. */
  lemma RenderWidths(t: Tile)
    requires 0 <= t.Num() <= 99
    ensures |Render(t)| == (if t.Num() > 9 then 4 else if t.Num() > 0 then 5 else 3)
  {
  }

  /** The text with every space removed. */
  function StripSpaces(s: string): (r: string)
    ensures |r| <= |s|
    ensures forall i :: 0 <= i < |r| ==> r[i] != ' ' && r[i] in s
  {
    if s == [] then []
    else (if s[0] == ' ' then [] else [s[0]]) + StripSpaces(s[1..])
  }

  lemma {:induction false} StripSpacesAppend(a: string, b: string)
    ensures StripSpaces(a + b) == StripSpaces(a) + StripSpaces(b)
  {
    if a == [] {
      assert a + b == b;
    } else {
      assert (a + b)[0] == a[0];
      assert (a + b)[1..] == a[1..] + b;
      StripSpacesAppend(a[1..], b);
    }
  }

  lemma {:induction false} StripSpacesOfDigits(s: string)
    requires AllDigits(s)
    ensures StripSpaces(s) == s
  {
    if s != [] { StripSpacesOfDigits(s[1..]); }
  }

  /** Removing the padding leaves exactly the digits of the number. */
  lemma StripRender(t: Tile)
    requires t.Num() >= 1
    ensures StripSpaces(Render(t)) == Digits(t.Num())
  {
    var n := t.Num();
    var pad := if n > 9 then " " else "  ";
    assert StripSpaces(pad) == [];
    StripSpacesAppend(pad + Digits(n), pad);
    StripSpacesAppend(pad, Digits(n));
    StripSpacesOfDigits(Digits(n));
  }

  /**
   Round trip: removing the spaces from a rendered tile and reading the
   remaining digits gives back the tile's number. The empty tile leaves no
   digit at all, and no digits read as 0.
   */
  lemma RenderRoundTrip(t: Tile)
    requires t.Num() >= 0
    ensures AllDigits(StripSpaces(Render(t)))
    ensures Parse(StripSpaces(Render(t))) == t.Num()
  {
    if t.Num() == 0 {
      var blank := Render(t);
      assert blank == "   ";
      assert StripSpaces(blank[1..][1..]) == [];
      assert StripSpaces(blank) == [];
    } else {
      StripRender(t);
      ParseDigits(t.Num());
    }
  }

  /** Two tiles that are not negative render alike only when they are equal. */
  lemma RenderInjective(a: Tile, b: Tile)
    requires a.Num() >= 0 && b.Num() >= 0
    requires Render(a) == Render(b)
    ensures a == b
  {
    EmptyIffBlank(a);
    EmptyIffBlank(b);
    if a.Num() > 0 && b.Num() > 0 {
      RenderRoundTrip(a);
      RenderRoundTrip(b);
    }
  }

  /** Every negative tile renders as nothing, so its number cannot be read back. */
  lemma RenderNegative(t: Tile)
    requires t.Num() < 0
    ensures Render(t) == "" && Render(t) == Render(Tile(-1))
  {
  }

  /** The length of a chain of writes is the sum of the tiles' widths. */
  lemma {:induction false} WriteAllLength(out: string, tiles: seq<Tile>)
    ensures |WriteAll(out, tiles)| == |out| + SumWidths(tiles)
    decreases tiles
  {
    if tiles != [] { WriteAllLength(Write(out, tiles[0]), tiles[1..]); }
  }

  function SumWidths(tiles: seq<Tile>): nat {
    if tiles == [] then 0 else |Render(tiles[0])| + SumWidths(tiles[1..])
  }

  /** The demonstration line: tiles 10, 8, 0 and 1 written after one another. */
  lemma DemoLine()
    ensures WriteAll("", [Tile(10), Tile(8), Tile(0), Tile(1)]) == " 10   8       1  "
  {
  }
}
