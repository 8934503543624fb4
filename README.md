# 15-puzzle tile, verified model

This project models the tile of a console sliding-tile puzzle (the
"15-puzzle") and the text a tile is written as. A tile holds one C++ `int`.
The number 0 marks the empty slot. Writing a tile to an output stream pads
its decimal number with spaces, and the padding depends on the number's range:

- 10 and up: one space on each side, so two-digit numbers are 4 characters wide;
- 1 to 9: two spaces on each side, always 5 characters wide;
- 0, the empty tile: three spaces;
- a negative number: nothing is written.

The widths are not uniform: 3, 4 or 5 characters for the numbers of a
4x4 or 5x5 board. From 100 up the width is the digit count plus 2, although
main.cpp:24 is commented `// two digits`. The model keeps these widths
exactly as the code writes them.

Files:

- `decimal.dfy`, module `Decimal`: the decimal digits of a natural number,
  reading a run of digits back into a number, and the digit count in terms of
  powers of ten.
- `tile.dfy`, module `Tiles`: the `Tile` datatype with `IsEmpty` and `Num`,
  its two constructors, `Render` (the text `operator<<` appends), `Write` and
  `WriteAll` (appending to a stream's text, one tile or a chain of `<<`),
  `RenderAll` (the renderings of a row of tiles, joined in order), and the
  lemmas about the rendered text.

C++ `int` is modelled as the subset type `Int32`, the range
[-2^31, 2^31). No operation here does arithmetic on the number, so no
wrap-around arises.

## Model

| member | source | states |
|---|---|---|
| Tiles.DefaultTile | main.cpp:6-9 | a default-constructed tile has number 0 and is empty |
| Tiles.NewTile | main.cpp:10-18 | the explicit constructor keeps its number, `getNum` returns it, and the tile is empty exactly when that number is 0 |
| Tiles.Render | main.cpp:22-31 | the written text holds only spaces and digits, and it is empty exactly when the number is negative |
| Tiles.Write | main.cpp:22-31 | writing a tile keeps the text already in the stream and appends exactly the tile's rendering |
| Tiles.WriteAll | main.cpp:22-31 | a chain of writes only ever extends the stream's text |
| Tiles.RenderAll | main.cpp:22-31 | the renderings of a row of tiles joined in order are as long as the sum of the tiles' widths |
| Tiles.WriteAllContents | main.cpp:22-31 | a chain of writes appends each tile's rendering, in order, after the text already in the stream |
| Tiles.WriteAllLength | main.cpp:22-31 | a chain of writes adds the sum of the tiles' widths to the stream's length |
| Tiles.RenderMultiDigit | main.cpp:24-25 | from 10 up the text is a space, the digits with no leading zero, and a space; its width is the digit count plus 2, hence 4 for 10 to 99 |
| Tiles.RenderSingleDigit | main.cpp:26-27 | from 1 to 9 the text is two spaces, the one digit, two spaces: always 5 characters |
| Tiles.RenderEmpty | main.cpp:28-29 | the empty tile is written as exactly three spaces, with no digit |
| Tiles.RenderNegative | main.cpp:24-30 | no branch applies to a negative number, so nothing is written, the same for every negative number |
| Tiles.EmptyIffBlank | main.cpp:14-15 | a tile is written as three spaces if and only if it is the empty tile |
| Tiles.RenderWidths | main.cpp:24-29 | for numbers 0 to 99 the widths are 4, 5 and 3 characters by range, not one fixed width |
| Tiles.StripRender | main.cpp:24-27 | removing the spaces from a positive tile's text leaves exactly the number's decimal digits |
| Tiles.RenderRoundTrip | main.cpp:24-29 | for every tile that is not negative, reading the digits left after removing the spaces gives back the tile's number; the empty tile leaves no digit, which reads as 0 |
| Tiles.RenderInjective | main.cpp:24-29 | two tiles that are not negative are written alike only when they hold the same number |
| Tiles.DemoLine | main.cpp:34-40 | tiles 10, 8, 0 and 1 written in a row give `" 10   8       1  "`, 17 characters |
| Decimal.Digits | main.cpp:25 | the decimal text of a number has at least one digit, no leading zero for a positive number, and `10^(k-1) <= n < 10^k` for its length `k` |
| Decimal.Parse | main.cpp:25 | a run of `k` digits denotes a number below `10^k` |
| Decimal.ParseDigits | main.cpp:25 | reading back the digits of a number gives the number |
| Decimal.DigitsInjective | main.cpp:25 | different numbers have different decimal texts |
| Decimal.DigitsCount | main.cpp:24-27 | numbers 1 to 9 have one digit and 10 to 99 have two |

## Left out

- `main` (main.cpp:32-46) is a console demonstration. Its ruler, the `std::boolalpha` output and the
  printed numbers are I/O. Only the line of tiles it prints is checked, by `Tiles.DemoLine`.
- `std::ostream` itself is not modelled. A stream's text is a string, and `<<` appends to it.
- `Decimal.Digits` assumes the stream's default formatting state. Under flags the caller may set
  (`std::hex`, `std::showpos`, `std::setw`/`std::setfill`, a locale with digit grouping) the number
  written at main.cpp:25 and main.cpp:27 would differ; the model does not cover those states.
- `operator<<` takes the tile by value, so writing it cannot change it, and `getNum` afterwards
  returns the same number. In the model a tile is an immutable value and `Render` is a function,
  so this holds by construction; no separate lemma states it.
- The board, directions, positions, moves, shuffling and win detection are not part of this
  model. The source in main.cpp defines only the tile.
