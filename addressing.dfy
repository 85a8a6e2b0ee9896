/**
 * The mapping from the display's logical 17x7 grid onto the linear LED
 * index space (0..143) of the IS31FL3731 matrix chip. The left half of the
 * grid (columns 0..8) uses rows 1..7 of each 16-LED bank in reverse order;
 * the right half (columns 9..16) is folded back onto banks 8..1 using rows
 * 8..14.
 */
module Addressing {
  import opened Wrappers

  const WIDTH := 17
  const HEIGHT := 7
  /** LEDs per chip frame. */
  const LEDS := 144

  predicate InGrid(x: int, y: int) {
    0 <= x < WIDTH && 0 <= y < HEIGHT
  }

  /** Display.pixel_addr: total over all integers, as in the driver. */
  function PixelAddr(x: int, y: int): (a: int)
    ensures InGrid(x, y) ==> 1 <= a <= 142
  {
    if x > 8 then (17 - x) * 16 + (y + 8) else x * 16 + (7 - y)
  }

  /**
   * The grid position an LED index belongs to, if any: the inverse of
   * PixelAddr, computed from the bank (index / 16) and the row inside the
   * bank (index % 16).
   */
  function Coords(i: int): (r: Option<(int, int)>)
    ensures r.Some? ==> InGrid(r.value.0, r.value.1)
  {
    if i < 0 || i >= LEDS then None
    else
      var bank, row := i / 16, i % 16;
      if 1 <= row <= 7 then Some((bank, 7 - row))
      else if 8 <= row <= 14 && 1 <= bank then Some((17 - bank, row - 8))
      else None
  }

  /** Every grid position lands on a chip LED, and the left and right halves use disjoint rows of each bank. */
  lemma PixelAddrRange(x: int, y: int)
    requires InGrid(x, y)
    ensures 1 <= PixelAddr(x, y) <= 142 && PixelAddr(x, y) < LEDS
    ensures x <= 8 ==> 1 <= PixelAddr(x, y) % 16 <= 7 && PixelAddr(x, y) / 16 == x
    ensures x > 8 ==> 8 <= PixelAddr(x, y) % 16 <= 14 && PixelAddr(x, y) / 16 == 17 - x
  {
    var a := PixelAddr(x, y);
    if x <= 8 {
      assert a == x * 16 + (7 - y);
    } else {
      assert a == (17 - x) * 16 + (y + 8);
    }
  }

  /** Coords undoes PixelAddr on the grid. */
  lemma CoordsOfPixelAddr(x: int, y: int)
    requires InGrid(x, y)
    ensures Coords(PixelAddr(x, y)) == Some((x, y))
  {
    PixelAddrRange(x, y);
  }

  /** PixelAddr undoes Coords: every LED that Coords claims is the address of that grid position. */
  lemma PixelAddrOfCoords(i: int)
    requires Coords(i).Some?
    ensures PixelAddr(Coords(i).value.0, Coords(i).value.1) == i
  {
    var bank, row := i / 16, i % 16;
    assert i == bank * 16 + row;
  }

  /** No two grid positions share an LED. */
  lemma PixelAddrInjective(x1: int, y1: int, x2: int, y2: int)
    requires InGrid(x1, y1) && InGrid(x2, y2)
    requires PixelAddr(x1, y1) == PixelAddr(x2, y2)
    ensures x1 == x2 && y1 == y2
  {
    CoordsOfPixelAddr(x1, y1);
    CoordsOfPixelAddr(x2, y2);
  }

  /** An LED index is the address of a grid position exactly when Coords finds one. */
  lemma CoordsComplete(i: int)
    ensures Coords(i).Some? <==> exists x, y :: InGrid(x, y) && PixelAddr(x, y) == i
  {
    if Coords(i).Some? {
      PixelAddrOfCoords(i);
      var (x, y) := Coords(i).value;
      assert InGrid(x, y) && PixelAddr(x, y) == i;
    } else {
      forall x, y | InGrid(x, y) ensures PixelAddr(x, y) != i {
        CoordsOfPixelAddr(x, y);
      }
    }
  }

  /** The two sample positions on either side of the fold. */
  lemma FoldSamples()
    ensures PixelAddr(8, 3) == 132 && PixelAddr(9, 3) == 139
  {
  }
}
