/** Placing the pointer (internal/hyperv/mouse.go), in exact arithmetic. */
module Mouse {
  import opened Wrappers

  // [math]::Round: to the nearest integer, halves to the even one.
  function RoundHalfEven(x: real): int {
    var f := x.Floor;
    var d := x - f as real;
    if d < 0.5 || (d == 0.5 && f % 2 == 0) then f else f + 1
  }

  // A position on a `size` wide image, on a screen `resolution` wide.
  function Exact(x: int, size: int, resolution: int): real
    requires size > 0
  {
    (x as real / size as real) * (resolution - 1) as real
  }

  function Scaled(x: int, size: int, resolution: int): int
    requires size > 0
  {
    RoundHalfEven(Exact(x, size, resolution))
  }

  lemma RoundIsNear(x: real)
    ensures -0.5 <= RoundHalfEven(x) as real - x <= 0.5
  {
  }

  // Halfway between two integers, the even one.
  lemma TiesGoToEven(n: int)
    ensures RoundHalfEven(n as real + 0.5) == if n % 2 == 0 then n else n + 1
    ensures RoundHalfEven(n as real) == n
  {
    assert (n as real + 0.5).Floor == n;
  }

  lemma RoundIsMonotone(x: real, y: real)
    requires x <= y
    ensures RoundHalfEven(x) <= RoundHalfEven(y)
  {
  }

  lemma ExactBounds(x: int, size: int, resolution: int)
    requires 0 <= x < size && resolution > 0
    ensures 0.0 <= Exact(x, size, resolution) <= (resolution - 1) as real
  {
    var fraction := x as real / size as real;
    assert fraction * size as real == x as real;
    assert 0.0 <= fraction <= 1.0;
  }

  // On screen without any clamping.
  lemma ScaledIsOnScreen(x: int, size: int, resolution: int)
    requires 0 <= x < size && resolution > 0
    ensures 0 <= Scaled(x, size, resolution) <= resolution - 1
  {
    ExactBounds(x, size, resolution);
    RoundIsMonotone(0.0, Exact(x, size, resolution));
    RoundIsMonotone(Exact(x, size, resolution), (resolution - 1) as real);
  }

  lemma ScaledKeepsOrder(x: int, y: int, size: int, resolution: int)
    requires 0 <= x <= y < size && resolution > 0
    ensures Scaled(x, size, resolution) <= Scaled(y, size, resolution)
  {
    var a, b, r := x as real / size as real, y as real / size as real, (resolution - 1) as real;
    assert a * size as real == x as real && b * size as real == y as real;
    assert a <= b;
    assert a * r <= b * r;
    RoundIsMonotone(Exact(x, size, resolution), Exact(y, size, resolution));
  }

  // A capture at the guest's own resolution: where it was asked, or one pixel
  // before it, never further and never past it.
  lemma SameSizeLandsBeside(x: int, size: int)
    requires 0 <= x < size
    ensures x - 1 <= Scaled(x, size, size) <= x
  {
    var fraction := x as real / size as real;
    assert fraction * size as real == x as real;
    assert 0.0 <= fraction < 1.0;
    assert Exact(x, size, size) == x as real - fraction;
    RoundIsMonotone((x - 1) as real, Exact(x, size, size));
    RoundIsMonotone(Exact(x, size, size), x as real);
  }

  datatype Error = InvalidArgument | NoDisplay

  lemma SameSign(a: real, s: real)
    requires s > 0.0
    ensures a > 0.0 <==> a * s > 0.0
    ensures a >= 0.0 <==> a * s >= 0.0
  {
  }

  lemma RoundedDown(f: real)
    requires 0.0 <= f < 1.0
    ensures RoundHalfEven(-f) == if f > 0.5 then -1 else 0
  {
  }

  lemma Half(f: real, s: real, p: real)
    requires s > 0.0 && f * s == p && 0.0 <= p < s
    ensures 0.0 <= f < 1.0 && (f > 0.5 <==> p + p > s)
  {
    SameSign(f, s);
    SameSign(1.0 - f, s);
    SameSign(f + f - 1.0, s);
    assert (1.0 - f) * s == s - p && (f + f - 1.0) * s == p + p - s;
  }

  lemma AsReals(a: int, b: int)
    ensures a < b <==> a as real < b as real
  {
  }

  // With no vertical resolution the clamp sends the pointer to 0 or to -1.
  lemma NoHeight(y: int, sh: int)
    requires 0 <= y < sh
    ensures Scaled(y, sh, 0) == if 2 * y > sh then -1 else 0
  {
    hide RoundHalfEven;
    var fraction := y as real / sh as real;
    Half(fraction, sh as real, y as real);
    assert y as real + y as real == (y + y) as real;
    AsReals(sh, y + y);
    assert Exact(y, sh, 0) == fraction * (-1.0) == -fraction;
    RoundedDown(fraction);
  }

  // The position SendMouse sets, given the guest's live resolution. Only a head
  // with a horizontal resolution counts as a display; nothing asks for a vertical
  // one, and without it the position can be off the screen.
  method Place(x: int, y: int, sw: int, sh: int, rw: nat, rh: nat) returns (r: Result<(int, int), Error>)
    ensures r == Err(InvalidArgument) <==> !(0 <= x < sw && 0 <= y < sh)
    ensures r == Err(NoDisplay) <==> 0 <= x < sw && 0 <= y < sh && rw == 0
    ensures r.Ok? ==>
              && 0 <= r.value.0 < rw && r.value.0 == Scaled(x, sw, rw)
              && -0.5 <= r.value.0 as real - Exact(x, sw, rw) <= 0.5
              && (0 <= r.value.1 < rh <==> rh > 0)
    ensures r.Ok? && rh > 0 ==>
              && r.value.1 == Scaled(y, sh, rh)
              && -0.5 <= r.value.1 as real - Exact(y, sh, rh) <= 0.5
    ensures r.Ok? && rh == 0 ==> r.value.1 == if 2 * y > sh then 0 else -1
  {
    if sw <= 0 || sh <= 0 {
      return Err(InvalidArgument);
    }
    if x < 0 || y < 0 || x >= sw || y >= sh {
      return Err(InvalidArgument);
    }
    if rw == 0 {
      return Err(NoDisplay);
    }
    var px := Scaled(x, sw, rw);
    var py := Scaled(y, sh, rh);
    ScaledIsOnScreen(x, sw, rw);
    RoundIsNear(Exact(x, sw, rw));
    if rh > 0 {
      ScaledIsOnScreen(y, sh, rh);
      RoundIsNear(Exact(y, sh, rh));
    } else {
      NoHeight(y, sh);
    }
    if px < 0 {
      px := 0;
    } else if px > rw - 1 {
      px := rw - 1;
    }
    if py < 0 {
      py := 0;
    } else if py > rh - 1 {
      py := rh - 1;
    }
    r := Ok((px, py));
  }
}
