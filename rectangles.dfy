/** The `Rectangle` struct and its methods `area`, `can_hold` and `square`. */
module Rectangles {

  /** Rust's `u32`. */
  newtype uint32 = x: int | 0 <= x < 0x1_0000_0000

  datatype Rectangle = Rectangle(width: uint32, height: uint32)

  /** The product of the sides fits in a `u32`, so `area` neither panics nor wraps. */
  predicate AreaFits(r: Rectangle)
  {
    r.width as int * r.height as int < 0x1_0000_0000
  }

  /** `area`: width times height. The area is zero exactly when a side is, and
      otherwise at least as large as either side. */
  function Area(r: Rectangle): (a: uint32)
    requires AreaFits(r)
    ensures a == 0 <==> r.width == 0 || r.height == 0
    ensures r.height > 0 ==> r.width <= a
    ensures r.width > 0 ==> r.height <= a
  {
    var w, h := r.width as nat, r.height as nat;
    MultiplyMonotone(w, 0, h);
    MultiplyMonotone(w, 1, h);
    MultiplyMonotone(h, 1, w);
    r.width * r.height
  }

  /** Helper for the area bounds: multiplying by a natural number preserves `<=`. */
  lemma {:induction false} MultiplyMonotone(k: nat, x: nat, y: nat)
    ensures x <= y ==> k * x <= k * y && x * k <= y * k
  {
    if k > 0 {
      MultiplyMonotone(k - 1, x, y);
      assert k * x == (k - 1) * x + x && k * y == (k - 1) * y + y;
    }
  }

  /** `can_hold`: `r` is strictly wider and strictly taller than `other`. Only a
      rectangle with both sides non-zero can hold anything, and never itself. */
  predicate CanHold(r: Rectangle, other: Rectangle): (b: bool)
    ensures b ==> r != other && r.width > 0 && r.height > 0
  {
    r.width > other.width && r.height > other.height
  }

  /** `square`: the rectangle whose sides are both `size`. */
  function Square(size: uint32): (r: Rectangle)
    ensures r.width == r.height == size
  {
    Rectangle(size, size)
  }

  /** `can_hold` is a strict partial order: irreflexive, asymmetric and transitive. */
  lemma CanHoldStrictOrder(a: Rectangle, b: Rectangle, c: Rectangle)
    ensures !CanHold(a, a)
    ensures CanHold(a, b) ==> !CanHold(b, a)
    ensures CanHold(a, b) && CanHold(b, c) ==> CanHold(a, c)
  {
  }

  /** A rectangle that can hold another has a strictly larger area. */
  lemma CanHoldLargerArea(a: Rectangle, b: Rectangle)
    requires AreaFits(a) && AreaFits(b)
    requires CanHold(a, b)
    ensures Area(b) < Area(a)
  {
    var aw, ah, bw, bh := a.width as nat, a.height as nat, b.width as nat, b.height as nat;
    MultiplyMonotone(bw, bh, ah);
    MultiplyMonotone(ah, bw + 1, aw);
    assert (bw + 1) * ah == bw * ah + ah;
  }

  /** `square(n)` has area `n * n`. */
  lemma SquareArea(n: uint32)
    requires n as int * n as int < 0x1_0000_0000
    ensures AreaFits(Square(n)) && Area(Square(n)) as int == n as int * n as int
  {
  }

  /** One square can hold another exactly when its side is longer. */
  lemma SquareCanHold(m: uint32, n: uint32)
    ensures CanHold(Square(m), Square(n)) <==> m > n
  {
  }

  /** `main`: a 30x50 rectangle has area 1500 and can hold a 20x40 one, which
      cannot hold it back; `square(30)` with its width then set to 35 is a 35x30
      rectangle, which can hold `square(20)`. */
  lemma MainScenario()
    ensures AreaFits(Rectangle(30, 50)) && Area(Rectangle(30, 50)) == 1500
    ensures CanHold(Rectangle(30, 50), Rectangle(20, 40))
    ensures !CanHold(Rectangle(20, 40), Rectangle(30, 50))
    ensures Square(30).(width := 35) == Rectangle(35, 30)
    ensures CanHold(Square(30).(width := 35), Square(20))
  {
  }
}
