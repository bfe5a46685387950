/** The generic `Point` struct and `mixup`. */
module Points {

  /** A point whose coordinates may be of two different types. */
  datatype Point<X, Y> = Point(x: X, y: Y)

  /** `mixup`: the x of `p` together with the y of `other`. */
  function Mixup<X1, Y1, X2, Y2>(p: Point<X1, Y1>, other: Point<X2, Y2>): (r: Point<X1, Y2>)
    ensures r.x == p.x && r.y == other.y
  {
    Point(p.x, other.y)
  }

  /** The result depends neither on the y of `p` nor on the x of `other`. */
  lemma MixupIgnoresDroppedFields<X1, Y1, X2, Y2>(p: Point<X1, Y1>, other: Point<X2, Y2>, y: Y1, x: X2)
    ensures Mixup(p, other) == Mixup(p.(y := y), other.(x := x))
  {
  }

  /** Mixing up twice keeps only the outer x and the last y. */
  lemma MixupAbsorbs<X1, Y1, X2, Y2, X3, Y3>(a: Point<X1, Y1>, b: Point<X2, Y2>, c: Point<X3, Y3>)
    ensures Mixup(Mixup(a, b), c) == Mixup(a, c)
  {
  }

  /** A point mixed up with itself is unchanged. */
  lemma MixupSelf<X, Y>(p: Point<X, Y>)
    ensures Mixup(p, p) == p
  {
  }

  /** `main`: {x: 5, y: 10.4} mixed up with {x: "Hello", y: 'c'} is {x: 5, y: 'c'}. */
  lemma MainScenario()
    ensures Mixup(Point(5, 10.4), Point("Hello", 'c')) == Point(5, 'c')
  {
  }
}
