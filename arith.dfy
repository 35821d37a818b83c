/** Order facts about real multiplication used by the score bounds. */
module RealArith {
  /** Scaling by a non-negative factor keeps order. */
  lemma ScaleMono(a: real, x: real, y: real)
    requires 0.0 <= a && x <= y
    ensures a * x <= a * y
  {
    assert a * y - a * x == a * (y - x);
  }
  /** A non-negative scale times a probability lies between 0 and the scale. */
  lemma ScaleProb(a: real, x: real)
    requires 0.0 <= a && 0.0 <= x <= 1.0
    ensures 0.0 <= a * x <= a
  {
    ScaleMono(a, 0.0, x);
    ScaleMono(a, x, 1.0);
  }
  /** A weighted mean of two ordered numbers lies between them. */
  lemma MixUp(lo: real, hi: real, t: real)
    requires 0.0 <= t <= 1.0 && lo <= hi
    ensures lo <= (1.0 - t) * lo + t * hi <= hi
  {
    var d := hi - lo;
    var x := (1.0 - t) * lo + t * hi;
    assert x == lo + d * t;
    ScaleProb(d, t);
    assert d * t <= d;
    assert lo <= x <= hi;
  }
  /** The weighted mean `(1 - t) * a + t * b`. */
  function Mix(a: real, b: real, t: real): real {
    (1.0 - t) * a + t * b
  }

  /** The weighted mean lies between the two numbers, whichever is larger. */
  lemma MixBetween(a: real, b: real, t: real)
    requires 0.0 <= t <= 1.0
    ensures a <= b ==> a <= Mix(a, b, t) <= b
    ensures b <= a ==> b <= Mix(a, b, t) <= a
  {
    if a <= b {
      MixUp(a, b, t);
    } else {
      MixUp(b, a, 1.0 - t);
      assert (1.0 - (1.0 - t)) * b + (1.0 - t) * a == Mix(a, b, t);
    }
  }
}
