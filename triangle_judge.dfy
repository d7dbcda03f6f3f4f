/** The triangle-classification exercise: three side lengths in, one verdict
    message out. */
module TriangleJudge {

  const OutOfRange := "边长数值越界"
  const Equilateral := "该三角形是等边三角形"
  const Isosceles := "该三角形是等腰三角形"
  const Scalene := "该三角形是普通三角形"
  const NotATriangle := "所给三边数据不能构成三角形"

  predicate InRange(x: int) { 0 < x <= 200 }

  /** The strict triangle inequality on all three sides. */
  predicate IsTriangle(a: int, b: int, c: int) {
    a + b > c && a + c > b && b + c > a
  }

  /** `triangle_judge(a, b, c)`: range check first, then the strict triangle
      inequality, then the number of equal sides. */
  function TriangleJudge(a: int, b: int, c: int): (msg: string)
    ensures msg == OutOfRange <==> !(InRange(a) && InRange(b) && InRange(c))
    ensures msg == NotATriangle <==> InRange(a) && InRange(b) && InRange(c) && !IsTriangle(a, b, c)
    ensures msg == Equilateral <==> InRange(a) && a == b == c
    ensures msg == Isosceles <==>
      InRange(a) && InRange(b) && InRange(c) && IsTriangle(a, b, c)
      && (a == b || a == c || b == c) && !(a == b == c)
    ensures msg == Scalene <==>
      InRange(a) && InRange(b) && InRange(c) && IsTriangle(a, b, c) && a != b && a != c && b != c
  {
    if a <= 0 || b <= 0 || c <= 0 || a > 200 || b > 200 || c > 200 then OutOfRange
    else if a + b > c && a + c > b && b + c > a then
      if a == b == c then Equilateral
      else if a == b || a == c || b == c then Isosceles
      else Scalene
    else NotATriangle
  }

  /** An independent statement of the rule on the sides sorted ascending:
      a triangle exactly when the two shorter sides outweigh the longest. */
  function JudgeSorted(x: int, y: int, z: int): (msg: string)
    requires x <= y <= z
  {
    if x <= 0 || z > 200 then OutOfRange
    else if x + y <= z then NotATriangle
    else if x == z then Equilateral
    else if x == y || y == z then Isosceles
    else Scalene
  }

  /** The verdict depends only on the multiset of sides: it agrees with the
      sorted-sides rule for every ordering of the arguments. */
  lemma JudgeIsSortedJudge(a: int, b: int, c: int, x: int, y: int, z: int)
    requires x <= y <= z
    requires multiset{a, b, c} == multiset{x, y, z}
    ensures TriangleJudge(a, b, c) == JudgeSorted(x, y, z)
  {
    assert x in multiset{a, b, c} && y in multiset{a, b, c} && z in multiset{a, b, c};
    assert a in multiset{x, y, z} && b in multiset{x, y, z} && c in multiset{x, y, z};
    if a <= b <= c {
      assert a == x && b == y && c == z by { SortedTriple(a, b, c, x, y, z); }
    } else if a <= c <= b {
      assert a == x && c == y && b == z by { SortedTriple(a, c, b, x, y, z); }
    } else if b <= a <= c {
      assert b == x && a == y && c == z by { SortedTriple(b, a, c, x, y, z); }
    } else if b <= c <= a {
      assert b == x && c == y && a == z by { SortedTriple(b, c, a, x, y, z); }
    } else if c <= a <= b {
      assert c == x && a == y && b == z by { SortedTriple(c, a, b, x, y, z); }
    } else {
      assert c == x && b == y && a == z by { SortedTriple(c, b, a, x, y, z); }
    }
  }

  lemma SortedTriple(p: int, q: int, r: int, x: int, y: int, z: int)
    requires p <= q <= r && x <= y <= z
    requires multiset{p, q, r} == multiset{x, y, z}
    ensures p == x && q == y && r == z
  {
    assert p in multiset{x, y, z} && x in multiset{p, q, r};
    assert r in multiset{x, y, z} && z in multiset{p, q, r};
    assert p == x;
    assert r == z;
    assert multiset{p, q, r} - multiset{p, r} == multiset{q};
    assert multiset{x, y, z} - multiset{x, z} == multiset{y};
  }

  /** Permuting the three sides never changes the verdict. */
  lemma PermutationInvariant(a: int, b: int, c: int, p: int, q: int, r: int)
    requires multiset{a, b, c} == multiset{p, q, r}
    ensures TriangleJudge(a, b, c) == TriangleJudge(p, q, r)
  {
    var x, y, z := Sort3(a, b, c);
    JudgeIsSortedJudge(a, b, c, x, y, z);
    JudgeIsSortedJudge(p, q, r, x, y, z);
  }

  /** Sorting three numbers, for the proofs above. */
  lemma Sort3(a: int, b: int, c: int) returns (x: int, y: int, z: int)
    ensures x <= y <= z && multiset{a, b, c} == multiset{x, y, z}
  {
    if a <= b {
      if b <= c { x, y, z := a, b, c; }
      else if a <= c { x, y, z := a, c, b; }
      else { x, y, z := c, a, b; }
    } else {
      if a <= c { x, y, z := b, a, c; }
      else if b <= c { x, y, z := b, c, a; }
      else { x, y, z := c, b, a; }
    }
  }
}
