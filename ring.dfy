/**
 * Cursor arithmetic of the two ring buffers of the e-ink display path, the
 * image queue (eink_buffer_manager.c) and the wave-data ring
 * (disp_eink_manager.c).  A cursor is an index below the ring size n and
 * advances as (i + 1) % n; positions are counted forwards from a cursor,
 * wrapping at n.
 */
module Ring {

  /** (i + 1) % n for a cursor i below n. */
  function Next(i: nat, n: nat): (j: nat)
    requires i < n
    ensures j < n && j == (i + 1) % n
  {
    if i + 1 == n then
      assert (i + 1) / n == 1;
      0
    else
      assert (i + 1) / n == 0;
      i + 1
  }

  /** The position k steps after cursor a. */
  function Pos(a: nat, k: nat, n: nat): (p: nat)
    requires a < n && k < n
    ensures p < n
  {
    if a + k < n then a + k else a + k - n
  }

  /** How many steps lead from cursor a to cursor b. */
  function Dist(a: nat, b: nat, n: nat): (d: nat)
    requires a < n && b < n
    ensures d < n && Pos(a, d, n) == b
    ensures d == 0 <==> a == b
  {
    if b >= a then b - a else b + n - a
  }

  /** Distinct step counts below n lead to distinct positions. */
  lemma PosInjective(a: nat, j: nat, k: nat, n: nat)
    requires a < n && j < n && k < n && Pos(a, j, n) == Pos(a, k, n)
    ensures j == k
  {
  }

  /** Every position is reached by exactly the step count Dist gives. */
  lemma PosDist(a: nat, k: nat, n: nat)
    requires a < n && k < n
    ensures Dist(a, Pos(a, k, n), n) == k
  {
  }

  /** One step from the next cursor is two from this one. */
  lemma PosNext(a: nat, k: nat, n: nat)
    requires a < n && k + 1 < n
    ensures Pos(Next(a, n), k, n) == Pos(a, k + 1, n)
  {
  }

  /** Advancing the far cursor lengthens the distance by one, unless it lands on the near one. */
  lemma DistNextFar(a: nat, b: nat, n: nat)
    requires a < n && b < n && Next(b, n) != a
    ensures Dist(a, Next(b, n), n) == Dist(a, b, n) + 1
  {
  }

  /** Advancing the near cursor shortens a nonzero distance by one. */
  lemma DistNextNear(a: nat, b: nat, n: nat)
    requires a < n && b < n && a != b
    ensures Dist(Next(a, n), b, n) == Dist(a, b, n) - 1
  {
  }

  /** The far cursor is one step behind the near one exactly when the distance is n - 1. */
  lemma DistFull(a: nat, b: nat, n: nat)
    requires a < n && b < n
    ensures Next(b, n) == a <==> Dist(a, b, n) == n - 1
  {
  }
}
