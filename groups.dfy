/**
 * What a liberty query is meant to decide, stated independently of any
 * search order. A group is the set of points reachable from a stone through
 * orthogonal steps over stones of the same colour; the group has a liberty
 * when one of its members has an `Empty` cardinal neighbour.
 */
module Groups {
  import opened Board

  /** The points of a position list, as a set. */
  function Elems(s: seq<Pos>): set<Pos> {
    set p | p in s
  }

  /** The on-board cells holding colour `c`: a finite set, so it bounds any
      search that records a new cell of that colour at every step. */
  function ColorCells(g: Grid, c: Status): (cells: set<Pos>)
    requires IsPlayer(c)
    ensures forall p :: p in cells <==> StatusAt(g, p) == Ok(c)
  {
    set y, x | 0 <= y < |g| && 0 <= x < |g[0]| && GetStatus(g, x, y) == Ok(c) :: (x, y)
  }

  /** `path` walks orthogonally over stones of colour `c` only. */
  ghost predicate IsChain(g: Grid, c: Status, path: seq<Pos>) {
    |path| > 0 &&
    (forall i :: 0 <= i < |path| ==> StatusAt(g, path[i]) == Ok(c)) &&
    (forall i :: 0 <= i < |path| - 1 ==> Adjacent(path[i], path[i + 1]))
  }

  /** Some cardinal neighbour of `p` is an empty point. */
  ghost predicate TouchesEmpty(g: Grid, p: Pos) {
    exists n :: n in Neighbours(p) && StatusAt(g, n) == Ok(Empty)
  }

  /** `path` leads from `start` through its group to a member touching an empty point. */
  ghost predicate LibertyPath(g: Grid, c: Status, start: Pos, path: seq<Pos>) {
    IsChain(g, c, path) && path[0] == start && TouchesEmpty(g, path[|path| - 1])
  }

  /** Some path of colour `c` leads from `p` to a point touching an empty point. */
  ghost predicate LibertyFrom(g: Grid, c: Status, p: Pos) {
    exists path :: LibertyPath(g, c, p, path)
  }

  /** The stone at `p` belongs to a group that has at least one liberty. */
  ghost predicate GroupHasLiberty(g: Grid, p: Pos) {
    var s := StatusAt(g, p);
    s.Ok? && IsPlayer(s.value) && LibertyFrom(g, s.value, p)
  }

  /** A stone touching an empty point has a liberty through the one-point path. */
  lemma DirectLiberty(g: Grid, c: Status, p: Pos)
    requires StatusAt(g, p) == Ok(c)
    requires TouchesEmpty(g, p)
    ensures LibertyFrom(g, c, p)
  {
    assert LibertyPath(g, c, p, [p]);
  }

  /** A liberty reachable from a same-coloured neighbour is a liberty of the
      stone itself: the two points are in one group. */
  lemma LibertyThroughNeighbour(g: Grid, c: Status, p: Pos, q: Pos)
    requires StatusAt(g, p) == Ok(c)
    requires Adjacent(p, q)
    requires LibertyFrom(g, c, q)
    ensures LibertyFrom(g, c, p)
  {
    var path :| LibertyPath(g, c, q, path);
    var longer := [p] + path;
    assert forall i :: 0 < i < |longer| ==> longer[i] == path[i - 1];
    assert forall i :: 0 <= i < |longer| ==> StatusAt(g, longer[i]) == Ok(c);
    assert forall i :: 0 <= i < |longer| - 1 ==> Adjacent(longer[i], longer[i + 1]);
    assert LibertyPath(g, c, p, longer);
  }

  /** A chain extended by an adjacent stone of its colour is still a chain from the same start. */
  lemma ExtendChain(g: Grid, c: Status, path: seq<Pos>, n: Pos)
    requires IsChain(g, c, path)
    requires Adjacent(path[|path| - 1], n)
    requires StatusAt(g, n) == Ok(c)
    ensures IsChain(g, c, path + [n])
  {
    var longer := path + [n];
    assert forall i :: 0 <= i < |path| ==> longer[i] == path[i];
    assert forall i :: 0 <= i < |longer| - 1 ==> Adjacent(longer[i], longer[i + 1]) by {
      forall i | 0 <= i < |longer| - 1 ensures Adjacent(longer[i], longer[i + 1]) {
        if i < |path| - 1 {
          assert longer[i] == path[i] && longer[i + 1] == path[i + 1];
        }
      }
    }
  }
}
