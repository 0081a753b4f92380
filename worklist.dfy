/**
 * A corrected liberty search: NOT the code of goban.py, but the full-group
 * traversal that code evidently intends. Points waiting to be examined are
 * kept on a work list; each one taken off it is marked visited, answers
 * `true` at once if it touches an empty point, and otherwise puts its
 * unvisited same-coloured neighbours on the list. The search says "no
 * liberty" only once the list is empty, that is, after it has examined the
 * whole group, so it is both sound and complete against
 * `Groups.GroupHasLiberty`.
 */
module Worklist {
  import opened Board
  import opened Groups
  import Liberty

  /** A non-empty list is its prefix followed by its last element. */
  lemma SplitLast(s: seq<Pos>)
    requires s != []
    ensures s == s[..|s| - 1] + [s[|s| - 1]]
  {
  }

  /** Every point of `route` is reached from `start` by the chain it maps to. */
  ghost predicate Routed(g: Grid, c: Status, start: Pos, route: map<Pos, seq<Pos>>) {
    forall p :: p in route ==>
      IsChain(g, c, route[p]) && route[p][0] == start && route[p][|route[p]| - 1] == p
  }

  /** No visited point touches an empty point or an unreadable cell. */
  ghost predicate Quiet(g: Grid, visited: seq<Pos>) {
    forall v :: v in visited ==> Liberty.Freedom(g, Neighbours(v)) == Ok(false)
  }

  lemma QuietExtends(g: Grid, visited: seq<Pos>, p: Pos)
    requires Quiet(g, visited)
    requires Liberty.Freedom(g, Neighbours(p)) == Ok(false)
    ensures Quiet(g, visited + [p])
  {
    forall v | v in visited + [p] ensures Liberty.Freedom(g, Neighbours(v)) == Ok(false) {
      if v != p {
        assert v in visited;
      }
    }
  }

  /** Every same-coloured neighbour of a visited point is visited or waiting. */
  ghost predicate Closed(g: Grid, c: Status, visited: seq<Pos>, pending: seq<Pos>) {
    forall v, n :: v in visited && n in Neighbours(v) && StatusAt(g, n) == Ok(c) ==>
      n in visited || n in pending
  }

  /** Dropping a point that is already visited from the work list keeps the region closed. */
  lemma DropKeepsClosed(g: Grid, c: Status, visited: seq<Pos>, rest: seq<Pos>, p: Pos)
    requires Closed(g, c, visited, rest + [p])
    requires p in visited
    ensures Closed(g, c, visited, rest)
  {
    forall v, n | v in visited && n in Neighbours(v) && StatusAt(g, n) == Ok(c)
      ensures n in visited || n in rest
    {
      assert n in visited || n in rest + [p];
    }
  }

  /** Visiting `p` and queuing its unvisited same-coloured neighbours keeps
      the region closed. */
  lemma VisitKeepsClosed(g: Grid, c: Status, visited: seq<Pos>, rest: seq<Pos>, p: Pos)
    requires Closed(g, c, visited, rest + [p])
    ensures Closed(g, c, visited + [p], rest + Liberty.Unvisited(g, Neighbours(p), visited, c))
  {
    var frontier := Liberty.Unvisited(g, Neighbours(p), visited, c);
    Liberty.UnvisitedMembers(g, Neighbours(p), visited, c);
    forall v, n | v in visited + [p] && n in Neighbours(v) && StatusAt(g, n) == Ok(c)
      ensures n in visited + [p] || n in rest + frontier
    {
      if v == p {
        if n !in visited {
          assert n in frontier;
        }
      } else {
        assert v in visited;
        assert n in visited || n in rest + [p];
      }
    }
  }

  /** The routes of the newly queued neighbours of `p` extend the route of `p`. */
  lemma ExtendRoutes(g: Grid, c: Status, start: Pos, route: map<Pos, seq<Pos>>, p: Pos, frontier: seq<Pos>)
    requires Routed(g, c, start, route)
    requires p in route
    requires forall n :: n in frontier ==> n in Neighbours(p) && StatusAt(g, n) == Ok(c)
    ensures Routed(g, c, start, route + map n | n in frontier :: route[p] + [n])
  {
    var route' := route + map n | n in frontier :: route[p] + [n];
    forall q | q in route'
      ensures IsChain(g, c, route'[q]) && route'[q][0] == start && route'[q][|route'[q]| - 1] == q
    {
      if q in frontier {
        ExtendChain(g, c, route[p], q);
      }
    }
  }

  /** Every point of a chain that starts inside a closed region stays inside it. */
  lemma {:induction false} ChainStaysInside(g: Grid, c: Status, visited: seq<Pos>, path: seq<Pos>, k: nat)
    requires IsChain(g, c, path) && path[0] in visited
    requires Closed(g, c, visited, [])
    requires k < |path|
    ensures path[k] in visited
  {
    if k > 0 {
      ChainStaysInside(g, c, visited, path, k - 1);
      assert Adjacent(path[k - 1], path[k]);
      assert path[k] in Neighbours(path[k - 1]);
    }
  }

  /** A closed region around `start` none of whose points touches an empty
      point is the whole group, and the group has no liberty. */
  lemma ClosedGroupHasNoLiberty(g: Grid, c: Status, start: Pos, visited: seq<Pos>)
    requires start in visited
    requires Quiet(g, visited)
    requires Closed(g, c, visited, [])
    ensures !LibertyFrom(g, c, start)
  {
    if LibertyFrom(g, c, start) {
      var path :| LibertyPath(g, c, start, path);
      var last := path[|path| - 1];
      ChainStaysInside(g, c, visited, path, |path| - 1);
      Liberty.FreedomMeansTouchesEmpty(g, last);
    }
  }

  /** Everything visited or waiting is a stone of colour `c` with a route,
      and `start` has not been lost. */
  ghost predicate Tracked(g: Grid, c: Status, start: Pos, visited: seq<Pos>, pending: seq<Pos>,
                          route: map<Pos, seq<Pos>>)
    requires IsPlayer(c)
  {
    Elems(visited) <= ColorCells(g, c) &&
    (forall p :: p in pending ==> StatusAt(g, p) == Ok(c) && p in route) &&
    (forall p :: p in visited ==> p in route) &&
    (start in visited || start in pending)
  }

  /** The loop invariant of the corrected search: everything visited or
      waiting is a stone of the group of `start` with a route from `start`,
      no visited stone touches an empty point, and the search has lost no
      neighbour of a visited stone. */
  ghost predicate Exploring(g: Grid, c: Status, start: Pos, visited: seq<Pos>, pending: seq<Pos>,
                            route: map<Pos, seq<Pos>>)
  {
    IsPlayer(c) &&
    Tracked(g, c, start, visited, pending, route) &&
    Routed(g, c, start, route) &&
    Quiet(g, visited) &&
    Closed(g, c, visited, pending)
  }

  lemma ExploringStarts(g: Grid, c: Status, start: Pos)
    requires IsPlayer(c) && StatusAt(g, start) == Ok(c)
    ensures Exploring(g, c, start, [], [start], map[start := [start]])
  {
  }

  /** Taking an already visited point off the list changes nothing else. */
  lemma DropStep(g: Grid, c: Status, start: Pos, visited: seq<Pos>, rest: seq<Pos>, p: Pos,
                 route: map<Pos, seq<Pos>>)
    requires Exploring(g, c, start, visited, rest + [p], route)
    requires p in visited
    ensures Exploring(g, c, start, visited, rest, route)
  {
    DropKeepsClosed(g, c, visited, rest, p);
    assert forall q :: q in rest ==> q in rest + [p];
  }

  /** A point taken off the list that touches an empty point proves a liberty of the group. */
  lemma FoundLiberty(g: Grid, c: Status, start: Pos, visited: seq<Pos>, rest: seq<Pos>, p: Pos,
                     route: map<Pos, seq<Pos>>)
    requires Exploring(g, c, start, visited, rest + [p], route)
    requires Liberty.Freedom(g, Neighbours(p)) == Ok(true)
    ensures LibertyFrom(g, c, start)
  {
    assert p in rest + [p];
    Liberty.FreedomMeansTouchesEmpty(g, p);
    assert LibertyPath(g, c, start, route[p]);
  }

  lemma VisitKeepsTracked(g: Grid, c: Status, start: Pos, visited: seq<Pos>, rest: seq<Pos>, p: Pos,
                          route: map<Pos, seq<Pos>>)
    requires IsPlayer(c)
    requires Tracked(g, c, start, visited, rest + [p], route)
    ensures var frontier := Liberty.Unvisited(g, Neighbours(p), visited, c);
            Tracked(g, c, start, visited + [p], rest + frontier,
                    route + map n | n in frontier :: route[p] + [n])
  {
    var frontier := Liberty.Unvisited(g, Neighbours(p), visited, c);
    var route' := route + map n | n in frontier :: route[p] + [n];
    Liberty.UnvisitedMembers(g, Neighbours(p), visited, c);
    assert p in rest + [p];
    assert Elems(visited + [p]) == Elems(visited) + {p};
    forall q | q in rest + frontier
      ensures StatusAt(g, q) == Ok(c) && q in route'
    {
      if q !in frontier {
        assert q in rest + [p];
      }
    }
    assert forall q :: q in visited + [p] ==> q in visited || q == p;
    assert start in visited + [p] || start in rest + frontier by {
      if start !in visited && start != p {
        assert start in rest + [p];
      }
    }
  }

  /** Visiting a point without an empty neighbour and queuing its unvisited
      same-coloured neighbours keeps the invariant and leaves fewer cells of
      the colour unvisited. */
  lemma VisitStep(g: Grid, c: Status, start: Pos, visited: seq<Pos>, rest: seq<Pos>, p: Pos,
                  route: map<Pos, seq<Pos>>)
    requires Exploring(g, c, start, visited, rest + [p], route)
    requires p !in visited
    requires Liberty.Freedom(g, Neighbours(p)) == Ok(false)
    ensures var frontier := Liberty.Unvisited(g, Neighbours(p), visited, c);
            Exploring(g, c, start, visited + [p], rest + frontier,
                      route + map n | n in frontier :: route[p] + [n])
    ensures |ColorCells(g, c) - Elems(visited + [p])| < |ColorCells(g, c) - Elems(visited)|
  {
    assert p in rest + [p];
    VisitKeepsTracked(g, c, start, visited, rest, p, route);
    VisitKeepsClosed(g, c, visited, rest, p);
    Liberty.UnvisitedMembers(g, Neighbours(p), visited, c);
    ExtendRoutes(g, c, start, route, p, Liberty.Unvisited(g, Neighbours(p), visited, c));
    QuietExtends(g, visited, p);
    Liberty.FewerUnrecorded(ColorCells(g, c), Elems(visited), Elems(visited + [p]), p);
  }

  /** When the list runs empty the whole group has been examined and has no liberty. */
  lemma Exhausted(g: Grid, c: Status, start: Pos, visited: seq<Pos>, route: map<Pos, seq<Pos>>)
    requires Exploring(g, c, start, visited, [], route)
    ensures !LibertyFrom(g, c, start)
  {
    ClosedGroupHasNoLiberty(g, c, start, visited);
  }

  /** The liberty query of the corrected search: `Ok(true)` exactly when
      the group has a liberty, `Ok(false)` exactly when it has none, with the
      source's errors for an unreadable or empty start point. */
  method HasLiberty(g: Grid, x: int, y: int) returns (r: Result<bool>)
    ensures GetStatus(g, x, y).Err? ==> r == Err(GetStatus(g, x, y).error)
    ensures r == Err(NotAPlayer) <==> GetStatus(g, x, y).Ok? && !IsPlayer(GetStatus(g, x, y).value)
    ensures r.Ok? ==> (r.value <==> GroupHasLiberty(g, (x, y)))
    ensures WellFormed(g) && GetStatus(g, x, y).Ok? && IsPlayer(GetStatus(g, x, y).value) ==> r.Ok?
  {
    var status := GetStatus(g, x, y);
    if status.Err? {
      return Err(status.error);
    }
    var color := status.value;
    if !IsPlayer(color) {
      return Err(NotAPlayer);
    }
    var start := (x, y);
    var visited: seq<Pos> := [];
    var pending: seq<Pos> := [start];
    ghost var route := map[start := [start]];
    ExploringStarts(g, color, start);
    while pending != []
      invariant Exploring(g, color, start, visited, pending, route)
      decreases |ColorCells(g, color) - Elems(visited)|, |pending|
    {
      var p := pending[|pending| - 1];
      var rest := pending[..|pending| - 1];
      SplitLast(pending);
      if p in visited {
        DropStep(g, color, start, visited, rest, p, route);
        pending := rest;
        continue;
      }
      var freedom := Liberty.Freedom(g, Neighbours(p));
      if freedom.Err? {
        Liberty.FreedomOnWellFormed(g, Neighbours(p));
        return Err(freedom.error);
      }
      if freedom.value {
        FoundLiberty(g, color, start, visited, rest, p, route);
        return Ok(true);
      }
      var frontier := Liberty.Unvisited(g, Neighbours(p), visited, color);
      VisitStep(g, color, start, visited, rest, p, route);
      route := route + map n | n in frontier :: route[p] + [n];
      visited := visited + [p];
      pending := rest + frontier;
    }
    Exhausted(g, color, start, visited, route);
    return Ok(false);
  }

  /** `is_taken` over the corrected search: `Ok(true)` exactly when the
      group has no liberty. */
  method IsTaken(g: Grid, x: int, y: int) returns (r: Result<bool>)
    ensures GetStatus(g, x, y).Err? ==> r == Err(GetStatus(g, x, y).error)
    ensures r == Err(NotAPlayer) <==> GetStatus(g, x, y).Ok? && !IsPlayer(GetStatus(g, x, y).value)
    ensures r.Ok? ==> (r.value <==> !GroupHasLiberty(g, (x, y)))
    ensures WellFormed(g) && GetStatus(g, x, y).Ok? && IsPlayer(GetStatus(g, x, y).value) ==> r.Ok?
  {
    var free := HasLiberty(g, x, y);
    r := if free.Ok? then Ok(!free.value) else free;
  }
}
