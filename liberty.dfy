/**
 * `Goban._is_free` and `Goban.is_taken` exactly as goban.py writes them.
 *
 * The recursion records the positions it has queued in `previous_positions`
 * and then returns the result of its FIRST queued neighbour only, so just one
 * branch of a group is ever explored, and the start point is never recorded,
 * so a branch can walk back onto it. The functions below model that code on
 * values (`Search`, `Free`, `Taken`); the methods model its imperative form
 * (`IsFreeFrom`, `IsFree`, `IsTaken`) and are proved equal to them. The
 * search is proved sound against `Groups.GroupHasLiberty`; it is not complete
 * (`AsWrittenMissesLiberty`), and `Worklist` holds the corrected search.
 */
module Liberty {
  import opened Board
  import opened Groups

  /** None of the first `i` points of `ns` raises an error or is empty. */
  predicate ClearBefore(g: Grid, ns: seq<Pos>, i: int)
    requires 0 <= i <= |ns|
  {
    forall j :: 0 <= j < i ==> StatusAt(g, ns[j]).Ok? && StatusAt(g, ns[j]).value != Empty
  }

  /** The short-circuit `or` over "this neighbour is `EMPTY`": statuses are
      read in order, the first empty one answers `true` without reading the
      rest, and a status that raises before that propagates its error. */
  function Freedom(g: Grid, ns: seq<Pos>): (r: Result<bool>)
    ensures r == Ok(true) <==>
              exists i :: 0 <= i < |ns| && ClearBefore(g, ns, i) && StatusAt(g, ns[i]) == Ok(Empty)
    ensures r == Ok(false) <==> ClearBefore(g, ns, |ns|)
    ensures r.Err? ==>
              exists i :: 0 <= i < |ns| && ClearBefore(g, ns, i) && StatusAt(g, ns[i]) == Err(r.error)
  {
    if ns == [] then Ok(false)
    else match StatusAt(g, ns[0])
      case Err(e) => Err(e)
      case Ok(s) => if s == Empty then Ok(true) else Freedom(g, ns[1..])
  }

  /** On a board whose every cell holds a recognised symbol, the freedom check cannot fail. */
  lemma FreedomOnWellFormed(g: Grid, ns: seq<Pos>)
    ensures WellFormed(g) ==> Freedom(g, ns).Ok?
  {
  }

  /** A neighbour the loop at goban.py:82-89 queues: not yet recorded, and of the searched colour. */
  predicate Queues(g: Grid, q: Pos, prev: seq<Pos>, color: Status) {
    q !in prev && StatusAt(g, q) == Ok(color)
  }

  /** `positions_to_check`: the neighbours that are queued, in visiting order. */
  function Unvisited(g: Grid, ns: seq<Pos>, prev: seq<Pos>, color: Status): (r: seq<Pos>)
    ensures |r| <= |ns|
  {
    if ns == [] then []
    else (if Queues(g, ns[0], prev, color) then [ns[0]] else []) + Unvisited(g, ns[1..], prev, color)
  }

  /** Exactly the queued candidates are in the queue. */
  lemma {:induction false} UnvisitedMembers(g: Grid, ns: seq<Pos>, prev: seq<Pos>, color: Status)
    ensures forall q :: q in Unvisited(g, ns, prev, color) <==> q in ns && Queues(g, q, prev, color)
  {
    if ns != [] {
      UnvisitedMembers(g, ns[1..], prev, color);
      assert forall q :: q in ns <==> q == ns[0] || q in ns[1..];
    }
  }

  /** Considering one more candidate appends it to the queue exactly when it is queued. */
  lemma {:induction false} UnvisitedAppend(g: Grid, ns: seq<Pos>, q: Pos, prev: seq<Pos>, color: Status)
    ensures Unvisited(g, ns + [q], prev, color) ==
              Unvisited(g, ns, prev, color) + (if Queues(g, q, prev, color) then [q] else [])
  {
    if ns == [] {
      assert [] + [q] == [q] && [q][1..] == [];
    } else {
      var head := if Queues(g, ns[0], prev, color) then [ns[0]] else [];
      assert (ns + [q])[0] == ns[0] && (ns + [q])[1..] == ns[1..] + [q];
      assert Unvisited(g, ns + [q], prev, color) == head + Unvisited(g, ns[1..] + [q], prev, color);
      UnvisitedAppend(g, ns[1..], q, prev, color);
    }
  }

  /** The search goes on from the FIRST queued neighbour in visiting order,
      not from any other. */
  lemma {:induction false} UnvisitedFirst(g: Grid, ns: seq<Pos>, prev: seq<Pos>, color: Status)
    requires Unvisited(g, ns, prev, color) != []
    ensures exists i :: 0 <= i < |ns| && Unvisited(g, ns, prev, color)[0] == ns[i] &&
              forall j :: 0 <= j < i ==> !Queues(g, ns[j], prev, color)
  {
    if !Queues(g, ns[0], prev, color) {
      var tail := ns[1..];
      UnvisitedFirst(g, tail, prev, color);
      var i :| 0 <= i < |tail| && Unvisited(g, tail, prev, color)[0] == tail[i] &&
                forall j :: 0 <= j < i ==> !Queues(g, tail[j], prev, color);
      assert Unvisited(g, ns, prev, color)[0] == ns[i + 1];
      forall j | 0 <= j < i + 1 ensures !Queues(g, ns[j], prev, color) {
        if j > 0 {
          assert ns[j] == tail[j - 1];
        }
      }
    } else {
      assert Unvisited(g, ns, prev, color)[0] == ns[0];
    }
  }

  /** Queuing any neighbour at all shrinks the set of cells of the searched
      colour that are not yet recorded: the measure of the recursion, whatever
      else the record holds. */
  lemma ExplorationGrows(g: Grid, ns: seq<Pos>, prev: seq<Pos>, color: Status)
    requires IsPlayer(color)
    ensures Unvisited(g, ns, prev, color) != [] ==>
              |ColorCells(g, color) - Elems(prev + Unvisited(g, ns, prev, color))|
              < |ColorCells(g, color) - Elems(prev)|
  {
    var t := Unvisited(g, ns, prev, color);
    if t != [] {
      UnvisitedMembers(g, ns, prev, color);
      assert t[0] in t && t[0] in prev + t;
      assert Elems(prev) <= Elems(prev + t);
      FewerUnrecorded(ColorCells(g, color), Elems(prev), Elems(prev + t), t[0]);
    }
  }

  /** Recording one more cell of `cells` leaves fewer of them unrecorded. */
  lemma FewerUnrecorded(cells: set<Pos>, recorded: set<Pos>, recorded': set<Pos>, q: Pos)
    requires recorded <= recorded'
    requires q in cells && q in recorded' && q !in recorded
    ensures |cells - recorded'| < |cells - recorded|
  {
    var before, after := cells - recorded, cells - recorded';
    assert after <= before - {q};
    assert before - {q} == after + (before - {q} - after);
  }

  /** `_is_free(x, y, previous_positions, color)` once `color` is known
      (goban.py:70-96): `true` at once if a neighbour is empty; otherwise
      record the unrecorded same-coloured neighbours and return the answer of
      the first of them, or `false` when there is none. */
  function Search(g: Grid, x: int, y: int, prev: seq<Pos>, color: Status): (r: Result<bool>)
    requires IsPlayer(color)
    ensures r.Err? ==> r.error.UnknownSymbol?
    ensures WellFormed(g) ==> r.Ok?
    ensures Freedom(g, Neighbours((x, y))) == Ok(true) ==> r == Ok(true)
    decreases |ColorCells(g, color) - Elems(prev)|
  {
    FreedomOnWellFormed(g, Neighbours((x, y)));
    match Freedom(g, Neighbours((x, y)))
    case Err(e) => Err(e)
    case Ok(free) =>
      if free then Ok(true)
      else
        var toCheck := Unvisited(g, Neighbours((x, y)), prev, color);
        if toCheck == [] then Ok(false)
        else
          ExplorationGrows(g, Neighbours((x, y)), prev, color);
          Search(g, toCheck[0].0, toCheck[0].1, prev + toCheck, color)
  }

  /** An answer of `true` from the freedom check means the point touches an
      empty point; an answer of `false` means it touches none. */
  lemma FreedomMeansTouchesEmpty(g: Grid, p: Pos)
    ensures Freedom(g, Neighbours(p)) == Ok(true) ==> TouchesEmpty(g, p)
    ensures Freedom(g, Neighbours(p)) == Ok(false) ==> !TouchesEmpty(g, p)
  {
    var ns := Neighbours(p);
    if Freedom(g, ns) == Ok(true) {
      var i :| 0 <= i < |ns| && ClearBefore(g, ns, i) && StatusAt(g, ns[i]) == Ok(Empty);
      assert ns[i] in ns;
    }
    if Freedom(g, ns) == Ok(false) {
      forall n | n in ns ensures StatusAt(g, n) != Ok(Empty) {
        var i :| 0 <= i < |ns| && ns[i] == n;
      }
    }
  }

  /** When no neighbour is empty and some neighbour is queued, the search
      continues at the first queued neighbour with the queue recorded. */
  lemma SearchStep(g: Grid, x: int, y: int, prev: seq<Pos>, color: Status)
    requires IsPlayer(color)
    requires Freedom(g, Neighbours((x, y))) == Ok(false)
    requires Unvisited(g, Neighbours((x, y)), prev, color) != []
    ensures var toCheck := Unvisited(g, Neighbours((x, y)), prev, color);
            Search(g, x, y, prev, color) == Search(g, toCheck[0].0, toCheck[0].1, prev + toCheck, color)
  {
    ExplorationGrows(g, Neighbours((x, y)), prev, color);
  }

  /** Soundness of the as-written search: an answer of `true` is backed by a
      real liberty of the starting stone's group. */
  lemma {:induction false} SearchSound(g: Grid, x: int, y: int, prev: seq<Pos>, color: Status)
    requires IsPlayer(color)
    requires GetStatus(g, x, y) == Ok(color)
    ensures Search(g, x, y, prev, color) == Ok(true) ==> LibertyFrom(g, color, (x, y))
    decreases |ColorCells(g, color) - Elems(prev)|
  {
    var ns := Neighbours((x, y));
    var free := Freedom(g, ns);
    if free == Ok(true) {
      FreedomMeansTouchesEmpty(g, (x, y));
      DirectLiberty(g, color, (x, y));
    } else if free == Ok(false) {
      var toCheck := Unvisited(g, ns, prev, color);
      if toCheck != [] {
        var next := toCheck[0];
        assert next in ns && StatusAt(g, next) == Ok(color) by {
          UnvisitedMembers(g, ns, prev, color);
          assert next in toCheck;
        }
        SearchStep(g, x, y, prev, color);
        ExplorationGrows(g, ns, prev, color);
        SearchSound(g, next.0, next.1, prev + toCheck, color);
        if Search(g, next.0, next.1, prev + toCheck, color) == Ok(true) {
          LibertyThroughNeighbour(g, color, (x, y), next);
        }
      }
    }
  }

  /** `_is_free(x, y)` as called from outside (goban.py:57-96): the start
      point's own status decides the colour, and only a stone may be asked. */
  function Free(g: Grid, x: int, y: int): (r: Result<bool>)
    ensures GetStatus(g, x, y).Err? ==> r == Err(GetStatus(g, x, y).error)
    ensures r == Err(NotAPlayer) <==> GetStatus(g, x, y).Ok? && !IsPlayer(GetStatus(g, x, y).value)
    ensures r == Ok(true) ==> GroupHasLiberty(g, (x, y))
    ensures WellFormed(g) && GetStatus(g, x, y).Ok? && IsPlayer(GetStatus(g, x, y).value) ==> r.Ok?
    ensures (WellFormed(g) && GetStatus(g, x, y).Ok? && IsPlayer(GetStatus(g, x, y).value) &&
             TouchesEmpty(g, (x, y))) ==> r == Ok(true)
  {
    FreedomMeansTouchesEmpty(g, (x, y));
    FreedomOnWellFormed(g, Neighbours((x, y)));
    match GetStatus(g, x, y)
    case Err(e) => Err(e)
    case Ok(color) =>
      if !IsPlayer(color) then Err(NotAPlayer)
      else
        SearchSound(g, x, y, [], color);
        Search(g, x, y, [], color)
  }

  /** `is_taken(x, y)` (goban.py:108-109): the negation of `_is_free`, with
      the same errors. A stone reported not taken has a real liberty, so a
      group without liberties is never reported as free. */
  function Taken(g: Grid, x: int, y: int): (r: Result<bool>)
    ensures r.Ok? <==> Free(g, x, y).Ok?
    ensures r.Ok? ==> r.value == !Free(g, x, y).value
    ensures r.Err? ==> r == Free(g, x, y)
    ensures r == Ok(false) ==> GroupHasLiberty(g, (x, y))
    ensures (WellFormed(g) && GetStatus(g, x, y).Ok? && IsPlayer(GetStatus(g, x, y).value) &&
             TouchesEmpty(g, (x, y))) ==> r == Ok(false)
  {
    match Free(g, x, y)
    case Ok(free) => Ok(!free)
    case Err(e) => Err(e)
  }

  /** The loop at goban.py:82-89: each candidate not yet in the record and
      holding `color` is appended both to `positions_to_check` and, in place,
      to the record. Because the four candidates are distinct, this queues
      exactly `Unvisited` of the record the loop started from. */
  method QueueNeighbours(g: Grid, candidates: seq<Pos>, prev: seq<Pos>, color: Status)
    returns (positionsToCheck: seq<Pos>, previous: seq<Pos>)
    requires forall i, j :: 0 <= i < j < |candidates| ==> candidates[i] != candidates[j]
    ensures positionsToCheck == Unvisited(g, candidates, prev, color)
    ensures previous == prev + positionsToCheck
  {
    positionsToCheck, previous := [], prev;
    for i := 0 to |candidates|
      invariant positionsToCheck == Unvisited(g, candidates[..i], prev, color)
      invariant previous == prev + positionsToCheck
    {
      var position := candidates[i];
      assert candidates[..i + 1] == candidates[..i] + [position];
      UnvisitedAppend(g, candidates[..i], position, prev, color);
      assert position !in positionsToCheck by {
        UnvisitedMembers(g, candidates[..i], prev, color);
        assert position !in candidates[..i];
      }
      if position !in previous {
        if StatusAt(g, position) == Ok(color) {
          positionsToCheck := positionsToCheck + [position];
          previous := previous + [position];
        }
      }
    }
    assert candidates[..|candidates|] == candidates;
  }

  /** `_is_free(x, y, previous_positions, color)` in its imperative form
      (goban.py:70-96): after the freedom check, the loop records the queued
      neighbours in the list it was handed, and the call then recurses on the
      first of them with that list. */
  method IsFreeFrom(g: Grid, x: int, y: int, prev: seq<Pos>, color: Status) returns (r: Result<bool>)
    requires IsPlayer(color)
    ensures r == Search(g, x, y, prev, color)
    decreases |ColorCells(g, color) - Elems(prev)|
  {
    var freedom := Freedom(g, Neighbours((x, y)));
    if freedom.Err? {
      return Err(freedom.error);
    }
    if freedom.value {
      return Ok(true);
    }
    var positionsToCheck, previous := QueueNeighbours(g, Neighbours((x, y)), prev, color);
    if positionsToCheck == [] {
      return Ok(false);
    }
    ExplorationGrows(g, Neighbours((x, y)), prev, color);
    var next := positionsToCheck[0];
    r := IsFreeFrom(g, next.0, next.1, previous, color);
  }

  /** `_is_free(x, y)` with its default arguments: check that a stone is
      asked about, then search from it with an empty record. */
  method IsFree(g: Grid, x: int, y: int) returns (r: Result<bool>)
    ensures r == Free(g, x, y)
  {
    var color := GetStatus(g, x, y);
    if color.Err? {
      return Err(color.error);
    }
    if !IsPlayer(color.value) {
      return Err(NotAPlayer);
    }
    r := IsFreeFrom(g, x, y, [], color.value);
  }

  /** `is_taken(x, y)`: the negation of `_is_free(x, y)`. */
  method IsTaken(g: Grid, x: int, y: int) returns (r: Result<bool>)
    ensures r == Taken(g, x, y)
  {
    var free := IsFree(g, x, y);
    r := if free.Ok? then Ok(!free.value) else free;
  }

  /** The one-row board `#ooo.`: a white chain of three stones whose right
      end touches an empty point. */
  const ChainBoard: Grid := ["#ooo."]

  /** The white stones of `ChainBoard` and the cells around them. */
  lemma ChainBoardStatuses()
    ensures GetStatus(ChainBoard, 0, 0) == Ok(Black)
    ensures GetStatus(ChainBoard, 1, 0) == Ok(White)
    ensures GetStatus(ChainBoard, 2, 0) == Ok(White)
    ensures GetStatus(ChainBoard, 3, 0) == Ok(White)
    ensures GetStatus(ChainBoard, 4, 0) == Ok(Empty)
    ensures GetStatus(ChainBoard, 1, -1) == Ok(Out) && GetStatus(ChainBoard, 1, 1) == Ok(Out)
    ensures GetStatus(ChainBoard, 2, -1) == Ok(Out) && GetStatus(ChainBoard, 2, 1) == Ok(Out)
  {
  }

  /** (2, 0) does not touch an empty point: it is flanked by white stones and the board edge. */
  lemma ChainStartClosedIn()
    ensures Freedom(ChainBoard, Neighbours((2, 0))) == Ok(false)
  {
    ChainBoardStatuses();
    assert Neighbours((2, 0)) == [(1, 0), (3, 0), (2, -1), (2, 1)];
  }

  /** (1, 0) does not touch an empty point: it is flanked by stones and the board edge. */
  lemma ChainLeftClosedIn()
    ensures Freedom(ChainBoard, Neighbours((1, 0))) == Ok(false)
  {
    ChainBoardStatuses();
    assert Neighbours((1, 0)) == [(0, 0), (2, 0), (1, -1), (1, 1)];
  }

  /** First call, at (2, 0) with nothing recorded: both white neighbours
      are queued, (1, 0) first. */
  lemma ChainQueuesBoth()
    ensures Unvisited(ChainBoard, Neighbours((2, 0)), [], White) == [(1, 0), (3, 0)]
  {
    ChainBoardStatuses();
    var ns := Neighbours((2, 0));
    assert ns[1..][1..][1..][1..] == [];
    assert Unvisited(ChainBoard, ns[1..][1..], [], White) == [];
  }

  /** Middle call, at (1, 0) with (1, 0) and (3, 0) recorded: the black
      stone is skipped and only the unrecorded start (2, 0) is queued. */
  lemma ChainQueuesStart()
    ensures Unvisited(ChainBoard, Neighbours((1, 0)), [(1, 0), (3, 0)], White) == [(2, 0)]
  {
    ChainBoardStatuses();
    var ns := Neighbours((1, 0));
    assert ns[1..][1..][1..][1..] == [];
    assert Unvisited(ChainBoard, ns[1..][1..], [(1, 0), (3, 0)], White) == [];
  }

  /** Last call, back at (2, 0): both white neighbours are recorded. */
  lemma ChainQueuesNothing()
    ensures Unvisited(ChainBoard, Neighbours((2, 0)), [(1, 0), (3, 0), (2, 0)], White) == []
  {
    ChainBoardStatuses();
    var ns := Neighbours((2, 0));
    assert ns[1..][1..][1..][1..] == [];
    assert Unvisited(ChainBoard, ns[1..][1..], [(1, 0), (3, 0), (2, 0)], White) == [];
  }

  /** The walk 2 -> 1 -> 2 ends with nothing left to queue. */
  lemma ChainWalkEnds()
    ensures Search(ChainBoard, 2, 0, [(1, 0), (3, 0), (2, 0)], White) == Ok(false)
  {
    ChainStartClosedIn();
    ChainQueuesNothing();
  }

  /** At (1, 0) the search walks back onto the start point. */
  lemma ChainWalkTurnsBack()
    ensures Search(ChainBoard, 1, 0, [(1, 0), (3, 0)], White) == Ok(false)
  {
    ChainLeftClosedIn();
    ChainQueuesStart();
    assert [(1, 0), (3, 0)] + [(2, 0)] == [(1, 0), (3, 0), (2, 0)];
    SearchStep(ChainBoard, 1, 0, [(1, 0), (3, 0)], White);
    ChainWalkEnds();
  }

  /** From (2, 0) the search follows (1, 0) only. */
  lemma ChainWalkStarts()
    ensures Search(ChainBoard, 2, 0, [], White) == Ok(false)
  {
    ChainStartClosedIn();
    ChainQueuesBoth();
    assert [] + [(1, 0), (3, 0)] == [(1, 0), (3, 0)];
    SearchStep(ChainBoard, 2, 0, [], White);
    ChainWalkTurnsBack();
  }

  /** The white group of `ChainBoard` does have a liberty: (3, 0) touches (4, 0). */
  lemma ChainHasLiberty()
    ensures GroupHasLiberty(ChainBoard, (2, 0))
  {
    ChainBoardStatuses();
    assert (4, 0) in Neighbours((3, 0));
    assert LibertyPath(ChainBoard, White, (2, 0), [(2, 0), (3, 0)]);
  }

  /** The as-written search is not complete. Asked about the middle stone
      (2, 0) of `ChainBoard`, it queues (1, 0) and (3, 0), follows only
      (1, 0), walks back onto the unrecorded start (2, 0), finds nothing left
      to queue and answers "taken", although (3, 0) in the same group
      touches the empty point (4, 0). */
  lemma AsWrittenMissesLiberty()
    ensures Taken(ChainBoard, 2, 0) == Ok(true)
    ensures GroupHasLiberty(ChainBoard, (2, 0))
  {
    ChainBoardStatuses();
    ChainWalkStarts();
    ChainHasLiberty();
  }
}
