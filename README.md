# Liberty check of a Go board, in Dafny

This project models the board of goban.py: the `Goban` class over a list of
text rows. It covers:

- the four-valued `Status` of a point;
- `get_status`, which reads a point and treats every off-board coordinate
  as `OUT`;
- `_is_free`, which asks whether the stone at a point is free, i.e. whether
  its group has a liberty;
- `is_taken`, its negation.

A group is a set of same-coloured stones connected orthogonally. A liberty
is an empty point next to any stone of the group.

The project has four modules:

- `Board` (board.dfy): the status enum, the two `ValueError`s as an `Error`
  datatype, the `Grid` of rows, `GetStatus` and the four cardinal
  neighbours.
- `Groups` (groups.dfy): what a liberty query is meant to decide, stated
  without any search. The stone at `p` has a liberty (`GroupHasLiberty`)
  when some path of stones of its colour leads from `p` to a stone that
  touches an empty point.
- `Liberty` (liberty.dfy): `_is_free` and `is_taken` exactly as written.
  - The functions `Freedom`, `Unvisited`, `Search`, `Free` and `Taken`
    model them on values.
  - The methods `QueueNeighbours`, `IsFreeFrom`, `IsFree` and `IsTaken` keep
    the code's loop and recursion, and are proved equal to those functions.
  - The search is proved sound: a stone reported free really has a
    liberty.
  - It is also shown not to be complete (see "## Findings").
- `Worklist` (worklist.dfy): the corrected, full-group search that the code
  evidently intends. This search is not what goban.py does. It is proved
  sound and complete: it answers `true` exactly when the group has a
  liberty.

## Model

| member | source | states |
|---|---|---|
| Board.GetStatus | goban.py:20-45 | `Out` exactly for coordinates off the board (also when the board has no rows); `Empty`, `White` or `Black` exactly for an on-board `.`, `o` or `#`; an `UnknownSymbol` error carrying the symbol exactly for any other on-board symbol |
| Board.Neighbours | goban.py:71-74 | the points checked are exactly the four orthogonally adjacent ones, four distinct points in the order left, right, up, down |
| Liberty.Freedom | goban.py:71-74 | the short-circuit `or`: `Ok(true)` exactly when some neighbour is empty and every earlier one reads without error and is not empty; `Ok(false)` exactly when all read without error and none is empty; otherwise the error of the first neighbour that raises, before any empty one |
| Liberty.FreedomOnWellFormed | goban.py:71-74 | on a board holding only `.`, `o` and `#`, the freedom check never raises |
| Liberty.FreedomMeansTouchesEmpty | goban.py:71-77 | a `true` freedom check means the point touches an empty point; `false` means it touches none |
| Liberty.UnvisitedMembers | goban.py:82-89 | a neighbour is queued exactly when it is not yet recorded and holds the searched colour |
| Liberty.UnvisitedAppend | goban.py:82-89 | scanning one more candidate appends it to the queue exactly when it qualifies, keeping the scan order |
| Liberty.UnvisitedFirst | goban.py:91-93 | the point the recursion follows is the first qualifying candidate in visiting order |
| Liberty.QueueNeighbours | goban.py:80-89 | the loop queues exactly the neighbours not yet recorded that hold the colour, in order, and the record grows by exactly those points |
| Liberty.ExplorationGrows | goban.py:84-93 | whenever something is queued, fewer cells of the searched colour are left unrecorded, so the recursion terminates for any record it is handed |
| Liberty.Search | goban.py:70-96 | the recursion terminates; it answers `true` at once when the freedom check finds an empty neighbour; it raises only `UnknownSymbol` errors, and none on a board of recognised symbols |
| Liberty.SearchStep | goban.py:91-93 | with no empty neighbour and a non-empty queue, the answer is the answer at the first queued neighbour with the queue recorded |
| Liberty.SearchSound | goban.py:70-96 | soundness: a `true` answer from any point of colour `c` means a path of `c` stones leads from that point to a liberty |
| Liberty.IsFreeFrom | goban.py:70-96 | the imperative recursion, with its in-place record, computes exactly `Search` |
| Liberty.Free | goban.py:57-96 | the start point's read error propagates; `NotAPlayer` exactly when the start point is empty or off the board; `Ok(true)` only when the stone's group has a liberty; on a board of recognised symbols, no error when a stone is asked, and `Ok(true)` whenever that stone touches an empty point |
| Liberty.IsFree | goban.py:57-68 | the method with default arguments computes exactly `Free` |
| Liberty.Taken | goban.py:108-109 | defined exactly when `_is_free` is; then its negation, with the same errors; a stone reported not taken has a liberty; on a board of recognised symbols, a stone touching an empty point is not taken |
| Liberty.IsTaken | goban.py:108-109 | the method computes exactly `Taken` |
| Liberty.ChainWalkStarts | goban.py:91-93 | on `#ooo.` the search from (2, 0) follows only (1, 0), walks back onto the unrecorded start and answers `false` |
| Liberty.ChainHasLiberty | goban.py:108-109 | the white group of `#ooo.` does have a liberty, at (4, 0) |
| Liberty.AsWrittenMissesLiberty | goban.py:91-93 | incompleteness: `is_taken(2, 0)` on `#ooo.` answers `true` although the group has a liberty |
| Worklist.ClosedGroupHasNoLiberty | goban.py:95-96 | a set of stones that contains the start, is closed under same-coloured neighbours, and has no member touching an empty point proves that the group has no liberty |
| Worklist.VisitStep | goban.py:80-89 | visiting a point keeps the search invariant and shrinks the unvisited same-coloured cells |
| Worklist.HasLiberty | goban.py:57-96 | corrected `_is_free`: a read error of the start point propagates, and `NotAPlayer` is returned exactly when the start holds no stone; otherwise `true` exactly when the group has a liberty; never an error on a board of recognised symbols |
| Worklist.IsTaken | goban.py:108-109 | corrected `is_taken`: `true` exactly when the group has no liberty; a read error of the start point propagates, and `NotAPlayer` exactly when the start holds no stone |

## Left out

- The numeric values of `Status` (1 to 4) play no part in the code's behaviour and are not modelled.
- Board construction (goban.py:17-18) just stores the rows; a board is the `Grid` value itself.
- Ragged boards are excluded: `Grid` requires all rows to be as long as row 0, which is where the code reads the width. A short row would make the code index past its end.
- The loop's `is color` comparison (goban.py:87) is modelled as equality of statuses. For enum members, identity and equality coincide.
- The loop's `get_status` calls (goban.py:87) cannot raise. The freedom check has already read all four neighbours without error. The model compares the read status with `Ok(color)`.
- Rebinding `x, y` inside the loops (goban.py:85, 92) changes nothing, because the candidate list is built before the loop. The model reads the coordinates of each position directly.
- Callers share one `previous_positions` list, and the code appends to it in place. The model passes the extended record forward. No call reads the list after its recursive call returns, so the two agree.
- Liberty.Search: requires `color` to be `White` or `Black`. The public entry point (goban.py:60-64) guarantees this. An explicit `OUT` colour would let the code recurse over the unbounded off-board area without end.
- Liberty.SearchSound: soundness only. Completeness does not hold for the code as written (see "## Findings").
- Idempotence is not stated as a separate lemma. `IsTaken` has no `modifies` clause and is proved equal to the function `Taken`, so repeated calls give the same result.
- Python's recursion limit and exceptions other than the two `ValueError`s are not modelled.
- The code's behaviour is modelled as written. The full-group traversal its comment at goban.py:79 promises ("until we find freedom") is modelled only as the separate `Worklist` module.

## Findings

| source | as written | input that shows it | evidently intended | confidence | as-written member | corrected member |
|---|---|---|---|---|---|---|
| goban.py:91-93 | `_is_free` returns the answer of the first queued neighbour only. The start point is never added to `previous_positions`, so that branch can walk back onto the start and stop. | board `["#ooo."]`, `is_taken(2, 0)`: queues (1, 0) and (3, 0), follows (1, 0), returns to (2, 0), finds nothing left to queue and answers `True`. Yet (3, 0) touches the empty point (4, 0). | examine the whole group before answering "taken": `True` exactly when no stone of the group touches an empty point | not executed | Liberty.AsWrittenMissesLiberty | Worklist.IsTaken |
