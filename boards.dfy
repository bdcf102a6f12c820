/**
 * The race track: a fixed straight line of 98 cells, ids 0..97, filled in once
 * when the board is built.  Moving is a clamp into [0, maxCellId]; there is no
 * wrap-around.  Portal cells carry the id of their partner portal.
 */
module Boards {
  import opened Wrappers
  import opened Config

  /** One cell of the track (display names are not modelled). */
  datatype Cell = Cell(id: int, kind: CellType, portalTarget: Option<int>)

  /** Number of cells on the built track, and the id of the last one. */
  const TrackLength := 98
  const FinishId := 97

  /** The kind of each cell, in the order the board adds them. */
  function KindAt(id: int): CellType
    requires 0 <= id < TrackLength
  {
    match id
    case 0 => Start
    case 1 => Bicycle
    case 2 => ChestGood
    case 3 => Shop
    case 4 => TaDam
    case 5 => ChestGood
    case 6 => Shop
    case 7 => Red
    case 8 => Empty
    case 9 => ChestGood
    case 10 => Portal
    case 11 => TaDam
    case 12 => ChestGood
    case 13 => ChestGood
    case 14 => ChestGood
    case 15 => Green
    case 16 => ChestGood
    case 17 => Portal
    case 18 => TaDam
    case 19 => Shop
    case 20 => ChestGood
    case 21 => Shop
    case 22 => ChestBad
    case 23 => Portal
    case 24 => Empty
    case 25 => ChestGood
    case 26 => Green
    case 27 => Red
    case 28 => Portal
    case 29 => Red
    case 30 => Red
    case 31 => ChestBad
    case 32 => Red
    case 33 => Empty
    case 34 => Shop
    case 35 => Empty
    case 36 => Portal
    case 37 => ChestGood
    case 38 => Green
    case 39 => Empty
    case 40 => FortuneCube
    case 41 => Green
    case 42 => ChestBad
    case 43 => Shop
    case 44 => Empty
    case 45 => TaDam
    case 46 => Green
    case 47 => Portal
    case 48 => ChestGood
    case 49 => Shop
    case 50 => Red
    case 51 => ChestGood
    case 52 => Portal
    case 53 => Green
    case 54 => ChestGood
    case 55 => Red
    case 56 => Empty
    case 57 => FortunateSetup
    case 58 => Green
    case 59 => TaDam
    case 60 => Tornado
    case 61 => Shop
    case 62 => Empty
    case 63 => Green
    case 64 => Portal
    case 65 => Green
    case 66 => Tribute
    case 67 => Empty
    case 68 => Shop
    case 69 => Empty
    case 70 => Duel
    case 71 => Empty
    case 72 => ChestGood
    case 73 => Green
    case 74 => Red
    case 75 => Empty
    case 76 => Shop
    case 77 => ChestGood
    case 78 => ChestGood
    case 79 => Empty
    case 80 => Empty
    case 81 => Shop
    case 82 => Empty
    case 83 => Mine
    case 84 => ChestBad
    case 85 => ChestBad
    case 86 => ChestBad
    case 87 => OhNo
    case 88 => Red
    case 89 => Red
    case 90 => Red
    case 91 => Red
    case 92 => Red
    case 93 => ChestBad
    case 94 => ChestBad
    case 95 => ChestBad
    case 96 => ChestBad
    case 97 => FinishSafe
    case _ => assert false; Empty
  }

  /** The portal links of the built track: four pairs of portals. */
  function PortalAt(id: int): Option<int>
  {
    match id
    case 10 => Some(23)
    case 23 => Some(10)
    case 17 => Some(28)
    case 28 => Some(17)
    case 36 => Some(47)
    case 47 => Some(36)
    case 52 => Some(64)
    case 64 => Some(52)
    case _ => None
  }

  /** The cell the board stores under `id` once it is built. */
  function LayoutCell(id: int): Cell
    requires 0 <= id < TrackLength
  {
    Cell(id, KindAt(id), PortalAt(id))
  }

  /** The complete track, as a map from cell id to cell. */
  function Layout(): map<int, Cell>
  {
    map id | 0 <= id < TrackLength :: LayoutCell(id)
  }

  /** `maxCellId` is the largest id ever added, or 0 while no positive id was added. */
  ghost predicate TracksMaxId(cells: map<int, Cell>, maxCellId: int)
  {
    && 0 <= maxCellId
    && (forall id :: id in cells ==> id <= maxCellId)
    && (maxCellId == 0 || maxCellId in cells)
  }

  class Board {
    var cells: map<int, Cell>
    var maxCellId: int

    /** Builds the full track: exactly the layout, with the finish as largest id. */
    constructor ()
      ensures cells == Layout()
      ensures maxCellId == FinishId
      ensures TracksMaxId(cells, maxCellId)
    {
      cells := map[];
      maxCellId := 0;
      new;
      FillMap();
      LayoutTracksMaxId();
    }

    /** Adds the 98 cells of the track, one at a time, in id order. */
    method FillMap()
      requires cells == map[] && maxCellId == 0
      modifies this
      ensures cells == Layout()
      ensures maxCellId == FinishId
    {
      var id := 0;
      while id < TrackLength
        invariant 0 <= id <= TrackLength
        invariant cells == map i | 0 <= i < id :: LayoutCell(i)
        invariant maxCellId == if id == 0 then 0 else id - 1
      {
        AddCell(id, KindAt(id), PortalAt(id));
        id := id + 1;
      }
    }

    /** Stores (or replaces) the cell under `id` and raises `maxCellId` when `id` is larger. */
    method AddCell(id: int, kind: CellType, portalTarget: Option<int>)
      modifies this
      ensures cells == old(cells)[id := Cell(id, kind, portalTarget)]
      ensures maxCellId == if id > old(maxCellId) then id else old(maxCellId)
      ensures old(TracksMaxId(cells, maxCellId)) ==> TracksMaxId(cells, maxCellId)
    {
      cells := cells[id := Cell(id, kind, portalTarget)];
      if id > maxCellId {
        maxCellId := id;
      }
    }

    /**
     * The cell reached from `start` after `steps` (negative steps go back):
     * never below the start cell, never beyond the last cell.
     */
    function ResolveMove(start: int, steps: int): (target: int)
      reads this
      ensures maxCellId >= 0 ==> 0 <= target <= maxCellId
      ensures start + steps < 0 ==> target == 0
      ensures maxCellId >= 0 && start + steps >= maxCellId ==> target == maxCellId
      ensures 0 <= start + steps <= maxCellId ==> target == start + steps
    {
      var target := start + steps;
      if target < 0 then 0
      else if target >= maxCellId then maxCellId
      else target
    }

    /** The cell stored under `id`, or nothing for an id that is not on the board. */
    function GetCell(id: int): (c: Option<Cell>)
      reads this
      ensures c.Some? <==> id in cells
      ensures c.Some? ==> c.value == cells[id]
    {
      if id in cells then Some(cells[id]) else None
    }

    /** The kinds of the cells 0..97 in id order (`Empty` for an id the board does not hold). */
    function CellKinds(): (k: seq<CellType>)
      reads this
      ensures |k| == TrackLength
      ensures forall id :: 0 <= id < TrackLength && id in cells ==> k[id] == cells[id].kind
    {
      seq(TrackLength, id requires 0 <= id < TrackLength reads this => if id in cells then cells[id].kind else Empty)
    }
  }

  /** On the built board the stored kinds are the layout's. */
  lemma BuiltKinds(b: Board)
    requires b.cells == Layout()
    ensures b.CellKinds() == Kinds()
  {
    LayoutShape();
    forall id | 0 <= id < TrackLength
      ensures b.CellKinds()[id] == Kinds()[id]
    {
      assert Layout()[id] == LayoutCell(id);
    }
  }

  /** The built track tracks its largest id, 97. */
  lemma LayoutTracksMaxId()
    ensures TracksMaxId(Layout(), FinishId)
  {
    assert FinishId in Layout();
  }

  /**
   * The ids of the built track are exactly 0..97, each stored under its own id;
   * the start is cell 0 and the finish-safe cell is 97, and they are the only ones.
   */
  lemma LayoutShape()
    ensures forall id :: id in Layout() <==> 0 <= id < TrackLength
    ensures forall id :: id in Layout() ==> Layout()[id].id == id
    ensures Layout()[0].kind == Start
    ensures Layout()[FinishId].kind == FinishSafe
    ensures forall id :: 0 <= id < TrackLength && KindAt(id) == Start ==> id == 0
    ensures forall id :: 0 <= id < TrackLength && KindAt(id) == FinishSafe ==> id == FinishId
  {
  }

  /**
   * Portals come in symmetric pairs: a cell is a portal exactly when it has a
   * target, that target is on the track, is itself a portal, and links back.
   */
  lemma PortalsPaired()
    ensures forall id :: 0 <= id < TrackLength ==> (KindAt(id) == Portal <==> PortalAt(id).Some?)
    ensures forall id :: 0 <= id < TrackLength && PortalAt(id).Some? ==>
      var t := PortalAt(id).value;
      0 <= t < TrackLength && KindAt(t) == Portal && PortalAt(t) == Some(id) && t != id
  {
  }

  /** On the built board a lookup finds a cell exactly for the ids 0..97. */
  lemma GetCellOnTrack(b: Board, id: int)
    requires b.cells == Layout()
    ensures b.GetCell(id).Some? <==> 0 <= id < TrackLength
    ensures b.GetCell(id).Some? ==> b.GetCell(id).value == LayoutCell(id)
  {
  }

  /** Moving is a clamp of `start + steps` into [0, maxCellId]. */
  lemma ResolveMoveIsClamp(b: Board, start: int, steps: int)
    requires b.maxCellId >= 0
    ensures b.ResolveMove(start, steps) ==
      if start + steps < 0 then 0
      else if start + steps > b.maxCellId then b.maxCellId
      else start + steps
  {
  }

  /** From a cell of the track, a forward move never goes back and standing still stays put. */
  lemma ResolveMoveNoWrap(b: Board, start: int, steps: int)
    requires 0 <= start <= b.maxCellId
    ensures steps >= 0 ==> start <= b.ResolveMove(start, steps)
    ensures steps <= 0 ==> b.ResolveMove(start, steps) <= start
    ensures b.ResolveMove(start, 0) == start
  {
  }

  /** The kinds of the track's cells, in id order. */
  function Kinds(): (k: seq<CellType>)
    ensures |k| == TrackLength && forall id :: 0 <= id < TrackLength ==> k[id] == KindAt(id)
  {
    seq(TrackLength, id requires 0 <= id < TrackLength => KindAt(id))
  }

  /** The first cell of `kind` among the ids [from, end), searching forwards. */
  function FirstOfKind(kinds: seq<CellType>, kind: CellType, from: nat, end: nat): (g: Option<nat>)
    requires end <= |kinds|
    ensures g.Some? ==> from <= g.value < end && kinds[g.value] == kind
    ensures g.Some? ==> forall i :: from <= i < g.value ==> kinds[i] != kind
    ensures g.None? ==> forall i :: from <= i < end ==> kinds[i] != kind
    decreases if from <= end then end - from else 0
  {
    if from >= end then None
    else if kinds[from] == kind then Some(from)
    else FirstOfKind(kinds, kind, from + 1, end)
  }

  /** The last cell of `kind` among the ids [0, end), searching backwards. */
  function LastOfKind(kinds: seq<CellType>, kind: CellType, end: int): (r: Option<nat>)
    requires end <= |kinds|
    ensures r.Some? ==> r.value < end && kinds[r.value] == kind
    ensures r.Some? ==> forall i :: r.value < i < end ==> kinds[i] != kind
    ensures r.None? ==> forall i :: 0 <= i < end ==> kinds[i] != kind
    decreases end
  {
    if end <= 0 then None
    else if kinds[end - 1] == kind then Some(end - 1)
    else LastOfKind(kinds, kind, end - 1)
  }
}
