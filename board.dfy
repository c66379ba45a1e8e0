/**
 * Players, marks and the board of cells with bounds-checked,
 * write-once placement (board.rs). The board the contract uses is
 * `Board<u8, 9>`: each cell is empty or holds the one-byte code of a mark.
 */
module Board {
  import opened Types
  import opened Errors

  /** The two roles: the first mover and the second mover. */
  datatype Player = XPlayer | OPlayer

  /** The two symbols a cell can hold. */
  datatype Mark = X | O {
    predicate IsX() { this == X }
    predicate IsO() { this == O }
  }

  /** `is_x` and `is_o` hold of exactly one of the two marks each. */
  lemma MarkPredicatesPartition(m: Mark)
    ensures m.IsX() != m.IsO()
    ensures m.IsX() <==> m == X
  {
  }

  /** `u8::from(Mark)`: the code of a mark is 0 or 1 and decodes back to the mark. */
  function MarkToByte(m: Mark): (b: u8)
    ensures b <= 1
    ensures MarkFromByte(b) == m
  {
    match m
    case X => 0
    case O => 1
  }

  /** `Mark::from(u8)`: 0 reads as X and every other byte as O. */
  function MarkFromByte(b: u8): Mark {
    if b == 0 then X else O
  }

  /** Decoding is total but not injective: only 0 gives X, and distinct bytes may both give O. */
  lemma MarkFromByteNotInjective(b: u8)
    ensures MarkFromByte(b) == X <==> b == 0
    ensures MarkFromByte(1) == MarkFromByte(2) == O
  {
  }

  /** The mark each role places: the first mover X, the second mover O. */
  function MarkOf(p: Player): Mark {
    match p
    case XPlayer => X
    case OPlayer => O
  }

  /** A cell: empty, or holding the code of a mark. */
  type Cell = Option<u8>

  /** Cell `c` holds a mark of `p`, read through `Mark::from` and tested with `is_x` or `is_o`. */
  predicate Owns(c: Cell, p: Player) {
    c.Some? &&
    match p
    case XPlayer => MarkFromByte(c.value).IsX()
    case OPlayer => MarkFromByte(c.value).IsO()
  }

  /** Number of occupied cells. */
  function Filled(cells: seq<Cell>): nat {
    if cells == [] then 0 else (if cells[0].Some? then 1 else 0) + Filled(cells[1..])
  }

  /** Number of cells holding a mark of `p`. */
  function Owned(cells: seq<Cell>, p: Player): nat {
    if cells == [] then 0 else (if Owns(cells[0], p) then 1 else 0) + Owned(cells[1..], p)
  }

  /** `Board::default()`: `len` empty cells. */
  function Default(len: nat): (cells: seq<Cell>)
    ensures |cells| == len
    ensures forall i :: 0 <= i < len ==> cells[i].None?
    ensures Filled(cells) == 0
  {
    if len == 0 then [] else [None] + Default(len - 1)
  }

  /**
   * `Board::turn` on the cell values: the out-of-range check comes first,
   * the occupancy check second, and only an empty in-range cell is written.
   * Returns the result and the cells afterwards.
   */
  function Place(cells: seq<Cell>, p: Player, coordinate: nat): (Result<()>, seq<Cell>) {
    if coordinate >= |cells| then (Err(CoordinateNotExists), cells)
    else if cells[coordinate].None? then (Ok(()), cells[coordinate := Some(MarkToByte(MarkOf(p)))])
    else (Err(CoordinateAlreadyFilled), cells)
  }

  /** `Board::turn`: places `p`'s mark in `cells[coordinate]` in place. */
  method Turn(cells: array<Cell>, p: Player, coordinate: nat) returns (r: Result<()>)
    modifies cells
    ensures (r, cells[..]) == Place(old(cells[..]), p, coordinate)
  {
    if coordinate >= cells.Length {
      return Err(CoordinateNotExists);
    }
    if cells[coordinate].None? {
      match p {
        case XPlayer => cells[coordinate] := Some(MarkToByte(X));
        case OPlayer => cells[coordinate] := Some(MarkToByte(O));
      }
      return Ok(());
    } else {
      return Err(CoordinateAlreadyFilled);
    }
  }

  /** The three outcomes of a placement, each an if-and-only-if, and what each leaves behind. */
  lemma PlaceOutcomes(cells: seq<Cell>, p: Player, coordinate: nat)
    ensures var (r, after) := Place(cells, p, coordinate);
      && |after| == |cells|
      && (r == Err(CoordinateNotExists) <==> coordinate >= |cells|)
      && (r == Err(CoordinateAlreadyFilled) <==> coordinate < |cells| && cells[coordinate].Some?)
      && (r == Ok(()) <==> coordinate < |cells| && cells[coordinate].None?)
      && (r.Err? ==> after == cells)
      && (r.Ok? ==> after[coordinate] == Some(MarkToByte(MarkOf(p))))
      && (forall i :: 0 <= i < |cells| && i != coordinate ==> after[i] == cells[i])
  {
  }

  /** No placement ever clears or overwrites an occupied cell. */
  lemma PlaceNeverOverwrites(cells: seq<Cell>, p: Player, coordinate: nat, i: nat)
    requires i < |cells| && cells[i].Some?
    ensures Place(cells, p, coordinate).1[i] == cells[i]
  {
  }

  /** Writing cell `i` changes the count of occupied cells by what it removes and adds there. */
  lemma {:induction false} FilledUpdate(cells: seq<Cell>, i: nat, v: Cell)
    requires i < |cells|
    ensures Filled(cells[i := v]) + (if cells[i].Some? then 1 else 0)
         == Filled(cells) + (if v.Some? then 1 else 0)
  {
    if i > 0 {
      assert cells[i := v][1..] == cells[1..][i - 1 := v];
      FilledUpdate(cells[1..], i - 1, v);
    } else {
      assert cells[i := v][1..] == cells[1..];
    }
  }

  /** Writing cell `i` changes the count of `p`'s cells by what it removes and adds there. */
  lemma {:induction false} OwnedUpdate(cells: seq<Cell>, i: nat, v: Cell, p: Player)
    requires i < |cells|
    ensures Owned(cells[i := v], p) + (if Owns(cells[i], p) then 1 else 0)
         == Owned(cells, p) + (if Owns(v, p) then 1 else 0)
  {
    if i > 0 {
      assert cells[i := v][1..] == cells[1..][i - 1 := v];
      OwnedUpdate(cells[1..], i - 1, v, p);
    } else {
      assert cells[i := v][1..] == cells[1..];
    }
  }

  /** A successful placement fills exactly one more cell, and it is one of `p`'s. */
  lemma PlaceFillsOne(cells: seq<Cell>, p: Player, coordinate: nat)
    requires Place(cells, p, coordinate).0.Ok?
    ensures var after := Place(cells, p, coordinate).1;
      && Filled(after) == Filled(cells) + 1
      && Owned(after, p) == Owned(cells, p) + 1
      && (forall q :: q != p ==> Owned(after, q) == Owned(cells, q))
  {
    var v: Cell := Some(MarkToByte(MarkOf(p)));
    FilledUpdate(cells, coordinate, v);
    OwnedUpdate(cells, coordinate, v, XPlayer);
    OwnedUpdate(cells, coordinate, v, OPlayer);
  }

  /** Every occupied cell belongs to exactly one player. */
  lemma {:induction false} FilledSplit(cells: seq<Cell>)
    ensures Filled(cells) == Owned(cells, XPlayer) + Owned(cells, OPlayer)
  {
    if cells != [] {
      FilledSplit(cells[1..]);
    }
  }

  /** The count of occupied cells is the length exactly when every cell is occupied. */
  lemma {:induction false} FilledAll(cells: seq<Cell>)
    ensures Filled(cells) <= |cells|
    ensures Filled(cells) == |cells| <==> forall i :: 0 <= i < |cells| ==> cells[i].Some?
  {
    if cells != [] {
      FilledAll(cells[1..]);
      assert forall i :: 1 <= i < |cells| ==> cells[i] == cells[1..][i - 1];
    }
  }

  /** The count of occupied cells is zero exactly when every cell is empty. */
  lemma {:induction false} FilledNone(cells: seq<Cell>)
    ensures Filled(cells) == 0 <==> forall i :: 0 <= i < |cells| ==> cells[i].None?
  {
    if cells != [] {
      FilledNone(cells[1..]);
      assert forall i :: 1 <= i < |cells| ==> cells[i] == cells[1..][i - 1];
    }
  }

  /** The unit test of board.rs: out of range, then a first move, then the same cell again. */
  lemma PlaceScenario()
    ensures Place(Default(9), XPlayer, 10) == (Err(CoordinateNotExists), Default(9))
    ensures Place(Default(9), XPlayer, 0).0 == Ok(())
    ensures var b := Place(Default(9), XPlayer, 0).1;
      Place(b, OPlayer, 0) == (Err(CoordinateAlreadyFilled), b)
  {
  }
}
