/**
 * The `space` game of extensions/games.py: an 8x8 board of emoji pixels with a
 * wall border, on which up to four players, one colour each, step around by
 * reacting with arrows. The board is an array2 changed in place and each
 * player an object whose position changes in place; the random placement
 * draws are a parameter.
 */
module Games {
  import opened Wrappers

  type Pixel = string
  type UserId = int

  const Wall: Pixel := "🟧"
  const Empty: Pixel := "⬛"
  const PlayerColors: seq<Pixel> := ["🟦", "🟩", "🟪", "🟥"]
  const NewPlayer := "🆕"

  /** The board is Size x Size. */
  const Size := 8

  predicate OnBorder(row: int, col: int)
  {
    row == 0 || row == Size - 1 || col == 0 || col == Size - 1
  }

  predicate Inside(row: int, col: int)
  {
    1 <= row < Size - 1 && 1 <= col < Size - 1
  }

  function Abs(n: int): (m: nat)
    ensures m == n || m == -n
  {
    if n < 0 then -n else n
  }

  /** The moves dictionary: an arrow reaction to its (dx, dy) step, y growing downwards. */
  function Step(emoji: string): (s: Option<(int, int)>)
    ensures s.Some? ==> Abs(s.value.0) + Abs(s.value.1) == 1
    ensures s.Some? <==> emoji in {"⬆️", "➡️", "⬇️", "⬅️"}
  {
    if emoji == "⬆️" then Some((0, -1))
    else if emoji == "➡️" then Some((1, 0))
    else if emoji == "⬇️" then Some((0, 1))
    else if emoji == "⬅️" then Some((-1, 0))
    else None
  }

  /** How a newcomer's Player() ends. */
  datatype JoinOutcome =
    | Joined      // an open cell was drawn and a colour was free
    | Crashed     // an open cell was drawn, but player_colors[4] raises IndexError and the game ends
    | NoOpenCell  // the given draws ran out before an open cell was drawn

  /** The four colours differ from each other, from the wall and from an empty cell. */
  lemma ColorsDistinct()
    ensures forall i, j :: 0 <= i < j < |PlayerColors| ==> PlayerColors[i] != PlayerColors[j]
    ensures Wall !in PlayerColors && Empty !in PlayerColors
  {
  }

  class Player {
    var x: int
    var y: int
    const color: Pixel
    /** The board the player stands on (the closure's `field`). */
    const field: array2<Pixel>

    /** Player.__init__ after the open cell and the colour are chosen: paint the cell. */
    constructor (field: array2<Pixel>, x: int, y: int, color: Pixel)
      requires 0 <= y < field.Length0 && 0 <= x < field.Length1
      modifies field
      ensures this.field == field && this.x == x && this.y == y && this.color == color
      ensures field[y, x] == color
      ensures forall i, j :: 0 <= i < field.Length0 && 0 <= j < field.Length1 && (i, j) != (y, x) ==>
        field[i, j] == old(field[i, j])
    {
      this.field, this.x, this.y, this.color := field, x, y, color;
      new;
      field[y, x] := color;
    }

    /** move_to: blank the old cell, then paint the new one. */
    method MoveTo(nx: int, ny: int)
      requires 0 <= y < field.Length0 && 0 <= x < field.Length1
      requires 0 <= ny < field.Length0 && 0 <= nx < field.Length1
      modifies this, field
      ensures x == nx && y == ny
      ensures field[ny, nx] == color
      ensures (old(y), old(x)) != (ny, nx) ==> field[old(y), old(x)] == Empty
      ensures forall i, j ::
        (0 <= i < field.Length0 && 0 <= j < field.Length1 && (i, j) != (old(y), old(x)) && (i, j) != (ny, nx))
        ==> field[i, j] == old(field[i, j])
    {
      field[y, x] := Empty;
      x, y := nx, ny;
      field[y, x] := color;
    }

    /**
     * move: only a unit step onto an empty cell is taken; anything else
     * reports false and changes nothing.
     */
    method Move(dx: int, dy: int) returns (moved: bool)
      requires field.Length0 == Size && field.Length1 == Size && Inside(y, x)
      modifies this, field
      ensures moved <==> Abs(dx) + Abs(dy) == 1 && old(field[y + dy, x + dx]) == Empty
      ensures !moved ==> x == old(x) && y == old(y) && unchanged(field)
      ensures moved ==>
        x == old(x) + dx && y == old(y) + dy
        && field[y, x] == color && field[old(y), old(x)] == Empty
      ensures forall i, j ::
        (0 <= i < Size && 0 <= j < Size && (i, j) != (old(y), old(x)) && (i, j) != (y, x))
        ==> field[i, j] == old(field[i, j])
    {
      if Abs(dx) + Abs(dy) != 1 {
        return false;
      }
      if field[y + dy, x + dx] != Empty {
        return false;
      }
      MoveTo(x + dx, y + dy);
      moved := true;
    }
  }

  /** One running game of `space`: its board and its players by user. */
  class Space {
    const field: array2<Pixel>
    var players: map<UserId, Player>

    ghost function Pieces(): set<Player>
      reads this
    {
      set u | u in players :: players[u]
    }

    /** The border is all wall. */
    ghost predicate Walled()
      reads this, field
    {
      field.Length0 == Size && field.Length1 == Size
      && forall i, j :: 0 <= i < Size && 0 <= j < Size && OnBorder(i, j) ==> field[i, j] == Wall
    }

    /**
     * Every player stands inside the walls on a cell painted its colour, the
     * colours come from the first |players| of the palette and no two players
     * share one.
     */
    ghost predicate Valid()
      reads this, field, Pieces()
    {
      Walled()
      && |players| <= |PlayerColors|
      && (forall u :: u in players ==>
            players[u].field == field && Inside(players[u].y, players[u].x)
            && field[players[u].y, players[u].x] == players[u].color
            && players[u].color in PlayerColors[..|players|])
      && (forall u, v :: u in players && v in players && u != v ==> players[u].color != players[v].color)
    }

    /**
     * The starting board: walls around an empty 6x6 interior, no players yet.
     * `space` then adds its author as the first player, which is a Join on
     * this board.
     */
    constructor ()
      ensures Valid() && players == map[]
      ensures fresh(field)
      ensures forall i, j :: 0 <= i < Size && 0 <= j < Size ==>
        field[i, j] == if OnBorder(i, j) then Wall else Empty
    {
      field := new Pixel[Size, Size]((i, j) => if OnBorder(i, j) then Wall else Empty);
      players := map[];
    }

    /**
     * The placement loop of Player.__init__: starting at the corner, draw
     * (x, y) pairs, each coordinate in 1..7, until one lands on an empty cell.
     * Found is false when the given draws run out first.
     */
    method FindOpen(draws: seq<(int, int)>) returns (found: bool, x: int, y: int)
      requires Walled()
      requires forall k :: 0 <= k < |draws| ==> 1 <= draws[k].0 <= Size - 1 && 1 <= draws[k].1 <= Size - 1
      ensures found ==> Inside(y, x) && field[y, x] == Empty
      ensures found ==>
        exists k :: (0 <= k < |draws| && draws[k] == (x, y)
                     && forall k' :: 0 <= k' < k ==> field[draws[k'].1, draws[k'].0] != Empty)
      ensures !found ==> forall k :: 0 <= k < |draws| ==> field[draws[k].1, draws[k].0] != Empty
    {
      x, y := 0, 0;
      var k := 0;
      while field[y, x] != Empty && k < |draws|
        invariant 0 <= k <= |draws|
        invariant 0 <= x < Size && 0 <= y < Size
        invariant k == 0 ==> (x, y) == (0, 0)
        invariant k > 0 ==> (x, y) == draws[k - 1]
        invariant forall k' :: 0 <= k' < k - 1 ==> field[draws[k'].1, draws[k'].0] != Empty
        decreases |draws| - k
      {
        x, y := draws[k].0, draws[k].1;
        k := k + 1;
      }
      found := field[y, x] == Empty;
      if found {
        assert k > 0;
      }
    }

    /**
     * A user joins: an open cell is drawn, then the next colour of the
     * palette is taken. With four players already there is none: the lookup
     * raises before anything is painted, and the exception ends the game.
     */
    method Join(user: UserId, draws: seq<(int, int)>) returns (r: JoinOutcome)
      requires Valid() && user !in players
      requires forall k :: 0 <= k < |draws| ==> 1 <= draws[k].0 <= Size - 1 && 1 <= draws[k].1 <= Size - 1
      modifies this, field
      ensures Valid()
      ensures r == NoOpenCell <==> forall k :: 0 <= k < |draws| ==> old(field[draws[k].1, draws[k].0]) != Empty
      ensures r == Crashed <==>
        old(|players|) == |PlayerColors| && exists k :: 0 <= k < |draws| && old(field[draws[k].1, draws[k].0]) == Empty
      ensures r == Joined <==>
        old(|players|) < |PlayerColors| && exists k :: 0 <= k < |draws| && old(field[draws[k].1, draws[k].0]) == Empty
      ensures r != Joined ==> players == old(players) && unchanged(field)
      ensures r == Joined ==>
        user in players && players == old(players)[user := players[user]]
        && fresh(players[user]) && players[user].color == PlayerColors[old(|players|)]
      ensures r == Joined ==>
        var (px, py) := (players[user].x, players[user].y);
        && Inside(py, px) && old(field[py, px]) == Empty
        && (exists k :: 0 <= k < |draws| && draws[k] == (px, py)
                        && forall k' :: 0 <= k' < k ==> old(field[draws[k'].1, draws[k'].0]) != Empty)
        && forall i, j :: (0 <= i < Size && 0 <= j < Size && (i, j) != (py, px)) ==> field[i, j] == old(field[i, j])
    {
      var found, x, y := FindOpen(draws);
      if !found {
        return NoOpenCell;
      }
      if |players| >= |PlayerColors| {
        return Crashed;
      }
      Admit(user, x, y);
      r := Joined;
    }

    /** The end of Player.__init__ and the insertion into players: paint the next colour at (x, y). */
    method Admit(user: UserId, x: int, y: int)
      requires Valid() && user !in players && |players| < |PlayerColors|
      requires Inside(y, x) && field[y, x] == Empty
      modifies this, field
      ensures Valid()
      ensures user in players && players == old(players)[user := players[user]]
      ensures fresh(players[user]) && players[user].color == PlayerColors[old(|players|)]
      ensures players[user].x == x && players[user].y == y
      ensures forall i, j :: (0 <= i < Size && 0 <= j < Size && (i, j) != (y, x)) ==> field[i, j] == old(field[i, j])
    {
      ColorsDistinct();
      var color := PlayerColors[|players|];
      ghost var before := players;
      var p := new Player(field, x, y, color);
      players := players[user := p];
      assert Walled() by {
        assert !OnBorder(y, x);
      }
      forall u | u in players
        ensures players[u].field == field && Inside(players[u].y, players[u].x)
        ensures field[players[u].y, players[u].x] == players[u].color
        ensures players[u].color in PlayerColors[..|players|]
      {
        if u != user {
          var q := before[u];
          assert old(field[q.y, q.x]) == q.color;
          assert (q.y, q.x) != (y, x);
          assert q.color in PlayerColors[..|before|];
        }
      }
      forall u, v | u in players && v in players && u != v
        ensures players[u].color != players[v].color
      {
        if u == user {
          assert players[v].color in PlayerColors[..|before|];
        } else if v == user {
          assert players[u].color in PlayerColors[..|before|];
        }
      }
    }

    /**
     * One turn of the reaction loop: a player's arrow moves that player; any
     * other reaction of a player does nothing; a newcomer joins with the
     * new-player reaction and nothing else. Ended reports that a fifth
     * player's colour lookup raised, which leaves the loop and ends the game.
     */
    method React(user: UserId, emoji: string, draws: seq<(int, int)>) returns (ended: bool)
      requires Valid()
      requires forall k :: 0 <= k < |draws| ==> 1 <= draws[k].0 <= Size - 1 && 1 <= draws[k].1 <= Size - 1
      modifies this, field, Pieces()
      ensures Valid()
      ensures ended <==>
        && user !in old(players) && emoji == NewPlayer && old(|players|) == |PlayerColors|
        && exists k :: 0 <= k < |draws| && old(field[draws[k].1, draws[k].0]) == Empty
      ensures ended ==> players == old(players) && unchanged(field)
      ensures user in old(players) ==> players == old(players)
      ensures user in old(players) && Step(emoji).None? ==> unchanged(field) && unchanged(old(players)[user])
      ensures user in old(players) && Step(emoji).Some? ==>
        var p := old(players)[user];
        var (dx, dy) := Step(emoji).value;
        if old(field[p.y + dy, p.x + dx]) == Empty then
          && p.x == old(p.x) + dx && p.y == old(p.y) + dy
          && field[p.y, p.x] == p.color && field[old(p.y), old(p.x)] == Empty
          && forall i, j ::
               (0 <= i < Size && 0 <= j < Size && (i, j) != (old(p.y), old(p.x)) && (i, j) != (p.y, p.x))
               ==> field[i, j] == old(field[i, j])
        else unchanged(field) && p.x == old(p.x) && p.y == old(p.y)
      ensures user !in old(players) && emoji == NewPlayer && !ended ==>
        (user in players <==>
           old(|players|) < |PlayerColors| && exists k :: 0 <= k < |draws| && old(field[draws[k].1, draws[k].0]) == Empty)
      ensures user !in old(players) && emoji == NewPlayer && user !in players ==> players == old(players) && unchanged(field)
      ensures user !in old(players) && emoji == NewPlayer && user in players ==>
        var (px, py) := (players[user].x, players[user].y);
        && players == old(players)[user := players[user]]
        && fresh(players[user]) && players[user].color == PlayerColors[old(|players|)]
        && Inside(py, px) && old(field[py, px]) == Empty
        && (exists k :: 0 <= k < |draws| && draws[k] == (px, py)
                        && forall k' :: 0 <= k' < k ==> old(field[draws[k'].1, draws[k'].0]) != Empty)
        && forall i, j :: (0 <= i < Size && 0 <= j < Size && (i, j) != (py, px)) ==> field[i, j] == old(field[i, j])
      ensures user !in old(players) && emoji != NewPlayer ==> players == old(players) && unchanged(field)
      ensures forall u :: u in old(players) && u != user ==> unchanged(old(players)[u])
      ensures old(players).Keys <= players.Keys
    {
      ended := false;
      if user in players {
        var step := Step(emoji);
        if step.Some? {
          var moved := MovePlayer(user, step.value.0, step.value.1);
        }
      } else if emoji == NewPlayer {
        var outcome := Join(user, draws);
        ended := outcome == Crashed;
      }
    }

    /** players[user].move(dx, dy), keeping the board valid. */
    method MovePlayer(user: UserId, dx: int, dy: int) returns (moved: bool)
      requires Valid() && user in players
      modifies field, players[user]
      ensures Valid()
      ensures moved <==> Abs(dx) + Abs(dy) == 1 && old(field[players[user].y + dy, players[user].x + dx]) == Empty
      ensures moved ==> players[user].x == old(players[user].x) + dx && players[user].y == old(players[user].y) + dy
      ensures moved ==>
        field[players[user].y, players[user].x] == players[user].color
        && field[old(players[user].y), old(players[user].x)] == Empty
      ensures !moved ==>
        unchanged(field) && players[user].x == old(players[user].x) && players[user].y == old(players[user].y)
      ensures forall i, j ::
        (0 <= i < Size && 0 <= j < Size && (i, j) != (old(players[user].y), old(players[user].x))
         && (i, j) != (players[user].y, players[user].x))
        ==> field[i, j] == old(field[i, j])
    {
      var p := players[user];
      ColorsDistinct();
      moved := p.Move(dx, dy);
      if moved {
        assert Inside(p.y, p.x) by {
          assert !OnBorder(p.y, p.x);
        }
        forall u | u in players && u != user
          ensures field[players[u].y, players[u].x] == players[u].color
        {
          var q := players[u];
          assert q.color != p.color;
          assert (q.y, q.x) != (p.y, p.x);
          assert (q.y, q.x) != (old(p.y), old(p.x));
        }
      }
    }
  }
}
