/** Lists of moves of jobs side by side, from a storage on. */
module Executions {
  import opened Sequences
  import opened Storage
  import opened Protocol
  import opened Interleaving

  ghost predicate IsRunningFrom(actors: seq<Actor>, w: World, worlds: seq<World>, moves: seq<Move>) {
    IsExecution(actors, worlds, moves) && worlds[0] == w && EachKeepsToItsSteps(actors, worlds, moves)
  }

  function Moved(actors: seq<Actor>, w: World, move: Move): World {
    if move.who < |actors| then Apply(actors[move.who], w, move.step) else w
  }

  /** Where the moves lead from `w`. */
  function Worlds(actors: seq<Actor>, w: World, moves: seq<Move>): (r: seq<World>)
    ensures |r| == |moves| + 1 && r[0] == w
    decreases |moves|
  {
    if moves == [] then [w] else [w] + Worlds(actors, Moved(actors, w, moves[0]), moves[1..])
  }

  ghost predicate AreAllowedFrom(actors: seq<Actor>, w: World, moves: seq<Move>)
    decreases |moves|
  {
    moves == [] || (IsAllowed(actors, w, moves[0]) && AreAllowedFrom(actors, Moved(actors, w, moves[0]), moves[1..]))
  }

  ghost predicate IsAllowed(actors: seq<Actor>, w: World, move: Move) {
    move.who < |actors| && Allowed(actors[move.who], w, move.step)
  }

  lemma {:induction false} AllowedRun(actors: seq<Actor>, w: World, moves: seq<Move>)
    requires AreAllowedFrom(actors, w, moves)
    ensures forall i :: 0 <= i < |moves| ==> IsAllowed(actors, Worlds(actors, w, moves)[i], moves[i])
    ensures forall i :: 0 <= i < |moves| ==>
      Worlds(actors, w, moves)[i + 1] == Moved(actors, Worlds(actors, w, moves)[i], moves[i])
    decreases |moves|
  {
    if moves != [] {
      var w1 := Moved(actors, w, moves[0]);
      var rest := Worlds(actors, w1, moves[1..]);
      AllowedRun(actors, w1, moves[1..]);
      forall i | 0 <= i < |moves|
        ensures Worlds(actors, w, moves)[i + 1] == Moved(actors, Worlds(actors, w, moves)[i], moves[i])
        ensures IsAllowed(actors, Worlds(actors, w, moves)[i], moves[i])
      {
        if i > 0 {
          assert rest[i] == Moved(actors, rest[i - 1], moves[1..][i - 1])
            && IsAllowed(actors, rest[i - 1], moves[1..][i - 1]);
        }
      }
    }
  }

  lemma AllowedIsRunning(actors: seq<Actor>, w: World, moves: seq<Move>)
    requires AreAllowedFrom(actors, w, moves)
    ensures IsRunningFrom(actors, w, Worlds(actors, w, moves), moves)
  {
    AllowedRun(actors, w, moves);
    forall i | 0 <= i < |moves|
      ensures moves[i].who < |actors| && Allowed(actors[moves[i].who], Worlds(actors, w, moves)[i], moves[i].step)
      ensures Worlds(actors, w, moves)[i + 1] == Apply(actors[moves[i].who], Worlds(actors, w, moves)[i], moves[i].step)
    {
      assert IsAllowed(actors, Worlds(actors, w, moves)[i], moves[i]);
    }
  }

  function After(actors: seq<Actor>, w: World, moves: seq<Move>): World
    decreases |moves|
  {
    if moves == [] then w else After(actors, Moved(actors, w, moves[0]), moves[1..])
  }

  lemma TwoMoves(actors: seq<Actor>, w: World, x: Move, y: Move)
    requires IsAllowed(actors, w, x) && IsAllowed(actors, Moved(actors, w, x), y)
    ensures AreAllowedFrom(actors, w, [x, y]) && After(actors, w, [x, y]) == Moved(actors, Moved(actors, w, x), y)
  {
    assert [x, y][1..] == [y] && [y][1..] == [];
    assert AreAllowedFrom(actors, Moved(actors, w, x), [y]);
    assert After(actors, Moved(actors, w, x), [y]) == Moved(actors, Moved(actors, w, x), y);
  }

  lemma ThreeMoves(actors: seq<Actor>, w: World, x: Move, y: Move, z: Move)
    requires IsAllowed(actors, w, x) && IsAllowed(actors, Moved(actors, w, x), y)
    requires IsAllowed(actors, Moved(actors, Moved(actors, w, x), y), z)
    ensures AreAllowedFrom(actors, w, [x, y, z])
    ensures After(actors, w, [x, y, z]) == Moved(actors, Moved(actors, Moved(actors, w, x), y), z)
  {
    assert [x, y, z][1..] == [y, z];
    TwoMoves(actors, Moved(actors, w, x), y, z);
  }

  lemma {:induction false} InParts(actors: seq<Actor>, w: World, a: seq<Move>, b: seq<Move>)
    requires AreAllowedFrom(actors, w, a) && AreAllowedFrom(actors, After(actors, w, a), b)
    ensures AreAllowedFrom(actors, w, a + b) && After(actors, w, a + b) == After(actors, After(actors, w, a), b)
    decreases |a|
  {
    if a == [] {
      assert a + b == b;
    } else {
      HeadAndTail(a, b);
      InParts(actors, Moved(actors, w, a[0]), a[1..], b);
    }
  }

  lemma {:induction false} LastIsAfter(actors: seq<Actor>, w: World, moves: seq<Move>)
    ensures Worlds(actors, w, moves)[|moves|] == After(actors, w, moves)
    decreases |moves|
  {
    if moves != [] {
      LastIsAfter(actors, Moved(actors, w, moves[0]), moves[1..]);
    }
  }

  lemma OneMove(actors: seq<Actor>, w: World, move: Move)
    requires IsAllowed(actors, w, move)
    ensures AreAllowedFrom(actors, w, [move]) && After(actors, w, [move]) == Moved(actors, w, move)
  {
    assert [move][1..] == [];
    assert AreAllowedFrom(actors, Moved(actors, w, move), []);
  }

  lemma {:induction false} BeforeLast(actors: seq<Actor>, w: World, moves: seq<Move>, last: Move)
    ensures Worlds(actors, w, moves + [last])[|moves|] == After(actors, w, moves)
    decreases |moves|
  {
    if moves == [] {
      assert moves + [last] == [last];
    } else {
      HeadAndTail(moves, [last]);
      BeforeLast(actors, Moved(actors, w, moves[0]), moves[1..], last);
    }
  }
}
