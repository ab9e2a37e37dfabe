/** The controlling client's buffer of unacknowledged moves, as values:
    pruning against an acknowledged move (ClearAcknowledgedMoves,
    GoKartReplicationComponent.cpp:160-173) and in-order replay through the
    movement simulator (GoKartReplicationComponent.cpp:213-216). Both are
    defined by recursion on the last element, matching the loops that
    compute them front to back. */
module MoveBuffer {
  import opened KartTypes

  /** A move survives pruning when it is strictly later than the acknowledged one. */
  predicate Unacknowledged(m: Move, ack: Move)
  {
    m.TimeStamp > ack.TimeStamp
  }

  /** The moves of `moves` that the server has not yet acknowledged, in order. */
  function Pruned(moves: seq<Move>, ack: Move): (r: seq<Move>)
    ensures |r| <= |moves|
  {
    if moves == [] then []
    else
      var last := moves[|moves| - 1];
      Pruned(moves[..|moves| - 1], ack) + (if Unacknowledged(last, ack) then [last] else [])
  }

  /** Every move left after pruning was in the buffer and is strictly later than the acknowledged one. */
  lemma {:induction false} PrunedOnlyUnacknowledged(moves: seq<Move>, ack: Move, m: Move)
    requires m in Pruned(moves, ack)
    ensures m in moves && Unacknowledged(m, ack)
  {
    var init := moves[..|moves| - 1];
    assert moves == init + [moves[|moves| - 1]];
    if m in Pruned(init, ack) {
      PrunedOnlyUnacknowledged(init, ack, m);
    }
  }

  /** Pruning drops no move that is strictly later than the acknowledged one. */
  lemma {:induction false} PrunedKeepsUnacknowledged(moves: seq<Move>, ack: Move, m: Move)
    requires m in moves && Unacknowledged(m, ack)
    ensures m in Pruned(moves, ack)
  {
    var init := moves[..|moves| - 1];
    assert moves == init + [moves[|moves| - 1]];
    if m != moves[|moves| - 1] {
      assert m in init;
      PrunedKeepsUnacknowledged(init, ack, m);
    }
  }

  /** Membership after pruning, both directions: exactly the strictly later moves remain. */
  lemma PrunedMembership(moves: seq<Move>, ack: Move, m: Move)
    ensures m in Pruned(moves, ack) <==> m in moves && m.TimeStamp > ack.TimeStamp
  {
    if m in moves && m.TimeStamp > ack.TimeStamp {
      PrunedKeepsUnacknowledged(moves, ack, m);
    }
    if m in Pruned(moves, ack) {
      PrunedOnlyUnacknowledged(moves, ack, m);
    }
  }

  /** Pruning distributes over concatenation, so survivors keep their relative order. */
  lemma {:induction false} PrunedConcat(s: seq<Move>, t: seq<Move>, ack: Move)
    ensures Pruned(s + t, ack) == Pruned(s, ack) + Pruned(t, ack)
  {
    if t == [] {
      assert s + t == s;
    } else {
      var init := t[..|t| - 1];
      var last := t[|t| - 1];
      assert (s + t)[..|s + t| - 1] == s + init;
      assert (s + t)[|s + t| - 1] == last;
      PrunedConcat(s, init, ack);
    }
  }

  /** A buffer whose moves are all unacknowledged is left as it is. */
  lemma {:induction false} PrunedAllLater(moves: seq<Move>, ack: Move)
    requires forall i :: 0 <= i < |moves| ==> Unacknowledged(moves[i], ack)
    ensures Pruned(moves, ack) == moves
  {
    if moves != [] {
      var init := moves[..|moves| - 1];
      PrunedAllLater(init, ack);
      assert moves == init + [moves[|moves| - 1]];
    }
  }

  /** A buffer whose moves are all acknowledged is emptied. */
  lemma {:induction false} PrunedAllAcknowledged(moves: seq<Move>, ack: Move)
    requires forall i :: 0 <= i < |moves| ==> !Unacknowledged(moves[i], ack)
    ensures Pruned(moves, ack) == []
  {
    if moves != [] {
      PrunedAllAcknowledged(moves[..|moves| - 1], ack);
    }
  }

  /** Pruning twice against the same acknowledged move changes nothing the second time. */
  lemma PrunedIdempotent(moves: seq<Move>, ack: Move)
    ensures Pruned(Pruned(moves, ack), ack) == Pruned(moves, ack)
  {
    var r := Pruned(moves, ack);
    forall i | 0 <= i < |r| ensures Unacknowledged(r[i], ack) {
      PrunedOnlyUnacknowledged(moves, ack, r[i]);
    }
    PrunedAllLater(r, ack);
  }

  /** Two successive snapshots prune the buffer as the later acknowledgement alone would. */
  lemma {:induction false} PrunedTwice(moves: seq<Move>, a: Move, b: Move)
    ensures Pruned(Pruned(moves, a), b) == Pruned(moves, if a.TimeStamp >= b.TimeStamp then a else b)
  {
    if moves != [] {
      var init := moves[..|moves| - 1];
      var last := moves[|moves| - 1];
      PrunedTwice(init, a, b);
      PrunedConcat(Pruned(init, a), if Unacknowledged(last, a) then [last] else [], b);
      if Unacknowledged(last, a) {
        assert Pruned([last], b) == Pruned([], b) + (if Unacknowledged(last, b) then [last] else []);
      }
    }
  }

  /** Timestamps never decrease along the buffer. */
  predicate Sorted(moves: seq<Move>)
  {
    forall i, j :: 0 <= i <= j < |moves| ==> moves[i].TimeStamp <= moves[j].TimeStamp
  }

  /** Appending a move keeps the buffer sorted exactly when the buffer was
      sorted and the move is stamped no earlier than the last buffered move. */
  lemma AppendSorted(moves: seq<Move>, m: Move)
    ensures Sorted(moves + [m]) <==> Sorted(moves) && (moves == [] || moves[|moves| - 1].TimeStamp <= m.TimeStamp)
  {
    var s := moves + [m];
    if Sorted(s) {
      assert forall i :: 0 <= i < |moves| ==> s[i] == moves[i];
      if moves != [] {
        assert s[|moves| - 1].TimeStamp <= s[|moves|].TimeStamp;
      }
    }
    if Sorted(moves) && (moves == [] || moves[|moves| - 1].TimeStamp <= m.TimeStamp) {
      forall i, j | 0 <= i <= j < |s|
        ensures s[i].TimeStamp <= s[j].TimeStamp
      {
        if j < |moves| {
          assert s[i] == moves[i] && s[j] == moves[j];
        } else if i < |moves| {
          assert moves[i].TimeStamp <= moves[|moves| - 1].TimeStamp;
        }
      }
    }
  }

  /** How many moves of the buffer a snapshot acknowledges. */
  function AcknowledgedCount(moves: seq<Move>, ack: Move): (n: nat)
    ensures n <= |moves|
  {
    if moves == [] then 0
    else AcknowledgedCount(moves[..|moves| - 1], ack) + (if Unacknowledged(moves[|moves| - 1], ack) then 0 else 1)
  }

  /** In a buffer sorted by timestamp, pruning trims acknowledged moves from the
      front only: what survives is a suffix, and everything before it is acknowledged. */
  lemma {:induction false} PrunedSortedIsSuffix(moves: seq<Move>, ack: Move)
    requires Sorted(moves)
    ensures Pruned(moves, ack) == moves[AcknowledgedCount(moves, ack)..]
    ensures forall i :: 0 <= i < AcknowledgedCount(moves, ack) ==> !Unacknowledged(moves[i], ack)
  {
    if moves != [] {
      if Unacknowledged(moves[|moves| - 1], ack) {
        SortedPrefix(moves);
        PrunedSortedIsSuffix(moves[..|moves| - 1], ack);
        ExtendSuffix(moves[..|moves| - 1], moves[|moves| - 1], ack);
        assert moves[..|moves| - 1] + [moves[|moves| - 1]] == moves;
      } else {
        LastAcknowledged(moves, ack);
      }
    }
  }

  /** Dropping the last move keeps a buffer sorted. */
  lemma SortedPrefix(moves: seq<Move>)
    requires Sorted(moves) && moves != []
    ensures Sorted(moves[..|moves| - 1])
  {
    var init := moves[..|moves| - 1];
    forall i, j | 0 <= i <= j < |init| ensures init[i].TimeStamp <= init[j].TimeStamp {
      assert init[i] == moves[i] && init[j] == moves[j];
    }
  }

  /** An unacknowledged last move extends the surviving suffix of the rest. */
  lemma ExtendSuffix(init: seq<Move>, last: Move, ack: Move)
    requires Unacknowledged(last, ack)
    requires Pruned(init, ack) == init[AcknowledgedCount(init, ack)..]
    requires forall i :: 0 <= i < AcknowledgedCount(init, ack) ==> !Unacknowledged(init[i], ack)
    ensures Pruned(init + [last], ack) == (init + [last])[AcknowledgedCount(init + [last], ack)..]
    ensures forall i :: 0 <= i < AcknowledgedCount(init + [last], ack) ==> !Unacknowledged((init + [last])[i], ack)
  {
    var moves := init + [last];
    var k := AcknowledgedCount(init, ack);
    assert moves[..|moves| - 1] == init;
    assert AcknowledgedCount(moves, ack) == k;
    assert Pruned(moves, ack) == Pruned(init, ack) + [last];
    assert moves[k..] == init[k..] + [last];
    forall i | 0 <= i < k ensures !Unacknowledged(moves[i], ack) {
      assert moves[i] == init[i];
    }
  }

  /** In a sorted buffer whose last move is acknowledged, every move is. */
  lemma LastAcknowledged(moves: seq<Move>, ack: Move)
    requires Sorted(moves) && moves != [] && !Unacknowledged(moves[|moves| - 1], ack)
    ensures Pruned(moves, ack) == [] && AcknowledgedCount(moves, ack) == |moves|
    ensures forall i :: 0 <= i < |moves| ==> !Unacknowledged(moves[i], ack)
  {
    var n := |moves| - 1;
    forall i | 0 <= i < |moves| ensures !Unacknowledged(moves[i], ack) {
      assert moves[i].TimeStamp <= moves[n].TimeStamp;
    }
    PrunedAllAcknowledged(moves, ack);
    AllAcknowledgedCount(moves, ack);
  }

  /** When every move is acknowledged, the count is the whole buffer. */
  lemma {:induction false} AllAcknowledgedCount(moves: seq<Move>, ack: Move)
    requires forall i :: 0 <= i < |moves| ==> !Unacknowledged(moves[i], ack)
    ensures AcknowledgedCount(moves, ack) == |moves|
  {
    if moves != [] {
      AllAcknowledgedCount(moves[..|moves| - 1], ack);
    }
  }

  /** Pruning keeps a sorted buffer sorted. */
  lemma PrunedSorted(moves: seq<Move>, ack: Move)
    requires Sorted(moves)
    ensures Sorted(Pruned(moves, ack))
  {
    PrunedSortedIsSuffix(moves, ack);
  }

  /** The range-for over the buffer: the first move is executed on `k`, and
      each further move on the result of the ones before it. */
  function ExecuteInOrder(simulate: Simulator, k: Kinematics, moves: seq<Move>): Kinematics
    decreases |moves|
  {
    if moves == [] then k else ExecuteInOrder(simulate, simulate(k, moves[0]), moves[1..])
  }

  /** Executing one more move at the end is executing it on the result of the others. */
  lemma {:induction false} ExecuteInOrderSnoc(simulate: Simulator, k: Kinematics, init: seq<Move>, last: Move)
    ensures ExecuteInOrder(simulate, k, init + [last]) == simulate(ExecuteInOrder(simulate, k, init), last)
    decreases |init|
  {
    if init == [] {
      assert [] + [last] == [last];
      assert [last][1..] == [];
    } else {
      assert (init + [last])[1..] == init[1..] + [last];
      ExecuteInOrderSnoc(simulate, simulate(k, init[0]), init[1..], last);
    }
  }

  /** The state the simulator reaches from `k` by executing `moves`, built from
      the last move back; it is the state the in-order execution reaches. */
  function Replay(simulate: Simulator, k: Kinematics, moves: seq<Move>): (r: Kinematics)
    ensures r == ExecuteInOrder(simulate, k, moves)
  {
    if moves == [] then k
    else
      var init := moves[..|moves| - 1];
      ExecuteInOrderSnoc(simulate, k, init, moves[|moves| - 1]);
      assert init + [moves[|moves| - 1]] == moves;
      simulate(Replay(simulate, k, init), moves[|moves| - 1])
  }

  /** Replaying two stretches of moves one after the other is replaying their concatenation. */
  lemma {:induction false} ReplayConcat(simulate: Simulator, k: Kinematics, s: seq<Move>, t: seq<Move>)
    ensures Replay(simulate, k, s + t) == Replay(simulate, Replay(simulate, k, s), t)
  {
    if t == [] {
      assert s + t == s;
    } else {
      var init := t[..|t| - 1];
      assert (s + t)[..|s + t| - 1] == s + init;
      assert (s + t)[|s + t| - 1] == t[|t| - 1];
      ReplayConcat(simulate, k, s, init);
    }
  }

  /** Reconciliation converges: if the client predicted by executing its sorted
      buffer from `start`, and the server's snapshot is what the same
      deterministic simulator reaches from `start` through the acknowledged
      moves, then snapping to the snapshot and replaying the pruned buffer
      reproduces the client's prediction. */
  lemma ReconciliationConverges(simulate: Simulator, start: Kinematics, moves: seq<Move>, ack: Move, snapshot: Kinematics)
    requires Sorted(moves)
    requires snapshot == Replay(simulate, start, moves[..AcknowledgedCount(moves, ack)])
    ensures Replay(simulate, snapshot, Pruned(moves, ack)) == Replay(simulate, start, moves)
  {
    var n := AcknowledgedCount(moves, ack);
    PrunedSortedIsSuffix(moves, ack);
    ReplayConcat(simulate, start, moves[..n], moves[n..]);
    SplitAt(moves, n);
  }

  lemma SplitAt(s: seq<Move>, n: nat)
    requires n <= |s|
    ensures s[..n] + s[n..] == s
  {
  }

  /** Three moves stamped 0.0, 0.1 and 0.2 and an acknowledgement of the move at
      0.1 leave only the move at 0.2. */
  lemma PruneThreeMoves(m0: Move, m1: Move, m2: Move)
    requires m0.TimeStamp == 0.0 && m1.TimeStamp == 0.1 && m2.TimeStamp == 0.2
    ensures Pruned([m0, m1, m2], m1) == [m2]
  {
    assert [m0, m1, m2][..2] == [m0, m1];
    assert [m0, m1][..1] == [m0];
    assert [m0][..0] == [];
    assert Pruned([m0], m1) == [];
    assert Pruned([m0, m1], m1) == [];
  }
}
