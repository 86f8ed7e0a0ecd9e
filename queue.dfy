/**
 * The turn queue of a Dou Dizhu round: a fixed circle of players, a cursor on
 * the seat whose turn it is, and a status per player saying whether that player
 * has passed ("skipped") in the current round of bidding or play.
 */
module TurnQueue {
  import opened Options

  datatype PlayerStatus = Active | Skipped

  /** A player counts as skipped only when the status map says so; a player without an entry is not skipped. */
  predicate IsSkipped<P(==)>(status: map<P, PlayerStatus>, p: P) {
    p in status && status[p] == Skipped
  }

  /** The seat after seat `i` in a circle of `n` seats: `(i + 1) % n`. */
  function Next(i: nat, n: nat): (r: nat)
    requires i < n
    ensures r < n
    ensures r == (i + 1) % n
  {
    if i + 1 == n then
      assert (i + 1) % n == n % n == 0;
      0
    else
      assert (i + 1) % n == i + 1;
      i + 1
  }

  /** The seat reached from seat `c` after `d` steps around a circle of `n` seats. */
  function Rot(c: nat, d: nat, n: nat): (r: nat)
    requires c < n
    ensures r < n
  {
    if d == 0 then c else Next(Rot(c, d - 1, n), n)
  }

  /** Before the end of the circle, `d` steps from `c` lead to seat `c + d`. */
  lemma {:induction false} RotLinear(c: nat, d: nat, n: nat)
    requires c + d < n
    ensures Rot(c, d, n) == c + d
  {
    if d > 0 {
      RotLinear(c, d - 1, n);
    }
  }

  /** Going past the last seat, `n - c + k` steps from `c` lead to seat `k`. */
  lemma {:induction false} RotWrap(c: nat, k: nat, n: nat)
    requires k < c < n
    ensures Rot(c, n - c + k, n) == k
  {
    if k == 0 {
      RotLinear(c, n - c - 1, n);
    } else {
      RotWrap(c, k - 1, n);
    }
  }

  /** Every seat is reached from `c` in fewer than `n` steps. */
  lemma RotReaches(c: nat, j: nat, n: nat) returns (d: nat)
    requires c < n && j < n
    ensures d < n && Rot(c, d, n) == j
  {
    if c <= j {
      d := j - c;
      RotLinear(c, d, n);
    } else {
      d := n - c + j;
      RotWrap(c, j, n);
    }
  }

  /**
   * The number of steps from seat `c`, counting from step `d`, to the first
   * seat whose player is not skipped; `|queue|` when every seat from step `d`
   * to the end of the circle is skipped.
   */
  function FirstActive<P(==)>(queue: seq<P>, status: map<P, PlayerStatus>, c: nat, d: nat): (r: nat)
    requires c < |queue| && d <= |queue|
    ensures d <= r <= |queue|
    ensures r < |queue| ==> !IsSkipped(status, queue[Rot(c, r, |queue|)])
    ensures forall e :: d <= e < r ==> IsSkipped(status, queue[Rot(c, e, |queue|)])
    decreases |queue| - d
  {
    if d == |queue| then d
    else if !IsSkipped(status, queue[Rot(c, d, |queue|)]) then d
    else FirstActive(queue, status, c, d + 1)
  }

  /** The circular scan finds a player before going all the way round exactly when some player is not skipped. */
  lemma SomeActiveIff<P>(queue: seq<P>, status: map<P, PlayerStatus>, c: nat)
    requires c < |queue|
    ensures FirstActive(queue, status, c, 0) < |queue|
        <==> exists i :: 0 <= i < |queue| && !IsSkipped(status, queue[i])
  {
    var off := FirstActive(queue, status, c, 0);
    if off < |queue| {
      assert !IsSkipped(status, queue[Rot(c, off, |queue|)]);
    }
    if i :| 0 <= i < |queue| && !IsSkipped(status, queue[i]) {
      var d := RotReaches(c, i, |queue|);
      assert d >= off;
    }
  }

  /** Whether every listed player is skipped (`players.every(...)`). */
  function AllSkipped<P(==)>(status: map<P, PlayerStatus>, players: seq<P>): (r: bool)
    ensures r <==> forall p :: p in players ==> IsSkipped(status, p)
  {
    if players == [] then true
    else IsSkipped(status, players[0]) && AllSkipped(status, players[1..])
  }

  class PlayerQueue<P(==,!new)> {
    var queue: seq<P>
    var currentPlayerIndex: nat
    var playerStatus: map<P, PlayerStatus>

    /** The cursor is a seat of the circle (0 for an empty circle) and exactly the queued players have a status. */
    ghost predicate Valid()
      reads this
    {
      (if |queue| == 0 then currentPlayerIndex == 0 else currentPlayerIndex < |queue|)
      && (forall p :: p in playerStatus <==> p in queue)
    }

    /** A queue over a copy of `players`, cursor on the first seat, everyone active. */
    constructor(players: seq<P>)
      ensures Valid()
      ensures queue == players && currentPlayerIndex == 0
      ensures forall p :: p in playerStatus ==> playerStatus[p] == Active
    {
      var status: map<P, PlayerStatus> := map[];
      for k := 0 to |players|
        invariant forall p :: p in status <==> p in players[..k]
        invariant forall p :: p in status ==> status[p] == Active
      {
        assert players[..k + 1] == players[..k] + [players[k]];
        status := status[players[k] := Active];
      }
      assert players[..|players|] == players;
      queue := players;
      currentPlayerIndex := 0;
      playerStatus := status;
    }

    /** The player in the cursor's seat, without moving the cursor; none for an empty queue. */
    function CurrentPlayer(): (r: Option<P>)
      reads this
      requires Valid()
      ensures r.Some? <==> |queue| > 0
      ensures r.Some? ==> r.value in queue && r.value == queue[currentPlayerIndex]
    {
      if |queue| == 0 then None else Some(queue[currentPlayerIndex])
    }

    /** Whether every player has passed this round. */
    function IsEmpty(): (r: bool)
      reads this
      requires Valid()
      ensures r <==> forall i :: 0 <= i < |queue| ==> IsSkipped(playerStatus, queue[i])
      ensures |queue| > 0 ==> (r <==> FirstActive(queue, playerStatus, currentPlayerIndex, 0) == |queue|)
    {
      assert |queue| > 0 ==> (AllSkipped(playerStatus, queue)
          <==> FirstActive(queue, playerStatus, currentPlayerIndex, 0) == |queue|) by {
        if |queue| > 0 {
          SomeActiveIff(queue, playerStatus, currentPlayerIndex);
        }
      }
      AllSkipped(playerStatus, queue)
    }

    /**
     * Returns the first player at or after the cursor, going round the circle,
     * who has not passed, and leaves the cursor on the seat after that player.
     * An empty queue is an error (`None`). When every player has passed the
     * source loops for ever, so callers must not ask then.
     */
    method GetNextPlayer() returns (r: Option<P>)
      requires Valid()
      requires |queue| == 0 || exists i :: 0 <= i < |queue| && !IsSkipped(playerStatus, queue[i])
      modifies this
      ensures Valid()
      ensures queue == old(queue) && playerStatus == old(playerStatus)
      ensures |queue| == 0 ==> r == None && currentPlayerIndex == old(currentPlayerIndex)
      ensures |queue| > 0 ==>
        var seat := Rot(old(currentPlayerIndex), FirstActive(queue, playerStatus, old(currentPlayerIndex), 0), |queue|);
        r == Some(queue[seat]) && currentPlayerIndex == Next(seat, |queue|)
      ensures r.Some? ==> r.value in queue && !IsSkipped(playerStatus, r.value)
      ensures old(CurrentPlayer()).Some? && !IsSkipped(playerStatus, old(CurrentPlayer()).value)
        ==> r == old(CurrentPlayer())
    {
      if |queue| == 0 {
        return None;
      }
      ghost var c, n := currentPlayerIndex, |queue|;
      SomeActiveIff(queue, playerStatus, c);
      ghost var off := FirstActive(queue, playerStatus, c, 0);
      ghost var d := 0;
      var current := queue[currentPlayerIndex];
      currentPlayerIndex := (currentPlayerIndex + 1) % |queue|;
      while IsSkipped(playerStatus, current)
        invariant queue == old(queue) && playerStatus == old(playerStatus)
        invariant 0 <= d <= off < n
        invariant current == queue[Rot(c, d, n)]
        invariant currentPlayerIndex == Next(Rot(c, d, n), n)
        decreases off - d
      {
        current := queue[currentPlayerIndex];
        currentPlayerIndex := (currentPlayerIndex + 1) % |queue|;
        d := d + 1;
      }
      return Some(current);
    }

    /** Marks the player in the cursor's seat as having passed; nothing else changes. */
    method SkipCurrentPlayer()
      requires Valid()
      modifies this
      ensures Valid()
      ensures queue == old(queue) && currentPlayerIndex == old(currentPlayerIndex)
      ensures |queue| > 0 ==> playerStatus == old(playerStatus)[queue[currentPlayerIndex] := Skipped]
      ensures |queue| == 0 ==> playerStatus == old(playerStatus)
    {
      var current := CurrentPlayer();
      if current.Some? {
        playerStatus := playerStatus[current.value := Skipped];
      }
    }

    /** Makes every player active again for the next round; the cursor stays where it is. */
    method ResetPlayerStatus()
      requires Valid()
      modifies this
      ensures Valid()
      ensures queue == old(queue) && currentPlayerIndex == old(currentPlayerIndex)
      ensures forall p :: p in playerStatus ==> playerStatus[p] == Active
      ensures !IsEmpty() <==> |queue| > 0
    {
      for k := 0 to |queue|
        invariant Valid()
        invariant queue == old(queue) && currentPlayerIndex == old(currentPlayerIndex)
        invariant forall p :: p in queue[..k] ==> playerStatus[p] == Active
      {
        assert queue[..k + 1] == queue[..k] + [queue[k]];
        playerStatus := playerStatus[queue[k] := Active];
      }
      assert queue[..|queue|] == queue;
      if |queue| > 0 {
        assert !IsSkipped(playerStatus, queue[0]);
      }
    }
  }
}
