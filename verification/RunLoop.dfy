/** The endless scan loop and its persistent cursor (RunLoop in
    scanner/orchestrator/protocol_runner.go). A stored cursor of 0 means that nothing was done, and
    block numbers are 64-bit: sums wrap around. */
module RunLoop {
  import opened ScanTypes

  newtype Uint64 = x: int | 0 <= x < 0x1_0000_0000_0000_0000

  /** What one turn of the loop meets: an error before the scan, or a latest block and how the scan
      and the saving of the cursor then go. */
  datatype Turn = Unavailable | Answered(latest: Uint64, scan: ScanResult)
  datatype ScanResult = Scanned | ScanError | SaveError

  /** A range whose scan completed and whose end was saved as the cursor. */
  datatype Range = Range(from: Uint64, to: Uint64, latest: Uint64)

  datatype State = State(cursor: Uint64, saved: seq<Range>)

  function Plus(a: Uint64, b: Uint64): Uint64 {
    ((a as int + b as int) % UINT64) as Uint64
  }

  function NextBlock(cursor: Uint64): Uint64 {
    if cursor > 0 then Plus(cursor, 1) else cursor
  }

  /** nextBlock + batchSize - 1, which may wrap around, capped by the latest block. */
  function ToBlock(next: Uint64, batch: Uint64, latest: Uint64): Uint64
    requires batch > 0
  {
    var to := Plus(next, batch - 1);
    if to > latest then latest else to
  }

  predicate Fails(s: State, turn: Turn) {
    turn.Unavailable? || (NextBlock(s.cursor) <= turn.latest && !turn.scan.Scanned?)
  }

  function Step(batch: Uint64, s: State, turn: Turn): State
    requires batch > 0
  {
    if turn.Unavailable? then s else
      var next := NextBlock(s.cursor);
      if next > turn.latest || !turn.scan.Scanned? then s else
        var to := ToBlock(next, batch, turn.latest);
        State(to, s.saved + [Range(next, to, turn.latest)])
  }

  function After(batch: Uint64, s: State, turns: seq<Turn>, k: nat): State
    requires batch > 0 && k <= |turns|
  {
    if k == 0 then s else Step(batch, After(batch, s, turns, k - 1), turns[k - 1])
  }

  /** The cursor as stored between restarts, with the ranges it was saved for. */
  class Cursor {
    var cursor: Uint64
    ghost var saved: seq<Range>

    constructor ()
      ensures View() == State(0, [])
    {
      cursor, saved := 0, [];
    }

    ghost function View(): State
      reads this
    {
      State(cursor, saved)
    }

    /** Runs until something fails or the turns are used up; a failed loop may be started again. */
    method RunLoop(batch: Uint64, turns: seq<Turn>) returns (n: nat, failed: bool)
      requires batch > 0
      modifies this
      ensures n <= |turns| && View() == After(batch, old(View()), turns, n)
      ensures failed ==> n > 0 && Fails(After(batch, old(View()), turns, n - 1), turns[n - 1])
      ensures !failed ==> n == |turns|
    {
      n, failed := 0, false;
      while n < |turns|
        invariant n <= |turns| && View() == After(batch, old(View()), turns, n) && !failed
      {
        var turn := turns[n];
        n := n + 1;
        if turn.Unavailable? {
          failed := true;
          return;
        }
        var nextBlock := cursor;
        if nextBlock > 0 {
          nextBlock := Plus(nextBlock, 1);
        }
        if nextBlock > turn.latest {
          continue;
        }
        var toBlock := Plus(nextBlock, batch - 1);
        if toBlock > turn.latest {
          toBlock := turn.latest;
        }
        if !turn.scan.Scanned? {
          failed := true;
          return;
        }
        cursor, saved := toBlock, saved + [Range(nextBlock, toBlock, turn.latest)];
      }
    }
  }

  // ---- when the arithmetic is sound ----

  /** The block to scan next, without wrapping around. */
  function TrueNext(cursor: Uint64): nat {
    if cursor == 0 then 0 else cursor as nat + 1
  }

  /** The next batch, not yet capped, ends at a block number that exists. */
  predicate BatchFits(batch: Uint64, cursor: Uint64) {
    TrueNext(cursor) + batch as int - 1 < UINT64
  }

  predicate Completes(s: State, turn: Turn) {
    turn.Answered? && NextBlock(s.cursor) <= turn.latest && turn.scan.Scanned?
  }

  /** The range a completed scan saves. */
  function SavedRange(batch: Uint64, cursor: Uint64, latest: Uint64): Range
    requires batch > 0
  {
    Range(NextBlock(cursor), ToBlock(NextBlock(cursor), batch, latest), latest)
  }

  /** The saved range starts right after the cursor and does not end before it starts, exactly when the
      batch fits. */
  lemma {:induction false} RangeFollowsExactly(batch: Uint64, cursor: Uint64, latest: Uint64)
    requires batch > 0 && NextBlock(cursor) <= latest
    ensures var r := SavedRange(batch, cursor, latest); BatchFits(batch, cursor) <==> r.from as int == TrueNext(cursor) && r.from <= r.to
    ensures
      BatchFits(batch, cursor) ==>
        var last := TrueNext(cursor) + batch as int - 1;
        SavedRange(batch, cursor, latest).to as int == if last > latest as int then latest as int else last
  {
  }

  /** With a huge batch the sum wraps around and the saved cursor moves backwards: from a fresh cursor,
      a chain of 6 and then 101 blocks. */
  lemma {:induction false} HugeBatchMovesBack()
    ensures
      var turns := [Answered(5, Scanned), Answered(100, Scanned)];
      && After(0xFFFF_FFFF_FFFF_FFFF, State(0, []), turns, 1) == State(5, [Range(0, 5, 5)])
      && After(0xFFFF_FFFF_FFFF_FFFF, State(0, []), turns, 2) == State(4, [Range(0, 5, 5), Range(6, 4, 100)])
  {
    var batch, turns := 0xFFFF_FFFF_FFFF_FFFF as Uint64, [Answered(5, Scanned), Answered(100, Scanned)];
    assert After(batch, State(0, []), turns, 0) == State(0, []);
    assert After(batch, State(0, []), turns, 1) == Step(batch, State(0, []), turns[0]);
    assert After(batch, State(0, []), turns, 2) == Step(batch, State(5, [Range(0, 5, 5)]), turns[1]);
  }

  // ---- what every run guarantees ----

  /** A turn that fails, or has nothing to scan yet, changes nothing; any other one saves its range and moves
      the cursor to its end. It fails exactly when there was no answer, or there was something to scan and
      the scan or the saving of the cursor went wrong. */
  lemma {:induction false} TurnExactly(batch: Uint64, s: State, turn: Turn)
    requires batch > 0
    ensures
      var next := Step(batch, s, turn);
      if turn.Unavailable? then Fails(s, turn) && next == s
      else if NextBlock(s.cursor) > turn.latest then !Fails(s, turn) && next == s
      else if turn.scan == ScanError || turn.scan == SaveError then Fails(s, turn) && next == s
      else
        && !Fails(s, turn) && |next.saved| == |s.saved| + 1 && next.saved[..|s.saved|] == s.saved
        && next.saved[|s.saved|].from == NextBlock(s.cursor) && next.saved[|s.saved|].to == next.cursor
        && next.saved[|s.saved|].latest == turn.latest && next.cursor <= turn.latest
  {
  }

  /** Every scan completed among the first k turns was of a batch that fits. */
  ghost predicate AllFit(batch: Uint64, turns: seq<Turn>, k: nat)
    requires batch > 0 && k <= |turns|
  {
    forall i :: 0 <= i < k && Completes(After(batch, State(0, []), turns, i), turns[i]) ==> BatchFits(batch, After(batch, State(0, []), turns, i).cursor)
  }

  /** Saved ranges follow one another: the next one starts after the last, or at 0 while the last ends at 0. */
  ghost predicate Chained(s: State) {
    && (s.saved == [] ==> s.cursor == 0)
    && (s.saved != [] ==> s.saved[0].from == 0 && s.cursor == s.saved[|s.saved| - 1].to)
    && (forall i :: 0 <= i < |s.saved| ==> s.saved[i].from <= s.saved[i].to <= s.saved[i].latest)
    && (forall i :: 0 <= i < |s.saved| - 1 ==> s.saved[i + 1].from as int == TrueNext(s.saved[i].to))
  }

  ghost predicate SeenIn(s: State, turns: seq<Turn>) {
    forall i :: 0 <= i < |s.saved| ==> exists turn :: turn in turns && turn.Answered? && turn.latest == s.saved[i].latest
  }

  lemma {:induction false} StepChains(batch: Uint64, s: State, turn: Turn)
    requires batch > 0 && Chained(s) && (Completes(s, turn) ==> BatchFits(batch, s.cursor))
    ensures Chained(Step(batch, s, turn))
  {
    if Completes(s, turn) {
      RangeFollowsExactly(batch, s.cursor, turn.latest);
    }
  }

  lemma {:induction false} RunsChain(batch: Uint64, turns: seq<Turn>, k: nat)
    requires batch > 0 && k <= |turns| && AllFit(batch, turns, k)
    ensures Chained(After(batch, State(0, []), turns, k))
  {
    if k > 0 {
      RunsChain(batch, turns, k - 1);
      StepChains(batch, After(batch, State(0, []), turns, k - 1), turns[k - 1]);
    }
  }

  lemma {:induction false} LatestSeen(batch: Uint64, turns: seq<Turn>, k: nat)
    requires batch > 0 && k <= |turns|
    ensures SeenIn(After(batch, State(0, []), turns, k), turns)
  {
    if k > 0 {
      LatestSeen(batch, turns, k - 1);
      assert turns[k - 1] in turns;
    }
  }

  ghost predicate Covers(saved: seq<Range>, block: int) {
    exists i :: 0 <= i < |saved| && saved[i].from as int <= block <= saved[i].to as int
  }

  lemma {:induction false} ChainCovers(s: State, n: nat, block: int)
    requires Chained(s) && 0 < n <= |s.saved| && 0 <= block <= s.saved[n - 1].to as int
    ensures Covers(s.saved, block)
  {
    if block < s.saved[n - 1].from as int {
      assert s.saved[n - 2 + 1] == s.saved[n - 1];
      ChainCovers(s, n - 1, block);
    }
  }

  lemma {:induction false} ChainApart(s: State, i: nat, j: nat)
    requires Chained(s) && i < j < |s.saved|
    ensures s.saved[i].to <= s.saved[j].to
    ensures s.saved[i].to > 0 ==> s.saved[i].to < s.saved[j].from
  {
    assert s.saved[j - 1 + 1] == s.saved[j];
    if i < j - 1 {
      ChainApart(s, i, j - 1);
    }
  }

  /** The saved ranges are what the cursor stands for: they cover every block from 0 to the cursor, none
      overlaps an earlier one that ended above 0, and each is in order and ends at or below a latest
      block that was seen. */
  ghost predicate Covering(s: State, turns: seq<Turn>) {
    && (s.saved != [] ==> forall block :: 0 <= block <= s.cursor as int ==> Covers(s.saved, block))
    && (s.saved == [] ==> s.cursor == 0)
    && (forall i, j :: 0 <= i < j < |s.saved| && s.saved[i].to > 0 ==> s.saved[i].to < s.saved[j].from)
    && (forall i :: 0 <= i < |s.saved| ==>
          s.saved[i].from <= s.saved[i].to && exists turn :: turn in turns && turn.Answered? && s.saved[i].to <= turn.latest == s.saved[i].latest)
  }

  lemma {:induction false} ChainIsCovering(s: State, turns: seq<Turn>)
    requires Chained(s) && SeenIn(s, turns)
    ensures Covering(s, turns)
  {
    if s.saved != [] {
      forall block | 0 <= block <= s.cursor as int ensures Covers(s.saved, block) {
        ChainCovers(s, |s.saved|, block);
      }
    }
    forall i, j | 0 <= i < j < |s.saved| && s.saved[i].to > 0 ensures s.saved[i].to < s.saved[j].from {
      ChainApart(s, i, j);
    }
    forall i | 0 <= i < |s.saved|
      ensures exists turn :: turn in turns && turn.Answered? && s.saved[i].to <= turn.latest == s.saved[i].latest
    {
      var turn :| turn in turns && turn.Answered? && turn.latest == s.saved[i].latest;
    }
  }

  /** What a scan saves stays saved, and the cursor is always where the last saved range ends. */
  lemma {:induction false} SavedStays(batch: Uint64, turns: seq<Turn>, i: nat, k: nat)
    requires batch > 0 && i <= k <= |turns|
    ensures After(batch, State(0, []), turns, i).saved <= After(batch, State(0, []), turns, k).saved
    ensures
      var s := After(batch, State(0, []), turns, i);
      if s.saved == [] then s.cursor == 0 else s.cursor == s.saved[|s.saved| - 1].to
    decreases k
  {
    if i < k {
      SavedStays(batch, turns, i, k - 1);
    } else if i > 0 {
      SavedStays(batch, turns, i - 1, i - 1);
    }
  }

  /** Over every run of the loop, with any latest-block answers, failures and restarts in between: the
      saved ranges stand for what the cursor says exactly when every completed scan was of a batch whose
      end does not wrap around. */
  lemma {:induction false} CursorCovers(batch: Uint64, turns: seq<Turn>)
    requires batch > 0
    ensures Covering(After(batch, State(0, []), turns, |turns|), turns) <==> AllFit(batch, turns, |turns|)
  {
    var s := After(batch, State(0, []), turns, |turns|);
    LatestSeen(batch, turns, |turns|);
    if AllFit(batch, turns, |turns|) {
      RunsChain(batch, turns, |turns|);
      ChainIsCovering(s, turns);
    }
    if Covering(s, turns) {
      forall i | 0 <= i < |turns| && Completes(After(batch, State(0, []), turns, i), turns[i])
        ensures BatchFits(batch, After(batch, State(0, []), turns, i).cursor)
      {
        WrapShows(batch, turns, i);
      }
    }
  }

  /** The range of a batch that does not fit shows for ever. */
  lemma {:induction false} WrapShows(batch: Uint64, turns: seq<Turn>, i: nat)
    requires batch > 0 && i < |turns| && Completes(After(batch, State(0, []), turns, i), turns[i])
    requires Covering(After(batch, State(0, []), turns, |turns|), turns)
    ensures BatchFits(batch, After(batch, State(0, []), turns, i).cursor)
  {
    var before, after, s := After(batch, State(0, []), turns, i), After(batch, State(0, []), turns, i + 1), After(batch, State(0, []), turns, |turns|);
    SavedStays(batch, turns, i, i);
    SavedStays(batch, turns, i + 1, |turns|);
    var r := SavedRange(batch, before.cursor, turns[i].latest);
    assert after == State(r.to, before.saved + [r]);
    assert s.saved[|before.saved|] == r;
    RangeFollowsExactly(batch, before.cursor, turns[i].latest);
    if before.saved != [] && before.cursor > 0 {
      assert s.saved[|before.saved| - 1].to == before.cursor;
      assert before.cursor < r.from;
    }
  }

  /** A completed scan moves the cursor forward exactly when its batch fits, and the cursor was positive
      before or the batch holds two blocks at least and a block after 0 exists. */
  lemma {:induction false} CursorGrowsExactly(batch: Uint64, s: State, turn: Turn)
    requires batch > 0 && Completes(s, turn)
    ensures Step(batch, s, turn).cursor > s.cursor <==> BatchFits(batch, s.cursor) && (s.cursor > 0 || (batch >= 2 && turn.latest >= 1))
  {
    RangeFollowsExactly(batch, s.cursor, turn.latest);
  }

  /** With single-block batches the loop scans block 0 for ever. */
  lemma {:induction false} BatchOfOneStays(turns: seq<Turn>, k: nat)
    requires k <= |turns|
    ensures
      var s := After(1, State(0, []), turns, k);
      s.cursor == 0 && forall i :: 0 <= i < |s.saved| ==> s.saved[i].from == s.saved[i].to == 0
  {
    if k > 0 {
      BatchOfOneStays(turns, k - 1);
    }
  }
}
