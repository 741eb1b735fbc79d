/**
 * The post-game analysis pipeline: one queue item per position (the start
 * position, then the position after each move), drained strictly in order,
 * terminal positions resolved without the engine, every other position sent
 * to the engine, whose `info … score` lines are turned to White's point of
 * view and whose `bestmove` line commits the result into the item's slot.
 *
 * The rules library is replaced by what it reports about each position
 * (`Position`); the engine by the lines it answers (`HandleAnalysisMessage`
 * is called once per line); the lines sent to the engine are recorded in
 * `sent`.
 */
module Pipeline {
  import opened JsText
  import opened Uci
  import opened Evaluation

  /** What the rules library reports about a position. */
  datatype Position = Position(fen: string, blackToMove: bool, checkmate: bool, draw: bool)

  /** The position a fresh game of the rules library starts from. */
  const StartFen: string := "rnbqkbnr/pppppppp/8/8/8/8/PPPPPPPP/RNBQKBNR w KQkq - 0 1"

  /** A queue item: the position, the index of the move that led to it (-1 for
      the start position) and, for terminal positions, the result to record
      without asking the engine. `blackToMove` is the side to move read from the
      FEN's active-colour field. */
  datatype Item = Item(fen: string, blackToMove: bool, moveIndex: int, manualEval: Option<Eval>)

  /** The item's slot in the results: one past its move index. */
  function Slot(item: Item): nat
    requires item.moveIndex >= -1
  {
    item.moveIndex + 1
  }

  predicate ItemsIndexed(q: seq<Item>)
  {
    forall i :: 0 <= i < |q| ==> q[i].moveIndex >= -1
  }

  /** Checkmate: a mate score of -1 with White to move (White is mated), +1 with
      Black to move; otherwise a draw: 0 centipawns; otherwise nothing. */
  function ManualEval(p: Position): Option<Eval>
  {
    if p.checkmate then Some(Eval(Mate, Num(if p.blackToMove then 1 else -1), None))
    else if p.draw then Some(Eval(Cp, Num(0), None))
    else None
  }

  /** A mating move is rated Best whatever the score before it (short of a
      mate already on the board): the recorded mate of -1 or +1 is the most
      extreme score a move can reach. */
  lemma MatingMoveIsBest(before: Eval, p: Position)
    requires p.checkmate
    requires PseudoCentipawns(before).Num? && -9999 <= PseudoCentipawns(before).n <= 9999
    ensures ManualEval(p).Some?
    ensures Classify(MoveLoss(before, ManualEval(p).value, p.blackToMove)) == Best
  {
  }

  function StartItem(): Item
  {
    Item(StartFen, false, -1, None)
  }

  function ItemAfter(after: seq<Position>, i: nat): Item
    requires i < |after|
  {
    Item(after[i].fen, after[i].blackToMove, i, ManualEval(after[i]))
  }

  /** The queue `analyzeGame` builds from the positions after each move. */
  function QueueFor(after: seq<Position>): (q: seq<Item>)
  {
    [StartItem()] + seq(|after|, i requires 0 <= i < |after| => ItemAfter(after, i))
  }

  /** N moves give N + 1 items: the start position with move index -1 and no
      result, then item i + 1 with move index i; a mated side to move gives a
      mate score of -1 for White and +1 for Black, a draw 0 centipawns, any
      other position no result. */
  lemma QueueForShape(after: seq<Position>)
    ensures var q := QueueFor(after);
      && |q| == |after| + 1
      && ItemsIndexed(q)
      && q[0].moveIndex == -1 && q[0].manualEval.None? && q[0].fen == StartFen && !q[0].blackToMove
      && (forall i :: 0 <= i < |after| ==>
            && q[i + 1].moveIndex == i
            && q[i + 1].fen == after[i].fen
            && Slot(q[i + 1]) == i + 1
            && (after[i].checkmate ==> q[i + 1].manualEval == Some(Eval(Mate, Num(if after[i].blackToMove then 1 else -1), None)))
            && (!after[i].checkmate && after[i].draw ==> q[i + 1].manualEval == Some(Eval(Cp, Num(0), None)))
            && (!after[i].checkmate && !after[i].draw ==> q[i + 1].manualEval.None?))
  {
  }

  // ---------------------------------------------------------------------------
  // Draining the queue

  /** What one call of `processAnalysisQueue` (with the calls it schedules for
      itself) does: items with a known result are written to their slot, items
      that need the engine are dropped while there is no engine, and the first
      item that needs a running engine is taken out and becomes the query. */
  datatype DrainResult = DrainResult(rest: seq<Item>, results: seq<Option<Eval>>, query: Option<Item>)

  /** How many items the drain took out of the queue without asking the engine. */
  function Resolved(q: seq<Item>, d: DrainResult): int
  {
    |q| - |d.rest| - (if d.query.Some? then 1 else 0)
  }

  function Drain(q: seq<Item>, results: seq<Option<Eval>>, engineLoaded: bool): DrainResult
    requires ItemsIndexed(q)
    decreases |q|
  {
    if q == [] then DrainResult([], results, None)
    else if q[0].manualEval.Some? then Drain(q[1..], JsStore(results, Slot(q[0]), q[0].manualEval), engineLoaded)
    else if !engineLoaded then Drain(q[1..], results, engineLoaded)
    else DrainResult(q[1..], results, Some(q[0]))
  }

  /** The queue is served first-in first-out: what is left is a suffix of it;
      the drain stops at an empty queue or right after the first item that
      needs the engine while one is loaded, and it is that item which is
      queried; everything taken out before it had a known result or met no
      engine. */
  lemma {:induction false} DrainIsFifo(q: seq<Item>, results: seq<Option<Eval>>, engineLoaded: bool)
    requires ItemsIndexed(q)
    ensures var d := Drain(q, results, engineLoaded);
      && |d.rest| <= |q| && d.rest == q[|q| - |d.rest|..]
      && (d.query.None? ==> d.rest == [])
      && (d.query.Some? ==>
            engineLoaded && |d.rest| < |q| && d.query.value == q[|q| - |d.rest| - 1] && d.query.value.manualEval.None?)
      && (forall j :: 0 <= j < Resolved(q, d) ==> q[j].manualEval.Some? || !engineLoaded)
    decreases |q|
  {
    if q != [] && (q[0].manualEval.Some? || !engineLoaded) {
      var next := if q[0].manualEval.Some? then JsStore(results, Slot(q[0]), q[0].manualEval) else results;
      DrainIsFifo(q[1..], next, engineLoaded);
      var d := Drain(q, results, engineLoaded);
      assert d == Drain(q[1..], next, engineLoaded);
      assert q[1..][|q[1..]| - |d.rest|..] == q[|q| - |d.rest|..];
      forall j | 0 <= j < Resolved(q, d) ensures q[j].manualEval.Some? || !engineLoaded {
        if j > 0 {
          assert q[j] == q[1..][j - 1];
        }
      }
    }
  }

  /** No slot changes but the slot of a resolved item with a known result, and
      that slot then holds the result of such an item. */
  lemma {:induction false} DrainWritesOnlyResolved(q: seq<Item>, results: seq<Option<Eval>>, engineLoaded: bool, s: int)
    requires ItemsIndexed(q)
    ensures var d := Drain(q, results, engineLoaded);
      JsGet(d.results, s) != JsGet(results, s) ==>
        exists j :: 0 <= j < Resolved(q, d) && q[j].manualEval.Some? && Slot(q[j]) == s && JsGet(d.results, s) == q[j].manualEval
    decreases |q|
  {
    if q != [] && (q[0].manualEval.Some? || !engineLoaded) {
      var next := if q[0].manualEval.Some? then JsStore(results, Slot(q[0]), q[0].manualEval) else results;
      DrainWritesOnlyResolved(q[1..], next, engineLoaded, s);
      DrainIsFifo(q[1..], next, engineLoaded);
      var d := Drain(q, results, engineLoaded);
      assert d == Drain(q[1..], next, engineLoaded);
      assert Resolved(q, d) == Resolved(q[1..], d) + 1;
      if JsGet(d.results, s) != JsGet(results, s) {
        if JsGet(d.results, s) != JsGet(next, s) {
          var j :| 0 <= j < Resolved(q[1..], d) && q[1..][j].manualEval.Some? && Slot(q[1..][j]) == s && JsGet(d.results, s) == q[1..][j].manualEval;
          assert q[j + 1] == q[1..][j];
          assert 0 <= j + 1 < Resolved(q, d) && q[j + 1].manualEval.Some? && Slot(q[j + 1]) == s;
        } else {
          assert Slot(q[0]) == s && q[0].manualEval.Some?;
          assert JsGet(d.results, s) == q[0].manualEval;
        }
      }
    }
  }

  /** When every item has its own slot, each resolved item with a known result
      ends up in its slot, and an item without one leaves its slot untouched. */
  lemma {:induction false} DrainWritesEachResolved(q: seq<Item>, results: seq<Option<Eval>>, engineLoaded: bool, j: nat)
    requires ItemsIndexed(q)
    requires forall a, b :: 0 <= a < b < |q| ==> q[a].moveIndex != q[b].moveIndex
    requires j < Resolved(q, Drain(q, results, engineLoaded))
    ensures var d := Drain(q, results, engineLoaded);
      JsGet(d.results, Slot(q[j])) == (if q[j].manualEval.Some? then q[j].manualEval else JsGet(results, Slot(q[j])))
    decreases |q|
  {
    var d := Drain(q, results, engineLoaded);
    var next := if q[0].manualEval.Some? then JsStore(results, Slot(q[0]), q[0].manualEval) else results;
    assert d == Drain(q[1..], next, engineLoaded);
    if j == 0 {
      DrainWritesOnlyResolved(q[1..], next, engineLoaded, Slot(q[0]));
    } else {
      DrainWritesEachResolved(q[1..], next, engineLoaded, j - 1);
      assert q[1..][j - 1] == q[j];
    }
  }

  /** A drain never shrinks the results; it keeps their length when every slot
      it may write already exists. */
  lemma {:induction false} DrainKeepsLength(q: seq<Item>, results: seq<Option<Eval>>, engineLoaded: bool)
    requires ItemsIndexed(q)
    requires forall i :: 0 <= i < |q| ==> Slot(q[i]) < |results|
    ensures |Drain(q, results, engineLoaded).results| == |results|
    decreases |q|
  {
    if q != [] && (q[0].manualEval.Some? || !engineLoaded) {
      var next := if q[0].manualEval.Some? then JsStore(results, Slot(q[0]), q[0].manualEval) else results;
      assert forall i :: 0 <= i < |q[1..]| ==> Slot(q[1..][i]) == Slot(q[i + 1]);
      DrainKeepsLength(q[1..], next, engineLoaded);
    }
  }

  /** The slots of the queued items. */
  function Slots(q: seq<Item>): (r: set<int>)
    requires ItemsIndexed(q)
    ensures forall i :: 0 <= i < |q| ==> Slot(q[i]) in r
    decreases |q|
  {
    if q == [] then {}
    else
      assert forall i :: 0 <= i < |q[1..]| ==> q[1..][i] == q[i + 1];
      {Slot(q[0])} + Slots(q[1..])
  }

  /** Every queued item has its slot, and every empty slot waits for one of them. */
  ghost predicate Waiting(q: seq<Item>, results: seq<Option<Eval>>)
  {
    && ItemsIndexed(q)
    && (forall i :: 0 <= i < |q| ==> Slot(q[i]) < |results|)
    && (forall s :: 0 <= s < |results| && results[s].None? ==> s in Slots(q))
  }

  /** With the engine loaded, a drain keeps every slot that waits for an item
      waiting: it fills each resolved item's slot, and either fills every slot
      or stops at a query whose slot, with the rest of the queue, covers the
      empty ones. */
  lemma {:induction false} DrainFillsWaiting(q: seq<Item>, results: seq<Option<Eval>>)
    requires Waiting(q, results)
    ensures var d := Drain(q, results, true);
      && |d.results| == |results|
      && (d.query.None? ==> forall s :: 0 <= s < |results| ==> d.results[s].Some?)
      && (d.query.Some? ==> d.query.value.moveIndex >= -1 && Waiting([d.query.value] + d.rest, d.results))
    decreases |q|
  {
    if q != [] {
      if q[0].manualEval.Some? {
        var next := JsStore(results, Slot(q[0]), q[0].manualEval);
        assert forall i :: 0 <= i < |q[1..]| ==> q[1..][i] == q[i + 1];
        assert Waiting(q[1..], next) by {
          forall s | 0 <= s < |next| && next[s].None?
            ensures s in Slots(q[1..])
          {
            assert JsGet(next, s) == JsGet(results, s);
          }
        }
        DrainFillsWaiting(q[1..], next);
      } else {
        assert [q[0]] + q[1..] == q;
      }
    }
  }

  // ---------------------------------------------------------------------------
  // Engine replies

  /** The score of an `info` line in White's point of view: a centipawn or mate
      score is negated when Black is to move; another score type is kept. */
  function WhitePointOfView(raw: RawScore, blackToMove: bool): JsNum
  {
    if blackToMove && (raw.kind == Cp || raw.kind == Mate) then raw.value.Negate() else raw.value
  }

  /** The score one line leaves for the current item: the line's score in
      White's point of view if it is a score line, the previous one otherwise. */
  function ScoreStep(temp: Option<Eval>, line: string, blackToMove: bool): Option<Eval>
  {
    match InfoScore(line)
    case Some(raw) => Some(Eval(raw.kind, WhitePointOfView(raw, blackToMove), None))
    case None => temp
  }

  /** What the lines leave behind for the current item, one line at a time. */
  function LastScore(temp: Option<Eval>, lines: seq<string>, blackToMove: bool): Option<Eval>
    decreases |lines|
  {
    if lines == [] then temp
    else ScoreStep(LastScore(temp, lines[..|lines| - 1], blackToMove), lines[|lines| - 1], blackToMove)
  }

  /** The result a `bestmove` line commits: the last score, or 0 centipawns if
      there was none, with the `bestmove` token attached. */
  function Committed(temp: Option<Eval>, bestMove: Option<string>): (r: Eval)
    ensures r.bestMove == bestMove
    ensures temp.Some? ==> r.kind == temp.value.kind && r.value == temp.value.value
    ensures temp.None? ==> r.kind == Cp && r.value == Num(0)
  {
    match temp
    case Some(e) => e.(bestMove := bestMove)
    case None => Eval(Cp, Num(0), bestMove)
  }

  /** Lines that carry no score leave the last score alone. */
  lemma {:induction false} LastScoreIgnoresOthers(temp: Option<Eval>, earlier: seq<string>, later: seq<string>, blackToMove: bool)
    requires forall i :: 0 <= i < |later| ==> InfoScore(later[i]).None?
    ensures LastScore(temp, earlier + later, blackToMove) == LastScore(temp, earlier, blackToMove)
    decreases |later|
  {
    if later != [] {
      var all := earlier + later;
      var front := later[..|later| - 1];
      assert all[..|all| - 1] == earlier + front;
      assert all[|all| - 1] == later[|later| - 1];
      assert InfoScore(later[|later| - 1]).None?;
      assert forall i :: 0 <= i < |front| ==> front[i] == later[i];
      LastScoreIgnoresOthers(temp, earlier, front, blackToMove);
      calc {
        LastScore(temp, all, blackToMove);
        ScoreStep(LastScore(temp, earlier + front, blackToMove), later[|later| - 1], blackToMove);
        LastScore(temp, earlier + front, blackToMove);
      }
    } else {
      assert earlier + later == earlier;
    }
  }

  /** The last score line decides: whatever came before it, the score is that
      line's score in White's point of view. */
  lemma {:induction false} LastScoreFromLatest(temp: Option<Eval>, earlier: seq<string>, later: seq<string>, blackToMove: bool)
    requires |later| > 0 && InfoScore(later[0]).Some?
    ensures LastScore(temp, earlier + later, blackToMove) == LastScore(None, later, blackToMove)
    decreases |later|
  {
    var all := earlier + later;
    var front := later[..|later| - 1];
    assert all[..|all| - 1] == earlier + front;
    assert all[|all| - 1] == later[|later| - 1];
    if |later| > 1 {
      assert front[0] == later[0];
      LastScoreFromLatest(temp, earlier, front, blackToMove);
    } else {
      assert front == [];
    }
  }

  /** One more line extends the last score exactly as the handler does. */
  lemma LastScoreStep(temp: Option<Eval>, lines: seq<string>, i: nat, blackToMove: bool)
    requires i < |lines|
    ensures LastScore(temp, lines[..i + 1], blackToMove) == ScoreStep(LastScore(temp, lines[..i], blackToMove), lines[i], blackToMove)
  {
    assert lines[..i + 1][..i] == lines[..i];
  }

  /** A `bestmove` line never carries a score: it does not start with `info`. */
  lemma BestMoveLineHasNoScore(message: string)
    requires IsBestMoveLine(message)
    ensures InfoScore(message).None?
  {
    assert message[0] == 'b';
  }

  /** Engine lines of one reply: score lines and others, then one `bestmove`. */
  predicate IsReply(lines: seq<string>)
  {
    |lines| >= 1 && IsBestMoveLine(lines[|lines| - 1]) &&
    forall i :: 0 <= i < |lines| - 1 ==> !IsBestMoveLine(lines[i])
  }

  // ---------------------------------------------------------------------------
  // The pipeline's state

  /** A review that started with the engine loaded: until it is complete, the
      query in flight and the queued items together cover every empty slot;
      once complete, the queue is empty and every slot holds a result. */
  ghost predicate Pending(queue: seq<Item>, current: Option<Item>, results: seq<Option<Eval>>, complete: bool)
  {
    && ItemsIndexed(queue)
    && (complete ==>
          && queue == []
          && (current.Some? ==> current.value.moveIndex >= -1 && Slot(current.value) < |results|)
          && (forall s :: 0 <= s < |results| ==> results[s].Some?))
    && (!complete ==>
          current.Some? && current.value.moveIndex >= -1 && Waiting([current.value] + queue, results))
  }

  /** Ready to drain on: every empty slot waits for a queued item, the current
      item (if any) has its slot, and a complete review has nothing queued. */
  ghost predicate Ready(queue: seq<Item>, current: Option<Item>, results: seq<Option<Eval>>, complete: bool)
  {
    && Waiting(queue, results)
    && (current.Some? ==> current.value.moveIndex >= -1 && Slot(current.value) < |results|)
    && (complete ==> queue == [])
  }

  /** Committing the query in flight leaves the review ready to drain on, with
      the results' length kept. */
  lemma CommitKeepsReady(queue: seq<Item>, item: Item, results: seq<Option<Eval>>, complete: bool, e: Eval)
    requires Pending(queue, Some(item), results, complete)
    ensures item.moveIndex >= -1 && Slot(item) < |results|
    ensures Ready(queue, Some(item), JsStore(results, Slot(item), Some(e)), complete)
    ensures |JsStore(results, Slot(item), Some(e))| == |results|
  {
    var stored := JsStore(results, Slot(item), Some(e));
    if !complete {
      var all := [item] + queue;
      assert all[0] == item && all[1..] == queue;
      assert Slots(all) == {Slot(item)} + Slots(queue);
      assert forall i :: 0 <= i < |queue| ==> queue[i] == all[i + 1];
      forall s | 0 <= s < |stored| && stored[s].None?
        ensures s in Slots(queue)
      {
        assert JsGet(stored, s) == JsGet(results, s);
      }
    } else {
      forall s | 0 <= s < |stored|
        ensures stored[s].Some?
      {
        assert JsGet(stored, s) == JsGet(results, s) || s == Slot(item);
      }
    }
  }

  /** Draining on from a ready state, with the engine loaded, gives a pending
      review again: complete with every slot filled, or waiting on the new
      query. */
  lemma ReadyDrainPending(queue: seq<Item>, current: Option<Item>, results: seq<Option<Eval>>, complete: bool)
    requires Ready(queue, current, results, complete)
    ensures var d := Drain(queue, results, true);
      && |d.results| == |results|
      && Pending(d.rest, if d.query.Some? then d.query else current, d.results, complete || d.query.None?)
  {
    DrainFillsWaiting(queue, results);
    DrainIsFifo(queue, results, true);
    var d := Drain(queue, results, true);
    if d.query.Some? {
      QueryIsPending(d.rest, d.query.value, d.results);
    } else {
      assert d.rest == [];
    }
  }

  /** A new query whose slot, with the rest of the queue, covers every empty
      slot leaves the review pending. */
  lemma QueryIsPending(rest: seq<Item>, item: Item, results: seq<Option<Eval>>)
    requires item.moveIndex >= -1 && Waiting([item] + rest, results)
    ensures Pending(rest, Some(item), results, false)
  {
    var all := [item] + rest;
    assert forall i :: 0 <= i < |rest| ==> rest[i] == all[i + 1];
  }

  /** A fresh review over N + 1 empty slots with the engine loaded queries the
      start position at once, and is then pending. */
  lemma StartIsPending(after: seq<Position>, results: seq<Option<Eval>>)
    requires |results| == |after| + 1 && forall s :: 0 <= s < |results| ==> results[s].None?
    ensures var q := QueueFor(after);
      && ItemsIndexed(q)
      && Drain(q, results, true) == DrainResult(q[1..], results, Some(q[0]))
      && Pending(q[1..], Some(q[0]), results, false)
  {
    QueueForShape(after);
    var q := QueueFor(after);
    assert [q[0]] + q[1..] == q;
    forall s | 0 <= s < |results|
      ensures s in Slots(q)
    {
      assert s == Slot(q[s]);
    }
  }

  /** The `tempEval` left after a `bestmove` commit: the committed object itself
      (it is the item's own score, which now carries the move token) unless a
      new item was queried, whose score starts empty. */
  function TempAfterCommit(temp: Option<Eval>, bestMove: Option<string>, queried: bool): (r: Option<Eval>)
    ensures queried ==> r.None?
    ensures !queried && temp.Some? ==> r == Some(Committed(temp, bestMove)) && r.value.bestMove == bestMove
    ensures !queried && temp.None? ==> r.None?
  {
    if queried then None else if temp.Some? then Some(Committed(temp, bestMove)) else None
  }

  class ReviewPipeline {
    /** Whether the engine worker has been created (it is fetched asynchronously). */
    var engineLoaded: bool
    /** `analysisQueue` */
    var queue: seq<Item>
    /** `analysisResults`: one slot per position, `None` for `null` or a hole. */
    var results: seq<Option<Eval>>
    /** `window.currentAnalysisItem`: the item last sent to the engine. */
    var current: Option<Item>
    /** The `tempEval` of the current item. */
    var tempEval: Option<Eval>
    /** Every line posted to the engine, in order. */
    var sent: seq<string>
    /** Whether the drain has reached the empty queue, which renders the move list. */
    var complete: bool
    /** Whether the review under way was started over empty slots with the
        engine loaded, so that `Pending` holds. */
    ghost var covered: bool

    ghost predicate Valid()
      reads this
    {
      && ItemsIndexed(queue) && (current.Some? ==> current.value.moveIndex >= -1)
      && (covered ==> engineLoaded && Pending(queue, current, results, complete))
    }

    /** A review started with the engine loaded ends, once complete, with a
        result in every slot: no position is left without one. */
    lemma CompleteReviewFillsEverySlot()
      requires Valid() && covered && complete
      ensures queue == [] && forall s :: 0 <= s < |results| ==> results[s].Some?
    {
    }

    constructor ()
      ensures Valid()
      ensures !engineLoaded && queue == [] && results == [] && current.None? && tempEval.None?
      ensures sent == [] && !complete
    {
      engineLoaded, queue, results, current, tempEval, sent, complete := false, [], [], None, None, [], false;
      covered := false;
    }

    /** The engine worker comes up: it is told `uci` and `ucinewgame`. */
    method LoadEngine()
      requires Valid()
      modifies this
      ensures Valid()
      ensures engineLoaded && sent == old(sent) + ["uci", "ucinewgame"]
      ensures queue == old(queue) && results == old(results) && current == old(current)
      ensures tempEval == old(tempEval) && complete == old(complete) && covered == old(covered)
    {
      engineLoaded := true;
      sent := sent + ["uci", "ucinewgame"];
    }

    /** `processAnalysisQueue`: drain as `Drain` says; with an empty queue the
        review is complete, otherwise the query item becomes the current item
        (with no score yet) and its position is sent with a depth-12 search. */
    method ProcessQueue()
      requires Valid()
      modifies this
      ensures Valid()
      ensures var d := Drain(old(queue), old(results), engineLoaded);
        && queue == d.rest && results == d.results
        && current == (if d.query.Some? then d.query else old(current))
        && tempEval == (if d.query.Some? then None else old(tempEval))
        && sent == old(sent) + (if d.query.Some? then ["position fen " + d.query.value.fen, "go depth 12"] else [])
        && complete == (old(complete) || d.query.None?)
      ensures engineLoaded == old(engineLoaded)
      ensures covered == (old(covered) && Ready(old(queue), old(current), old(results), old(complete)))
      ensures covered ==> |results| == |old(results)|
    {
      covered := covered && Ready(queue, current, results, complete);
      ghost var q0, r0 := queue, results;
      if covered {
        ReadyDrainPending(queue, current, results, complete);
      }
      while queue != [] && (queue[0].manualEval.Some? || !engineLoaded)
        invariant ItemsIndexed(queue) && engineLoaded == old(engineLoaded)
        invariant Drain(queue, results, engineLoaded) == Drain(old(queue), old(results), engineLoaded)
        invariant current == old(current) && tempEval == old(tempEval) && sent == old(sent) && complete == old(complete)
        invariant covered == (old(covered) && Ready(q0, old(current), r0, old(complete)))
        decreases |queue|
      {
        var item := queue[0];
        queue := queue[1..];
        if item.manualEval.Some? {
          results := JsStore(results, Slot(item), item.manualEval);
        }
      }
      if queue == [] {
        complete := true;
      } else {
        var item := queue[0];
        queue := queue[1..];
        current := Some(item);
        tempEval := None;
        sent := sent + ["position fen " + item.fen, "go depth 12"];
      }
    }

    /** `analyzeGame`: queue the start position and the position after each
        move, then start draining. An analysis over N + 1 empty slots with the
        engine loaded is covered. */
    method AnalyzeGame(after: seq<Position>)
      requires Valid()
      modifies this
      ensures Valid()
      ensures var d := Drain(QueueFor(after), old(results), engineLoaded);
        && queue == d.rest && results == d.results
        && current == (if d.query.Some? then d.query else old(current))
        && tempEval == (if d.query.Some? then None else old(tempEval))
        && sent == old(sent) + (if d.query.Some? then ["position fen " + d.query.value.fen, "go depth 12"] else [])
        && complete == (old(complete) || d.query.None?)
      ensures engineLoaded == old(engineLoaded)
      ensures covered == (engineLoaded && !old(complete) && |old(results)| == |after| + 1 &&
                          forall s :: 0 <= s < |old(results)| ==> old(results)[s].None?)
    {
      covered := false;
      queue := [StartItem()];
      var i := 0;
      while i < |after|
        invariant 0 <= i <= |after|
        invariant queue == QueueFor(after[..i])
        invariant results == old(results) && current == old(current) && tempEval == old(tempEval)
        invariant sent == old(sent) && complete == old(complete) && engineLoaded == old(engineLoaded)
        invariant !covered
      {
        queue := queue + [ItemAfter(after, i)];
        i := i + 1;
        assert forall k :: 0 <= k < i - 1 ==> ItemAfter(after[..i - 1], k) == ItemAfter(after[..i], k);
      }
      assert after[..i] == after;
      QueueForShape(after);
      ProcessQueue();
      covered := engineLoaded && !old(complete) && |old(results)| == |after| + 1 &&
                 forall s :: 0 <= s < |old(results)| ==> old(results)[s].None?;
      if covered {
        StartIsPending(after, old(results));
      }
    }

    /** `startReview` followed by `analyzeGame`: one empty slot per position,
        then the queue is built and drained; with the engine loaded the review
        is covered. */
    method StartReview(after: seq<Position>)
      requires Valid()
      modifies this
      ensures Valid()
      ensures var d := Drain(QueueFor(after), seq(|after| + 1, _ => None), engineLoaded);
        && queue == d.rest && results == d.results
        && current == (if d.query.Some? then d.query else old(current))
        && tempEval == (if d.query.Some? then None else old(tempEval))
        && sent == old(sent) + (if d.query.Some? then ["position fen " + d.query.value.fen, "go depth 12"] else [])
        && complete == d.query.None?
      ensures engineLoaded == old(engineLoaded)
      ensures |results| == |after| + 1
      ensures covered == engineLoaded
    {
      results := seq(|after| + 1, _ => None);
      complete := false;
      covered := false;
      AnalyzeGame(after);
      QueueForShape(after);
      DrainKeepsLength(QueueFor(after), seq(|after| + 1, _ => None), engineLoaded);
    }

    /** What `handleAnalysisMessage` does with one engine line: without a
        current item nothing; a score line sets the current item's score in
        White's point of view (negated exactly when Black is to move, for `cp`
        and `mate`); a `bestmove` line commits the last score (or 0
        centipawns) with the move token into the current item's slot, drains
        on, and leaves the committed object as the score unless a new item was
        queried. */
    twostate predicate Handled(message: string)
      reads this
    {
      && engineLoaded == old(engineLoaded)
      && (old(current).None? ==>
            queue == old(queue) && results == old(results) && current == old(current) &&
            tempEval == old(tempEval) && sent == old(sent) && complete == old(complete))
      && (old(current).Some? && !IsBestMoveLine(message) ==>
            && queue == old(queue) && results == old(results) && current == old(current)
            && sent == old(sent) && complete == old(complete)
            && tempEval == LastScore(old(tempEval), [message], old(current).value.blackToMove))
      && (old(current).Some? && IsBestMoveLine(message) && old(current).value.moveIndex >= -1 && ItemsIndexed(old(queue)) ==>
            var item := old(current).value;
            var stored := JsStore(old(results), Slot(item), Some(Committed(old(tempEval), BestMoveArg(message))));
            var d := Drain(old(queue), stored, engineLoaded);
            && queue == d.rest && results == d.results
            && current == (if d.query.Some? then d.query else old(current))
            && tempEval == TempAfterCommit(old(tempEval), BestMoveArg(message), d.query.Some?)
            && sent == old(sent) + (if d.query.Some? then ["position fen " + d.query.value.fen, "go depth 12"] else [])
            && complete == (old(complete) || d.query.None?))
    }

    /** `handleAnalysisMessage`, as `Handled` says. */
    method HandleAnalysisMessage(message: string)
      requires Valid()
      modifies this
      ensures Valid() && Handled(message)
      ensures covered == old(covered) && (covered ==> |results| == |old(results)|)
    {
      var info := InfoScore(message);
      var best := IsBestMoveLine(message);
      if current.Some? {
        assert [message][..0] == [];
      }
      if best {
        BestMoveLineHasNoScore(message);
      }
      if info.Some? && current.Some? {
        RecordScore(info.value);
      }
      if best && current.Some? {
        CommitBestMove(BestMoveArg(message));
      }
    }

    /** The engine worker's message handler: while a review is open every line
        goes to `handleAnalysisMessage`; otherwise the analysis state is left
        alone and a `bestmove` line with a move token becomes a move for the
        live game. Closing the review in the middle of an analysis therefore
        stalls the queue: its reply is played on the live board instead. */
    method OnEngineMessage(message: string, reviewMode: bool) returns (liveMove: Option<MoveRequest>)
      requires Valid()
      modifies this
      ensures Valid()
      ensures reviewMode ==> liveMove.None? && Handled(message)
      ensures reviewMode ==> covered == old(covered) && (covered ==> |results| == |old(results)|)
      ensures !reviewMode ==> liveMove == LiveEngineMove(message)
      ensures !reviewMode ==>
        && queue == old(queue) && results == old(results) && current == old(current) && tempEval == old(tempEval)
        && sent == old(sent) && complete == old(complete) && engineLoaded == old(engineLoaded) && covered == old(covered)
    {
      if reviewMode {
        HandleAnalysisMessage(message);
        liveMove := None;
      } else {
        liveMove := LiveEngineMove(message);
      }
    }

    /** A score line for the current item: its White-point-of-view score
        replaces the previous one. */
    method RecordScore(raw: RawScore)
      requires Valid() && current.Some?
      modifies this
      ensures Valid()
      ensures tempEval == Some(Eval(raw.kind, WhitePointOfView(raw, old(current).value.blackToMove), None))
      ensures queue == old(queue) && results == old(results) && current == old(current)
      ensures sent == old(sent) && complete == old(complete) && engineLoaded == old(engineLoaded)
      ensures covered == old(covered)
    {
      tempEval := Some(Eval(raw.kind, WhitePointOfView(raw, current.value.blackToMove), None));
    }

    /** A `bestmove` line for the current item: the committed result goes to the
        item's slot and the queue drains on; the committed object stays the
        item's score. A covered review stays covered. */
    method CommitBestMove(bestMove: Option<string>)
      requires Valid() && current.Some?
      modifies this
      ensures Valid()
      ensures engineLoaded == old(engineLoaded)
      ensures var stored := JsStore(old(results), Slot(old(current).value), Some(Committed(old(tempEval), bestMove)));
        var d := Drain(old(queue), stored, engineLoaded);
        && queue == d.rest && results == d.results
        && current == (if d.query.Some? then d.query else old(current))
        && tempEval == TempAfterCommit(old(tempEval), bestMove, d.query.Some?)
        && sent == old(sent) + (if d.query.Some? then ["position fen " + d.query.value.fen, "go depth 12"] else [])
        && complete == (old(complete) || d.query.None?)
      ensures covered == old(covered) && (covered ==> |results| == |old(results)|)
    {
      var item := current.value;
      var result := Committed(tempEval, bestMove);
      if tempEval.Some? {
        // the committed object is the item's own tempEval, which now carries the move
        tempEval := Some(result);
      }
      if covered {
        CommitKeepsReady(queue, item, results, complete, result);
      }
      results := JsStore(results, Slot(item), Some(result));
      ProcessQueue();
    }

    /** The engine's answer to the query in flight: score lines, then one
        `bestmove`. The slot of the queried item receives the last score in
        White's point of view (0 centipawns if none came) and the move token,
        and the queue drains on. */
    method AnswerQuery(lines: seq<string>)
      requires Valid()
      modifies this
      ensures Valid()
      ensures engineLoaded == old(engineLoaded)
      ensures covered == old(covered) && (covered ==> |results| == |old(results)|)
      ensures old(current).Some? && IsReply(lines) ==>
        var item := old(current).value;
        var score := LastScore(old(tempEval), lines[..|lines| - 1], item.blackToMove);
        var stored := JsStore(old(results), Slot(item), Some(Committed(score, BestMoveArg(lines[|lines| - 1]))));
        var d := Drain(old(queue), stored, engineLoaded);
        && queue == d.rest && results == d.results
        && current == (if d.query.Some? then d.query else old(current))
        && tempEval == TempAfterCommit(score, BestMoveArg(lines[|lines| - 1]), d.query.Some?)
        && sent == old(sent) + (if d.query.Some? then ["position fen " + d.query.value.fen, "go depth 12"] else [])
        && complete == (old(complete) || d.query.None?)
    {
      var i := 0;
      while i < |lines|
        invariant 0 <= i <= |lines|
        invariant Valid()
        invariant engineLoaded == old(engineLoaded)
        invariant covered == old(covered) && (covered ==> |results| == |old(results)|)
        invariant old(current).Some? && IsReply(lines) && i < |lines| ==>
          && queue == old(queue) && results == old(results) && current == old(current)
          && sent == old(sent) && complete == old(complete)
          && tempEval == LastScore(old(tempEval), lines[..i], old(current).value.blackToMove)
        invariant old(current).Some? && IsReply(lines) && i == |lines| ==>
          var item := old(current).value;
          var score := LastScore(old(tempEval), lines[..|lines| - 1], item.blackToMove);
          var stored := JsStore(old(results), Slot(item), Some(Committed(score, BestMoveArg(lines[|lines| - 1]))));
          var d := Drain(old(queue), stored, engineLoaded);
          && queue == d.rest && results == d.results
          && current == (if d.query.Some? then d.query else old(current))
          && tempEval == TempAfterCommit(score, BestMoveArg(lines[|lines| - 1]), d.query.Some?)
          && sent == old(sent) + (if d.query.Some? then ["position fen " + d.query.value.fen, "go depth 12"] else [])
          && complete == (old(complete) || d.query.None?)
      {
        ghost var before := tempEval;
        ghost var at := current;
        HandleAnalysisMessage(lines[i]);
        if old(current).Some? && IsReply(lines) && i < |lines| - 1 {
          assert !IsBestMoveLine(lines[i]);
          assert at == old(current);
          assert LastScore(before, [lines[i]], at.value.blackToMove) == ScoreStep(before, lines[i], at.value.blackToMove) by {
            assert [lines[i]][..0] == [];
            assert LastScore(before, [], at.value.blackToMove) == before;
          }
          LastScoreStep(old(tempEval), lines, i, old(current).value.blackToMove);
        }
        i := i + 1;
      }
    }
  }

}
