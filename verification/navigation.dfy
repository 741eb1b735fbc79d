/**
 * Moving through a finished game: the history step (-1 for the live game,
 * i.e. the position after the last move; otherwise the number of moves
 * replayed), the arrow-button navigation, the review buttons and clicking a
 * move, and what the review panels show for the current step.
 */
module Navigation {
  import opened JsText
  import opened Evaluation
  import opened Statistics

  function Clamp(x: int, lo: int, hi: int): (r: int)
    requires lo <= hi
    ensures lo <= r <= hi
    ensures lo <= x <= hi ==> r == x
  {
    if x < lo then lo else if x > hi then hi else x
  }

  /** How many of the game's moves the board shows at a history step: all of
      them for the live game (-1), otherwise the step itself, where a negative
      step replays nothing. */
  function Shown(step: int, total: nat): nat
  {
    if step == -1 then total else Clamp(step, 0, total)
  }

  /** `navigateHistory`: start from the end when live, move by the offset,
      clamp to 0..total, and turn the last position back into the live game. */
  function NavigateTarget(step: int, offset: int, total: nat): (r: int)
    ensures r == -1 || 0 <= r < total
  {
    var from := if step == -1 then total else step;
    var to := Clamp(from + offset, 0, total);
    if to == total then -1 else to
  }

  /** From any ordinary step, the board moves by the offset and stops at either
      end; it shows the live game exactly when it reaches the last position. */
  lemma NavigateMovesByOffset(step: int, offset: int, total: nat)
    requires -1 <= step <= total
    ensures Shown(NavigateTarget(step, offset, total), total) == Clamp(Shown(step, total) + offset, 0, total)
    ensures NavigateTarget(step, offset, total) == -1 <==> Clamp(Shown(step, total) + offset, 0, total) == total
  {
  }

  datatype NavAction = Next | Prev | Retry | Other

  /** `reviewNav` as written: next while below the move count, prev while above
      -1, retry always one back. */
  function ReviewStepAsWritten(step: int, action: NavAction, moveCount: nat): int
  {
    match action
    case Next => if step < moveCount then step + 1 else step
    case Prev => if step > -1 then step - 1 else step
    case Retry => step - 1
    case Other => step
  }

  /** As written, next never passes the move count and prev never goes below
      -1, while retry has no guard and always steps back one. */
  lemma ReviewStepAsWrittenBounds(step: int, action: NavAction, moveCount: nat)
    requires -1 <= step <= moveCount
    ensures action == Next ==> step <= ReviewStepAsWritten(step, action, moveCount) <= moveCount
    ensures action == Prev ==> -1 <= ReviewStepAsWritten(step, action, moveCount) <= step
    ensures action == Retry ==> ReviewStepAsWritten(step, action, moveCount) == step - 1
  {
  }

  /** Going back from the first position lands on -1, which the board shows as
      the last position; going forward from there lands on the first position. */
  lemma PrevAtStartShowsLastPosition(moveCount: nat)
    requires moveCount >= 1
    ensures Shown(ReviewStepAsWritten(0, Prev, moveCount), moveCount) == moveCount
    ensures Shown(ReviewStepAsWritten(-1, Next, moveCount), moveCount) == 0
  {
  }

  /** The review buttons as evidently intended: step one position forward or
      back from the position on the board, stopping at either end; retry steps
      back like prev. */
  function ReviewStep(step: int, action: NavAction, moveCount: nat): (r: int)
    ensures action != Other ==> 0 <= r <= moveCount
  {
    var at := Shown(step, moveCount);
    match action
    case Next => if at < moveCount then at + 1 else at
    case Prev => if at > 0 then at - 1 else at
    case Retry => if at > 0 then at - 1 else at
    case Other => step
  }

  /** Each button moves the board by exactly one position, or not at all at
      the end it points to. */
  lemma ReviewStepMovesByOne(step: int, action: NavAction, moveCount: nat)
    ensures action == Next ==>
      Shown(ReviewStep(step, action, moveCount), moveCount) == Clamp(Shown(step, moveCount) + 1, 0, moveCount)
    ensures action == Prev || action == Retry ==>
      Shown(ReviewStep(step, action, moveCount), moveCount) == Clamp(Shown(step, moveCount) - 1, 0, moveCount)
    ensures action == Other ==> ReviewStep(step, action, moveCount) == step
  {
  }

  /** The correction changes nothing away from the ends: from a step strictly
      inside the game, next and prev do what the written code does. */
  lemma ReviewStepAgreesInside(step: int, action: NavAction, moveCount: nat)
    requires 0 < step < moveCount
    requires action == Next || action == Prev
    ensures ReviewStep(step, action, moveCount) == ReviewStepAsWritten(step, action, moveCount)
  {
  }

  /** The review state of the page: whether a review is open and the step shown. */
  class HistoryCursor {
    var reviewMode: bool
    var historyStep: int

    constructor ()
      ensures !reviewMode && historyStep == -1
    {
      reviewMode, historyStep := false, -1;
    }

    /** The index the review panels are drawn for (`renderCurrentView`). */
    function ViewIndex(moveCount: nat): (r: int)
      reads this
      ensures historyStep == -1 ==> r == moveCount
      ensures historyStep != -1 ==> r == historyStep
    {
      if historyStep == -1 then moveCount else historyStep
    }

    /** `startReview`: the review opens on the start position. */
    method StartReview()
      modifies this
      ensures reviewMode && historyStep == 0
    {
      reviewMode := true;
      historyStep := 0;
    }

    /** `closeReview`: the panels close; the step stays. */
    method CloseReview()
      modifies this
      ensures !reviewMode && historyStep == old(historyStep)
    {
      reviewMode := false;
    }

    /** `navigateHistory` over a game of `totalMoves` moves. */
    method NavigateHistory(offset: int, totalMoves: nat)
      modifies this
      ensures historyStep == NavigateTarget(old(historyStep), offset, totalMoves)
      ensures reviewMode == old(reviewMode)
      ensures -1 <= old(historyStep) <= totalMoves ==>
        Shown(historyStep, totalMoves) == Clamp(Shown(old(historyStep), totalMoves) + offset, 0, totalMoves)
    {
      if historyStep == -1 {
        historyStep := totalMoves;
      }
      historyStep := historyStep + offset;
      if historyStep < 0 {
        historyStep := 0;
      }
      if historyStep > totalMoves {
        historyStep := totalMoves;
      }
      if historyStep == totalMoves {
        historyStep := -1;
      }
      if -1 <= old(historyStep) <= totalMoves {
        NavigateMovesByOffset(old(historyStep), offset, totalMoves);
      }
    }

    /** `reviewNav`, with the stepping corrected as `ReviewStep` says; nothing
        happens outside a review. */
    method ReviewNav(action: NavAction, moveCount: nat)
      modifies this
      ensures reviewMode == old(reviewMode)
      ensures !reviewMode ==> historyStep == old(historyStep)
      ensures reviewMode ==> historyStep == ReviewStep(old(historyStep), action, moveCount)
    {
      if !reviewMode {
        return;
      }
      var at := Shown(historyStep, moveCount);
      match action {
        case Next =>
          if at < moveCount {
            historyStep := at + 1;
          } else {
            historyStep := at;
          }
        case Prev =>
          if at > 0 {
            historyStep := at - 1;
          } else {
            historyStep := at;
          }
        case Retry =>
          if at > 0 {
            historyStep := at - 1;
          } else {
            historyStep := at;
          }
        case Other =>
      }
    }

    /** Clicking move i in the list shows the position after it. */
    method SelectMove(i: nat, moveCount: nat)
      requires i < moveCount
      modifies this
      ensures historyStep == i + 1 && reviewMode == old(reviewMode)
      ensures Shown(historyStep, moveCount) == i + 1 && ViewIndex(moveCount) == i + 1
    {
      historyStep := i + 1;
    }

    /** What the evaluation bar and the coach show for the current step (only
        in review). */
    function Panels(results: seq<Option<Eval>>, moveCount: nat): (r: Option<(Bar, CoachView)>)
      reads this
      ensures r.Some? <==> reviewMode
      ensures r.Some? ==> r.value.1 == UpdateCoach(true, results, moveCount, ViewIndex(moveCount))
      ensures r.Some? ==> r.value.0 == UpdateEvalBar(results, ViewIndex(moveCount))
    {
      if reviewMode then
        var idx := ViewIndex(moveCount);
        Some((UpdateEvalBar(results, idx), UpdateCoach(reviewMode, results, moveCount, idx)))
      else None
    }
  }

  /** After a move is clicked, the coach reviews exactly that move, and the
      evaluation bar shows the result after it (if present). */
  lemma ClickedMoveIsReviewed(results: seq<Option<Eval>>, moveCount: nat, i: nat)
    requires i < moveCount && |results| == moveCount + 1
    ensures var coach := UpdateCoach(true, results, moveCount, i + 1);
      coach.MoveReview? && coach.index == i + 1 && coach.verdict == CoachVerdict(results, i + 1)
    ensures UpdateEvalBar(results, i + 1).Unchanged? <==> results[i + 1].None?
  {
  }
}
