/**
 * What the review shows once results exist: the move list's per-side tallies
 * of classifications and accuracy, the coach panel for one move (its verdict,
 * and the engine's suggestion after a bad move) and the evaluation bar.
 * Results are read with `JsGet`, so an empty slot, a hole and an index past
 * the end all read as no result.
 */
module Statistics {
  import opened JsText
  import opened Uci
  import opened Evaluation

  // ---------------------------------------------------------------------------
  // Counters and tallies

  /** The nine counters each side's statistics start from. */
  datatype Counters = Counters(
    best: nat, excellent: nat, good: nat, inaccuracy: nat, mistake: nat,
    blunder: nat, book: nat, brilliant: nat, great: nat)

  function NoCounts(): Counters
  {
    Counters(0, 0, 0, 0, 0, 0, 0, 0, 0)
  }

  function Count(c: Counters, cls: MoveClass): nat
  {
    match cls
    case Best => c.best
    case Excellent => c.excellent
    case Good => c.good
    case Inaccuracy => c.inaccuracy
    case Mistake => c.mistake
    case Blunder => c.blunder
    case Book => c.book
    case Brilliant => c.brilliant
    case Great => c.great
  }

  /** One more move of class `cls`; every other counter stays. */
  function Bump(c: Counters, cls: MoveClass): (r: Counters)
    ensures Count(r, cls) == Count(c, cls) + 1
    ensures forall other :: other != cls ==> Count(r, other) == Count(c, other)
  {
    match cls
    case Best => c.(best := c.best + 1)
    case Excellent => c.(excellent := c.excellent + 1)
    case Good => c.(good := c.good + 1)
    case Inaccuracy => c.(inaccuracy := c.inaccuracy + 1)
    case Mistake => c.(mistake := c.mistake + 1)
    case Blunder => c.(blunder := c.blunder + 1)
    case Book => c.(book := c.book + 1)
    case Brilliant => c.(brilliant := c.brilliant + 1)
    case Great => c.(great := c.great + 1)
  }

  function Total(c: Counters): nat
  {
    c.best + c.excellent + c.good + c.inaccuracy + c.mistake + c.blunder + c.book + c.brilliant + c.great
  }

  /** Bumping adds one to the total, and a graded class leaves the reserved
      counters alone. */
  lemma BumpTotal(c: Counters, cls: MoveClass)
    requires IsGraded(cls)
    ensures Total(Bump(c, cls)) == Total(c) + 1
    ensures Bump(c, cls).book == c.book && Bump(c, cls).brilliant == c.brilliant && Bump(c, cls).great == c.great
  {
  }

  /** A side's counters, accuracy total (in half points) and number of rated moves. */
  datatype SideTally = SideTally(counts: Counters, accHalf: nat, moves: nat)

  /** The rating of one move: its class and its accuracy in half points. */
  datatype Rating = Rating(cls: MoveClass, accHalf: nat)

  /** Move i (0-based; White moved when i is even) is rated when the results
      before and after it are both present. */
  function RateMove(results: seq<Option<Eval>>, i: nat): Option<Rating>
  {
    match (JsGet(results, i), JsGet(results, i + 1))
    case (Some(before), Some(after)) =>
      var loss := MoveLoss(before, after, i % 2 == 0);
      Some(Rating(Classify(loss), AccuracyHalfPoints(loss)))
    case _ => None
  }

  function AddRating(t: SideTally, r: Rating): SideTally
  {
    SideTally(Bump(t.counts, r.cls), t.accHalf + r.accHalf, t.moves + 1)
  }

  /** The tally of one side over the first n moves. */
  function Tally(results: seq<Option<Eval>>, n: nat, white: bool): SideTally
  {
    if n == 0 then SideTally(NoCounts(), 0, 0)
    else
      var t := Tally(results, n - 1, white);
      var i := n - 1;
      if (i % 2 == 0) == white && RateMove(results, i).Some? then AddRating(t, RateMove(results, i).value) else t
  }

  /** How many of the first n moves are the side's own. */
  function Turns(n: nat, white: bool): nat
  {
    if white then (n + 1) / 2 else n / 2
  }

  /** `Math.round` of the mean per-move accuracy, 0 without rated moves: with the
      total in half points, the rounded-half-up mean is (total + m) / (2m). */
  function SideAccuracy(t: SideTally): (r: nat)
    ensures t.moves == 0 ==> r == 0
    ensures t.moves > 0 ==> t.moves * (2 * r - 1) <= t.accHalf < t.moves * (2 * r + 1)
    ensures t.accHalf <= 200 * t.moves ==> r <= 100
    ensures t.moves > 0 && t.accHalf == 200 * t.moves ==> r == 100
  {
    if t.moves == 0 then 0
    else
      RoundedMean(t.accHalf, t.moves);
      (t.accHalf + t.moves) / (2 * t.moves)
  }

  /** The rounding bounds of (a + m) / (2m), and the cap at 100. */
  lemma RoundedMean(a: nat, m: nat)
    requires m > 0
    ensures var q := (a + m) / (2 * m);
      && m * (2 * q - 1) <= a < m * (2 * q + 1)
      && (a <= 200 * m ==> q <= 100)
      && (a == 200 * m ==> q == 100)
  {
    var d := 2 * m;
    var q := (a + m) / d;
    var rem := (a + m) % d;
    assert a + m == d * q + rem && 0 <= rem < d;
    assert m * (2 * q - 1) == d * q - m;
    assert m * (2 * q + 1) == d * q + m;
    if a == 200 * m {
      assert a + m == d * 100 + m;
      assert q == 100;
    }
  }

  /** A tally whose counters add up to its move count, with the reserved
      counters at zero and at most 100 accuracy per move. */
  predicate Consistent(t: SideTally)
  {
    && Total(t.counts) == t.moves
    && t.counts.book == 0 && t.counts.brilliant == 0 && t.counts.great == 0
    && t.accHalf <= 200 * t.moves
  }

  /** Every rating the move list produces is graded and earns at most 100. */
  lemma RatingBounds(results: seq<Option<Eval>>, i: nat)
    requires RateMove(results, i).Some?
    ensures IsGraded(RateMove(results, i).value.cls) && RateMove(results, i).value.accHalf <= 200
  {
  }

  /** Adding a graded rating of at most 100 keeps a tally consistent. */
  lemma AddRatingKeeps(t: SideTally, r: Rating)
    requires Consistent(t) && IsGraded(r.cls) && r.accHalf <= 200
    ensures Consistent(AddRating(t, r)) && AddRating(t, r).moves == t.moves + 1
  {
    BumpTotal(t.counts, r.cls);
  }

  /** Every rated move of the side is counted exactly once, under one of the six
      graded classes (book, brilliant and great stay at zero), each move earns
      at most 100 accuracy, and a side rates at most its own moves. */
  lemma {:induction false} TallyConsistent(results: seq<Option<Eval>>, n: nat, white: bool)
    ensures Consistent(Tally(results, n, white))
    ensures Tally(results, n, white).moves <= Turns(n, white)
  {
    if n > 0 {
      TallyConsistent(results, n - 1, white);
      var i := n - 1;
      assert Turns(n - 1, white) + (if (i % 2 == 0) == white then 1 else 0) == Turns(n, white);
      if (i % 2 == 0) == white && RateMove(results, i).Some? {
        RatingBounds(results, i);
        AddRatingKeeps(Tally(results, n - 1, white), RateMove(results, i).value);
      }
    }
  }

  /** With every result present, each of the side's moves is rated. */
  lemma {:induction false} TallyComplete(results: seq<Option<Eval>>, n: nat, white: bool)
    requires forall s :: 0 <= s <= n ==> JsGet(results, s).Some?
    ensures Tally(results, n, white).moves == Turns(n, white)
  {
    if n > 0 {
      TallyComplete(results, n - 1, white);
      assert RateMove(results, n - 1).Some?;
    }
  }

  /** `renderMoveList`'s statistics: the counters, accuracy totals and move
      counts of both sides, and their rounded accuracies. */
  method RenderMoveList(results: seq<Option<Eval>>, moveCount: nat)
    returns (white: SideTally, black: SideTally, whiteAcc: nat, blackAcc: nat)
    ensures white == Tally(results, moveCount, true) && black == Tally(results, moveCount, false)
    ensures whiteAcc == SideAccuracy(white) && blackAcc == SideAccuracy(black)
  {
    white := SideTally(NoCounts(), 0, 0);
    black := SideTally(NoCounts(), 0, 0);
    var i := 0;
    while i < moveCount
      invariant 0 <= i <= moveCount
      invariant white == Tally(results, i, true) && black == Tally(results, i, false)
    {
      var isWhite := i % 2 == 0;
      var prev := JsGet(results, i);
      var curr := JsGet(results, i + 1);
      if prev.Some? && curr.Some? {
        var loss := MoveLoss(prev.value, curr.value, isWhite);
        var rating := Rating(Classify(loss), AccuracyHalfPoints(loss));
        if isWhite {
          white := AddRating(white, rating);
        } else {
          black := AddRating(black, rating);
        }
      }
      i := i + 1;
    }
    whiteAcc := SideAccuracy(white);
    blackAcc := SideAccuracy(black);
  }

  // ---------------------------------------------------------------------------
  // The coach panel

  /** The coach's verdict: a class, or `Normal` when a result is missing. */
  datatype Verdict = Normal | Rated(cls: MoveClass)

  predicate IsBadMove(v: Verdict)
  {
    v == Rated(Inaccuracy) || v == Rated(Mistake) || v == Rated(Blunder)
  }

  /** An arrow between two squares of the board. */
  datatype Arrow = Arrow(from: string, to: string)

  datatype CoachView =
    | Hidden
    | StartPosition
    | MoveReview(index: nat, verdict: Verdict, suggestion: Option<string>, arrow: Option<Arrow>)

  /** The verdict on the move leading to position k (k >= 1). */
  function CoachVerdict(results: seq<Option<Eval>>, k: nat): Verdict
    requires k >= 1
  {
    match (JsGet(results, k - 1), JsGet(results, k))
    case (Some(before), Some(after)) => Rated(Classify(CoachLoss(before, after, (k - 1) % 2 == 0)))
    case _ => Normal
  }

  /** `updateCoach` together with the arrow of `updateBoardVisuals`: hidden out
      of review; the index is clamped to 0..moveCount; position 0 shows the
      start message; otherwise the verdict on the move, and after an
      inaccuracy, mistake or blunder the engine's move for the position before
      it (when it has a non-empty one), also drawn as an arrow. */
  function UpdateCoach(reviewMode: bool, results: seq<Option<Eval>>, moveCount: nat, moveIndex: int): (r: CoachView)
    ensures r.Hidden? <==> !reviewMode
    ensures r.StartPosition? <==> reviewMode && (moveIndex <= 0 || moveCount == 0)
    ensures r.MoveReview? ==>
      && 1 <= r.index <= moveCount
      && r.index == (if moveIndex > moveCount then moveCount else moveIndex)
      && r.verdict == CoachVerdict(results, r.index)
      && (r.suggestion.Some? <==>
            IsBadMove(r.verdict) && JsGet(results, r.index - 1).Some? &&
            JsGet(results, r.index - 1).value.bestMove.Some? && JsGet(results, r.index - 1).value.bestMove.value != "")
      && (r.suggestion.Some? ==> r.suggestion == JsGet(results, r.index - 1).value.bestMove)
      && (r.arrow.Some? <==> r.suggestion.Some?)
  {
    if !reviewMode then Hidden
    else
      var k := if moveIndex < 0 then 0 else if moveIndex > moveCount then moveCount else moveIndex;
      if k == 0 then StartPosition
      else
        var verdict := CoachVerdict(results, k);
        var suggestion :=
          match JsGet(results, k - 1)
          case Some(pre) => if pre.bestMove.Some? && pre.bestMove.value != "" then pre.bestMove else None
          case None => None;
        if IsBadMove(verdict) && suggestion.Some? then
          var m := suggestion.value;
          MoveReview(k, verdict, suggestion, Some(Arrow(Substring(m, 0, 2), Substring(m, 2, 4))))
        else MoveReview(k, verdict, None, None)
  }

  /** Wherever both results exist, the coach and the move list rate a move the
      same way (their loss clamps differ only at zero, where both say Best). */
  lemma CoachAgreesWithMoveList(results: seq<Option<Eval>>, moveCount: nat, k: nat)
    requires 1 <= k <= moveCount
    requires RateMove(results, k - 1).Some?
    ensures UpdateCoach(true, results, moveCount, k).verdict == Rated(RateMove(results, k - 1).value.cls)
  {
    CoachLossAgrees(JsGet(results, k - 1).value, JsGet(results, k).value, (k - 1) % 2 == 0);
  }

  /** Asking for a move past the end shows the last move. */
  lemma CoachClampsPastEnd(reviewMode: bool, results: seq<Option<Eval>>, moveCount: nat, moveIndex: int)
    requires moveIndex >= moveCount
    ensures UpdateCoach(reviewMode, results, moveCount, moveIndex) == UpdateCoach(reviewMode, results, moveCount, moveCount)
  {
  }

  // ---------------------------------------------------------------------------
  // The evaluation bar

  datatype Bar =
    | Unchanged                     // no result at the clamped index
    | WhiteMates(value: JsNum)      // the whole bar White
    | BlackMates(value: JsNum)      // the whole bar Black
    | Logistic(value: JsNum)        // a share of the bar from the centipawn value

  /** The slot `updateEvalBar` reads: moveIndex clamped below at 0 and above at
      the last slot (-1 when there are no results). */
  function BarSlot(resultCount: nat, moveIndex: int): (s: int)
    ensures resultCount == 0 ==> s == -1 || s == 0
    ensures resultCount > 0 ==> 0 <= s < resultCount
    ensures 0 <= moveIndex < resultCount ==> s == moveIndex
  {
    var i := if moveIndex < 0 then 0 else moveIndex;
    if i >= resultCount then resultCount - 1 else i
  }

  /** `updateEvalBar`: a mate score fills the bar for White when it is positive
      and for Black otherwise; any other score sets a logistic share. */
  function UpdateEvalBar(results: seq<Option<Eval>>, moveIndex: int): (b: Bar)
    ensures b.Unchanged? <==> JsGet(results, BarSlot(|results|, moveIndex)).None?
    ensures !b.Unchanged? ==> b.value == JsGet(results, BarSlot(|results|, moveIndex)).value.value
    ensures b.WhiteMates? <==>
      !b.Unchanged? && JsGet(results, BarSlot(|results|, moveIndex)).value.kind == Mate && b.value.Num? && b.value.n > 0
    ensures b.BlackMates? <==>
      !b.Unchanged? && JsGet(results, BarSlot(|results|, moveIndex)).value.kind == Mate && !(b.value.Num? && b.value.n > 0)
    ensures b.Logistic? <==> !b.Unchanged? && JsGet(results, BarSlot(|results|, moveIndex)).value.kind != Mate
  {
    match JsGet(results, BarSlot(|results|, moveIndex))
    case None => Unchanged
    case Some(e) =>
      if e.kind == Mate then
        if e.value.Num? && e.value.n > 0 then WhiteMates(e.value) else BlackMates(e.value)
      else Logistic(e.value)
  }

  /** The mate values analysis records for terminal positions land on the side
      that delivered mate: +1 (Black mated) fills the bar for White, -1 for Black. */
  lemma EvalBarShowsMatingSide(results: seq<Option<Eval>>, k: nat, blackMated: bool)
    requires k < |results|
    requires results[k] == Some(Eval(Mate, Num(if blackMated then 1 else -1), None))
    ensures UpdateEvalBar(results, k) == (if blackMated then WhiteMates(Num(1)) else BlackMates(Num(-1)))
  {
  }
}
