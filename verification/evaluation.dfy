/**
 * Scores of reviewed positions and the quality of the move between two of
 * them: mate scores become pseudo-centipawns, the mover's loss is clamped at
 * zero and bucketed by inclusive thresholds, and each move earns an accuracy.
 * Everything here is a pure function of two adjacent evaluations.
 */
module Evaluation {
  import opened JsText
  import opened Uci

  /** An analysis result: a score type, a White-positive value and, for results
      the engine produced, the token of its `bestmove` line. */
  datatype Eval = Eval(kind: ScoreType, value: JsNum, bestMove: Option<string>)

  /** The whole taxonomy; the classifier only ever assigns the six graded ones. */
  datatype MoveClass = Brilliant | Great | Best | Excellent | Good | Book | Inaccuracy | Mistake | Blunder

  predicate IsGraded(c: MoveClass)
  {
    c in {Best, Excellent, Good, Inaccuracy, Mistake, Blunder}
  }

  /** 0 for Best up to 5 for Blunder, in the order of the thresholds. */
  function Severity(c: MoveClass): nat
  {
    match c
    case Best => 0
    case Excellent => 1
    case Good => 2
    case Inaccuracy => 3
    case Mistake => 4
    case Blunder => 5
    case _ => 0
  }

  /** A mate in n becomes 10000 - n when n > 0 and -10000 - n otherwise; other
      scores are used as they are. */
  function PseudoCentipawns(e: Eval): (r: JsNum)
    ensures r.NaN? <==> e.value.NaN?
  {
    if e.kind == Mate then
      match e.value
      case Num(n) => Num(if n > 0 then 10000 - n else -10000 - n)
      case NaN => NaN
    else e.value
  }

  /** For mates closer than 10000 plies, a mate for White lands strictly between
      0 and 10000, a mate for Black at or below 0 down to -10000, and a closer
      mate is the more extreme value. */
  lemma MateScoresOrdered(a: int, b: int, bestA: Option<string>, bestB: Option<string>)
    requires -10000 < a < b < 10000
    ensures var pa := PseudoCentipawns(Eval(Mate, Num(a), bestA)).n;
            var pb := PseudoCentipawns(Eval(Mate, Num(b), bestB)).n;
            (0 < a ==> 0 < pb < pa < 10000) &&
            (b <= 0 ==> -10000 <= pb < pa <= 0) &&
            (a <= 0 < b ==> pa <= 0 < pb)
  {
  }

  /** The mover's loss as `renderMoveList` computes it: before - after for
      White (an even move index), after - before for Black, then any loss
      `<= 0` becomes 0. NaN stays NaN, since every comparison with it is false. */
  function MoveLoss(before: Eval, after: Eval, whiteMoved: bool): (r: JsNum)
    ensures r.NaN? <==> before.value.NaN? || after.value.NaN?
    ensures r.Num? ==> r.n >= 0
  {
    match (PseudoCentipawns(before), PseudoCentipawns(after))
    case (Num(p), Num(c)) =>
      var loss := if whiteMoved then p - c else c - p;
      if loss <= 0 then Num(0) else Num(loss)
    case _ => NaN
  }

  /** The same loss as `updateCoach` computes it: only a loss `< 0` is reset. */
  function CoachLoss(before: Eval, after: Eval, whiteMoved: bool): JsNum
  {
    match (PseudoCentipawns(before), PseudoCentipawns(after))
    case (Num(p), Num(c)) =>
      var loss := if whiteMoved then p - c else c - p;
      if loss < 0 then Num(0) else Num(loss)
    case _ => NaN
  }

  /** The same evaluation seen from the other side: the value negated. */
  function Mirrored(e: Eval): (r: Eval)
    ensures r.kind == e.kind && r.bestMove == e.bestMove
    ensures r.value.NaN? <==> e.value.NaN?
  {
    e.(value := e.value.Negate())
  }

  /** The loss does not depend on which colour moved: negating both scores and
      switching the mover gives the same loss. This holds for centipawn scores
      and for every mate value but 0, which becomes -10000 whatever its sign. */
  lemma MoveLossColourBlind(before: Eval, after: Eval, whiteMoved: bool)
    requires before.kind == Mate ==> before.value != Num(0)
    requires after.kind == Mate ==> after.value != Num(0)
    ensures MoveLoss(Mirrored(before), Mirrored(after), !whiteMoved) == MoveLoss(before, after, whiteMoved)
  {
    MirroredScore(before);
    MirroredScore(after);
  }

  /** Mirroring negates the pseudo-centipawn score, except for a mate of 0. */
  lemma MirroredScore(e: Eval)
    requires e.kind == Mate ==> e.value != Num(0)
    ensures PseudoCentipawns(Mirrored(e)) == PseudoCentipawns(e).Negate()
  {
  }

  /** Both ways of computing the loss agree on every pair of evaluations. */
  lemma CoachLossAgrees(before: Eval, after: Eval, whiteMoved: bool)
    ensures CoachLoss(before, after, whiteMoved) == MoveLoss(before, after, whiteMoved)
  {
  }

  /** Inclusive upper bounds 10 / 30 / 70 / 130 / 300 for Best / Excellent /
      Good / Inaccuracy / Mistake; anything above, or NaN, is a Blunder. */
  function Classify(loss: JsNum): (c: MoveClass)
    ensures IsGraded(c)
    ensures loss.NaN? ==> c == Blunder
  {
    match loss
    case NaN => Blunder
    case Num(l) =>
      if l <= 10 then Best
      else if l <= 30 then Excellent
      else if l <= 70 then Good
      else if l <= 130 then Inaccuracy
      else if l <= 300 then Mistake
      else Blunder
  }

  /** A larger loss never earns a better class. */
  lemma ClassifyMonotone(a: int, b: int)
    requires a <= b
    ensures Severity(Classify(Num(a))) <= Severity(Classify(Num(b)))
  {
  }

  /** Each threshold belongs to the better bucket; one more is the worse one. */
  lemma ClassifyBoundaries()
    ensures Classify(Num(10)) == Best && Classify(Num(11)) == Excellent
    ensures Classify(Num(30)) == Excellent && Classify(Num(31)) == Good
    ensures Classify(Num(70)) == Good && Classify(Num(71)) == Inaccuracy
    ensures Classify(Num(130)) == Inaccuracy && Classify(Num(131)) == Mistake
    ensures Classify(Num(300)) == Mistake && Classify(Num(301)) == Blunder
  {
  }

  /** A move after which the position is no worse for the mover is Best. */
  lemma ImprovementIsBest(before: Eval, after: Eval, whiteMoved: bool)
    requires PseudoCentipawns(before).Num? && PseudoCentipawns(after).Num?
    requires whiteMoved ==> PseudoCentipawns(after).n >= PseudoCentipawns(before).n
    requires !whiteMoved ==> PseudoCentipawns(after).n <= PseudoCentipawns(before).n
    ensures Classify(MoveLoss(before, after, whiteMoved)) == Best
  {
  }

  /** Per-move accuracy `max(0, 100 - loss / 2)` counted in half points, i.e.
      `max(0, 200 - loss)`; a loss that is not `> 0` (zero, or NaN) costs nothing. */
  function AccuracyHalfPoints(loss: JsNum): (r: nat)
    ensures r <= 200
    ensures loss.Num? && loss.n > 0 ==> r + loss.n >= 200 && (r > 0 ==> r + loss.n == 200)
    ensures loss.NaN? || loss.n <= 0 ==> r == 200
  {
    match loss
    case NaN => 200
    case Num(l) => if l > 0 then (if 200 - l < 0 then 0 else 200 - l) else 200
  }
}
