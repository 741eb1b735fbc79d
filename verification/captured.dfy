/**
 * The captured-pieces panels: pieces missing from each side's starting set,
 * listed pawn, knight, bishop, rook, queen; the material difference shown as
 * a `+n` label next to the side that leads; and each list shown in groups of
 * equal pieces. The board is the flattened list of its squares.
 */
module Captured {
  import opened JsText

  datatype Side = White | Black
  datatype PieceKind = Pawn | Knight | Bishop | Rook | Queen | King
  datatype Piece = Piece(color: Side, kind: PieceKind)

  /** The order lost pieces are listed in. */
  const Order: seq<PieceKind> := [Pawn, Knight, Bishop, Rook, Queen]

  /** Position of a kind in `Order` (kings, which are never counted, come last). */
  function Rank(k: PieceKind): nat
  {
    match k
    case Pawn => 0
    case Knight => 1
    case Bishop => 2
    case Rook => 3
    case Queen => 4
    case King => 5
  }

  /** How many of each kind a side starts with (kings are not counted). */
  function FullSet(k: PieceKind): nat
  {
    match k
    case Pawn => 8
    case Knight => 2
    case Bishop => 2
    case Rook => 2
    case Queen => 1
    case King => 0
  }

  /** Material value: 1, 3, 3, 5, 9; kings are not counted. */
  function Value(k: PieceKind): nat
  {
    match k
    case Pawn => 1
    case Knight => 3
    case Bishop => 3
    case Rook => 5
    case Queen => 9
    case King => 0
  }

  lemma OrderIsByRank()
    ensures forall j :: 0 <= j < |Order| ==> Rank(Order[j]) == j
  {
  }

  // ---------------------------------------------------------------------------
  // What the board holds

  function CountOf(board: seq<Option<Piece>>, p: Piece): nat
  {
    if board == [] then 0
    else CountOf(board[..|board| - 1], p) + (if board[|board| - 1] == Some(p) then 1 else 0)
  }

  /** Pieces of a side missing from its starting set, never negative (extra
      pieces from promotions do not count). */
  function Lost(board: seq<Option<Piece>>, p: Piece): nat
  {
    if FullSet(p.kind) > CountOf(board, p) then FullSet(p.kind) - CountOf(board, p) else 0
  }

  function Repeat(k: PieceKind, n: nat): seq<PieceKind>
  {
    seq(n, _ => k)
  }

  /** The side's lost pieces of the first j kinds of `Order`, in that order. */
  function LostUpTo(board: seq<Option<Piece>>, c: Side, j: nat): seq<PieceKind>
    requires j <= |Order|
  {
    if j == 0 then []
    else LostUpTo(board, c, j - 1) + Repeat(Order[j - 1], Lost(board, Piece(c, Order[j - 1])))
  }

  function LostList(board: seq<Option<Piece>>, c: Side): seq<PieceKind>
  {
    LostUpTo(board, c, |Order|)
  }

  /** The sum of the values of a side's pieces other than the king. */
  function Material(board: seq<Option<Piece>>, c: Side): nat
  {
    if board == [] then 0
    else
      var last := board[|board| - 1];
      Material(board[..|board| - 1], c) + (if last.Some? && last.value.color == c then Value(last.value.kind) else 0)
  }

  /** The value of a per-kind count of pieces. */
  function Weighted(count: PieceKind -> nat): nat
  {
    count(Pawn) + 3 * count(Knight) + 3 * count(Bishop) + 5 * count(Rook) + 9 * count(Queen)
  }

  // ---------------------------------------------------------------------------
  // Properties of the lost lists and the material

  /** The lost list of a side holds exactly `Lost` pieces of each kind and no king. */
  lemma {:induction false} LostUpToCounts(board: seq<Option<Piece>>, c: Side, j: nat, k: PieceKind)
    requires j <= |Order|
    ensures multiset(LostUpTo(board, c, j))[k] == if Rank(k) < j then Lost(board, Piece(c, k)) else 0
  {
    if j > 0 {
      LostUpToCounts(board, c, j - 1, k);
      OrderIsByRank();
      var r := Repeat(Order[j - 1], Lost(board, Piece(c, Order[j - 1])));
      assert multiset(LostUpTo(board, c, j)) == multiset(LostUpTo(board, c, j - 1)) + multiset(r);
      RepeatCount(Order[j - 1], Lost(board, Piece(c, Order[j - 1])), k);
    }
  }

  lemma {:induction false} RepeatCount(k: PieceKind, n: nat, x: PieceKind)
    ensures multiset(Repeat(k, n))[x] == if x == k then n else 0
  {
    if n > 0 {
      assert Repeat(k, n) == Repeat(k, n - 1) + [k];
      RepeatCount(k, n - 1, x);
    }
  }

  /** Kinds appear in the lost list in the order pawn, knight, bishop, rook, queen. */
  lemma {:induction false} LostUpToOrdered(board: seq<Option<Piece>>, c: Side, j: nat)
    requires j <= |Order|
    ensures forall a :: 0 <= a < |LostUpTo(board, c, j)| ==> Rank(LostUpTo(board, c, j)[a]) < j
    ensures forall a, b :: 0 <= a < b < |LostUpTo(board, c, j)| ==>
      Rank(LostUpTo(board, c, j)[a]) <= Rank(LostUpTo(board, c, j)[b])
  {
    if j > 0 {
      LostUpToOrdered(board, c, j - 1);
      OrderIsByRank();
      var front := LostUpTo(board, c, j - 1);
      var l := LostUpTo(board, c, j);
      assert forall a :: 0 <= a < |front| ==> l[a] == front[a];
      assert forall a :: |front| <= a < |l| ==> l[a] == Order[j - 1];
    }
  }

  lemma LostListIsCaptures(board: seq<Option<Piece>>, c: Side)
    ensures forall k :: multiset(LostList(board, c))[k] == (if k == King then 0 else Lost(board, Piece(c, k)))
    ensures forall a, b :: 0 <= a < b < |LostList(board, c)| ==> Rank(LostList(board, c)[a]) <= Rank(LostList(board, c)[b])
  {
    forall k ensures multiset(LostList(board, c))[k] == (if k == King then 0 else Lost(board, Piece(c, k))) {
      LostUpToCounts(board, c, |Order|, k);
    }
    LostUpToOrdered(board, c, |Order|);
  }

  function CountFn(board: seq<Option<Piece>>, c: Side): PieceKind -> nat
  {
    k => CountOf(board, Piece(c, k))
  }

  function LostFn(board: seq<Option<Piece>>, c: Side): PieceKind -> nat
  {
    k => Lost(board, Piece(c, k))
  }

  /** A side's material is the value of its counted pieces. */
  lemma {:induction false} MaterialByCounts(board: seq<Option<Piece>>, c: Side)
    ensures Material(board, c) == Weighted(CountFn(board, c))
  {
    if board != [] {
      var front := board[..|board| - 1];
      MaterialByCounts(front, c);
      var last := board[|board| - 1];
      var added := if last.Some? && last.value.color == c then Value(last.value.kind) else 0;
      var f, g := CountFn(front, c), CountFn(board, c);
      assert forall k :: g(k) == f(k) + (if last == Some(Piece(c, k)) then 1 else 0);
      WeightedStep(f, g, last, c);
    }
  }

  lemma WeightedStep(f: PieceKind -> nat, g: PieceKind -> nat, last: Option<Piece>, c: Side)
    requires forall k :: g(k) == f(k) + (if last == Some(Piece(c, k)) then 1 else 0)
    ensures Weighted(g) == Weighted(f) + (if last.Some? && last.value.color == c then Value(last.value.kind) else 0)
  {
  }

  /** Without promotions (no side holds more of a kind than it starts with), the
      material difference is the value White has captured minus the value Black
      has captured. */
  lemma DiffIsCapturedValue(board: seq<Option<Piece>>)
    requires forall c, k :: CountOf(board, Piece(c, k)) <= FullSet(k)
    ensures Material(board, White) - Material(board, Black) ==
            Weighted(LostFn(board, Black)) - Weighted(LostFn(board, White))
  {
    MaterialByCounts(board, White);
    MaterialByCounts(board, Black);
    assert forall c, k :: CountFn(board, c)(k) + LostFn(board, c)(k) == FullSet(k);
    FullSetSplits(CountFn(board, White), LostFn(board, White));
    FullSetSplits(CountFn(board, Black), LostFn(board, Black));
  }

  lemma FullSetSplits(count: PieceKind -> nat, lost: PieceKind -> nat)
    requires forall k :: count(k) + lost(k) == FullSet(k)
    ensures Weighted(count) + Weighted(lost) == 39
  {
  }

  // ---------------------------------------------------------------------------
  // The score label

  /** `+n` on the row of the side that leads by n, nothing when level; White's
      row is the bottom one when the board is seen from White. */
  function ScoreLabels(diff: int, orientationWhite: bool): (r: (string, string))
    ensures diff == 0 ==> r == ("", "")
    ensures diff != 0 ==>
      var leaderAtBottom := (diff > 0) == orientationWhite;
      var text := "+" + NatToString(if diff > 0 then diff else -diff);
      r == (if leaderAtBottom then ("", text) else (text, ""))
  {
    if diff == 0 then ("", "")
    else if diff > 0 then
      if orientationWhite then ("", "+" + NatToString(diff)) else ("+" + NatToString(diff), "")
    else
      if orientationWhite then ("+" + NatToString(-diff), "") else ("", "+" + NatToString(-diff))
  }

  /** Turning the board swaps the two labels, and so does swapping the
      colours of the pieces: the labels depend only on whether the leader sits
      at the bottom. */
  lemma ScoreLabelsFlip(diff: int, orientationWhite: bool)
    ensures var r := ScoreLabels(diff, orientationWhite);
      ScoreLabels(diff, !orientationWhite) == (r.1, r.0)
    ensures ScoreLabels(-diff, !orientationWhite) == ScoreLabels(diff, orientationWhite)
  {
  }

  /** The label reads back as the size of the lead. */
  lemma ScoreLabelReadsBack(diff: int, orientationWhite: bool)
    requires diff != 0
    ensures var r := ScoreLabels(diff, orientationWhite);
      var shown := if r.0 != "" then r.0 else r.1;
      (r.0 == "" || r.1 == "") && |shown| >= 2 && shown[0] == '+' &&
      ParseInt(shown[1..]) == Num(if diff > 0 then diff else -diff)
  {
    var n: nat := if diff > 0 then diff else -diff;
    ParseIntRoundTrip(n);
    assert ("+" + NatToString(n))[1..] == NatToString(n);
  }

  // ---------------------------------------------------------------------------
  // The computation

  /** A side-and-kind's slot among the ten counters. */
  function Slot(p: Piece): nat
    requires p.kind != King
    ensures Slot(p) < 10
  {
    (if p.color == White then 0 else 5) + Rank(p.kind)
  }

  /** Counts every piece but the kings, square by square. */
  method CountPieces(board: seq<Option<Piece>>) returns (counts: seq<nat>)
    ensures |counts| == 10
    ensures forall p: Piece :: p.kind != King ==> counts[Slot(p)] == CountOf(board, p)
  {
    counts := seq(10, _ => 0);
    var i := 0;
    while i < |board|
      invariant 0 <= i <= |board| && |counts| == 10
      invariant forall p: Piece :: p.kind != King ==> counts[Slot(p)] == CountOf(board[..i], p)
    {
      assert board[..i + 1][..i] == board[..i];
      var sq := board[i];
      if sq.Some? && sq.value.kind != King {
        counts := counts[Slot(sq.value) := counts[Slot(sq.value)] + 1];
        assert forall p: Piece :: p.kind != King && p != sq.value ==> Slot(p) != Slot(sq.value);
      }
      i := i + 1;
    }
    assert board[..i] == board;
  }

  /** Lists each side's lost pieces kind by kind, in `Order`. */
  method CollectLost(board: seq<Option<Piece>>, counts: seq<nat>) returns (wCaptured: seq<PieceKind>, bCaptured: seq<PieceKind>)
    requires |counts| == 10
    requires forall p: Piece :: p.kind != King ==> counts[Slot(p)] == CountOf(board, p)
    ensures wCaptured == LostList(board, White) && bCaptured == LostList(board, Black)
  {
    wCaptured, bCaptured := [], [];
    var j := 0;
    while j < |Order|
      invariant 0 <= j <= |Order|
      invariant wCaptured == LostUpTo(board, White, j) && bCaptured == LostUpTo(board, Black, j)
    {
      var kind := Order[j];
      var full := FullSet(kind);
      var wCount := counts[Slot(Piece(White, kind))];
      var wLost := if full > wCount then full - wCount else 0;
      var i := 0;
      while i < wLost
        invariant 0 <= i <= wLost
        invariant wCaptured == LostUpTo(board, White, j) + Repeat(kind, i)
      {
        wCaptured := wCaptured + [kind];
        i := i + 1;
      }
      var bCount := counts[Slot(Piece(Black, kind))];
      var bLost := if full > bCount then full - bCount else 0;
      i := 0;
      while i < bLost
        invariant 0 <= i <= bLost
        invariant bCaptured == LostUpTo(board, Black, j) + Repeat(kind, i)
        invariant wCaptured == LostUpTo(board, White, j + 1)
      {
        bCaptured := bCaptured + [kind];
        i := i + 1;
      }
      j := j + 1;
    }
  }

  /** White's material minus Black's. */
  method MaterialDiff(board: seq<Option<Piece>>) returns (diff: int)
    ensures diff == Material(board, White) - Material(board, Black)
  {
    var wMaterial, bMaterial := 0, 0;
    var i := 0;
    while i < |board|
      invariant 0 <= i <= |board|
      invariant wMaterial == Material(board[..i], White) && bMaterial == Material(board[..i], Black)
    {
      assert board[..i + 1][..i] == board[..i];
      var sq := board[i];
      if sq.Some? && sq.value.kind != King {
        if sq.value.color == White {
          wMaterial := wMaterial + Value(sq.value.kind);
        } else {
          bMaterial := bMaterial + Value(sq.value.kind);
        }
      }
      i := i + 1;
    }
    assert board[..i] == board;
    diff := wMaterial - bMaterial;
  }

  function Flatten(groups: seq<seq<PieceKind>>): seq<PieceKind>
  {
    if groups == [] then [] else Flatten(groups[..|groups| - 1]) + groups[|groups| - 1]
  }

  /** Groups are the maximal runs of equal pieces: non-empty, each of one kind,
      neighbours of different kinds, and together the list itself. */
  predicate IsRuns(groups: seq<seq<PieceKind>>, pieces: seq<PieceKind>)
  {
    && Flatten(groups) == pieces
    && (forall g :: 0 <= g < |groups| ==> |groups[g]| > 0)
    && (forall g, a :: 0 <= g < |groups| && 0 <= a < |groups[g]| ==> groups[g][a] == groups[g][0])
    && (forall g :: 0 < g < |groups| ==> groups[g][0] != groups[g - 1][0])
  }

  lemma FlattenAppend(groups: seq<seq<PieceKind>>, last: seq<PieceKind>)
    ensures Flatten(groups + [last]) == Flatten(groups) + last
  {
    assert (groups + [last])[..|groups|] == groups;
  }

  /** A piece equal to the current run's pieces extends that run. */
  lemma ExtendRun(groups: seq<seq<PieceKind>>, current: seq<PieceKind>, pieces: seq<PieceKind>, p: PieceKind)
    requires IsRuns(groups + [current], pieces) && current[0] == p
    ensures IsRuns(groups + [current + [p]], pieces + [p])
  {
    var before := groups + [current];
    var gs := groups + [current + [p]];
    FlattenAppend(groups, current);
    FlattenAppend(groups, current + [p]);
    assert Flatten(gs) == pieces + [p];
    forall g | 0 <= g < |gs|
      ensures |gs[g]| > 0
      ensures forall a :: 0 <= a < |gs[g]| ==> gs[g][a] == gs[g][0]
      ensures g > 0 ==> gs[g][0] != gs[g - 1][0]
    {
      if g < |groups| {
        assert gs[g] == before[g];
        if g > 0 {
          assert gs[g - 1] == before[g - 1];
        }
      } else {
        assert gs[g] == current + [p] && before[g] == current;
        assert forall a :: 0 <= a < |current| ==> current[a] == current[0];
        if g > 0 {
          assert gs[g - 1] == before[g - 1];
        }
      }
    }
  }

  /** Any other piece starts a new run. */
  lemma StartRun(groups: seq<seq<PieceKind>>, current: seq<PieceKind>, pieces: seq<PieceKind>, p: PieceKind)
    requires IsRuns(groups + [current], pieces) && current[0] != p
    ensures IsRuns(groups + [current] + [[p]], pieces + [p])
  {
    FlattenAppend(groups + [current], [p]);
  }

  /** `renderGrouped`'s grouping: a piece equal to the one before it joins the
      current group, any other piece starts a new one. */
  method RenderGrouped(pieces: seq<PieceKind>) returns (groups: seq<seq<PieceKind>>)
    ensures IsRuns(groups, pieces)
    ensures pieces == [] <==> groups == []
  {
    if |pieces| == 0 {
      return [];
    }
    groups := [];
    var current: seq<PieceKind> := [pieces[0]];
    assert IsRuns(groups + [current], pieces[..1]);
    var i := 1;
    while i < |pieces|
      invariant 1 <= i <= |pieces|
      invariant IsRuns(groups + [current], pieces[..i])
      invariant |current| > 0 && current[0] == pieces[i - 1]
    {
      var p := pieces[i];
      assert pieces[..i + 1] == pieces[..i] + [p];
      if p == pieces[i - 1] {
        ExtendRun(groups, current, pieces[..i], p);
        current := current + [p];
      } else {
        StartRun(groups, current, pieces[..i], p);
        groups := groups + [current];
        current := [p];
      }
      i := i + 1;
    }
    groups := groups + [current];
    assert pieces[..i] == pieces;
  }

  /** What the two captured-pieces panels show: the grouped pieces of one colour
      each, and the score labels. */
  datatype CapturedPanels = CapturedPanels(
    topGroups: seq<seq<PieceKind>>, topColor: Side,
    bottomGroups: seq<seq<PieceKind>>, bottomColor: Side,
    topScore: string, bottomScore: string)

  /** `updateCapturedPieces`: seen from White, the top row (Black's player)
      shows the White pieces Black has taken and the bottom row the Black pieces
      White has taken; seen from Black, the other way round. The side that
      leads in material gets the `+n` label on its row. */
  method UpdateCapturedPieces(board: seq<Option<Piece>>, orientationWhite: bool) returns (panels: CapturedPanels)
    ensures panels.topColor == (if orientationWhite then White else Black)
    ensures panels.bottomColor == (if orientationWhite then Black else White)
    ensures IsRuns(panels.topGroups, LostList(board, panels.topColor))
    ensures IsRuns(panels.bottomGroups, LostList(board, panels.bottomColor))
    ensures (panels.topScore, panels.bottomScore) ==
            ScoreLabels(Material(board, White) - Material(board, Black), orientationWhite)
  {
    var counts := CountPieces(board);
    var wCaptured, bCaptured := CollectLost(board, counts);
    var diff := MaterialDiff(board);
    var top, bottom := if orientationWhite then wCaptured else bCaptured, if orientationWhite then bCaptured else wCaptured;
    var topGroups := RenderGrouped(top);
    var bottomGroups := RenderGrouped(bottom);
    var labels := ScoreLabels(diff, orientationWhite);
    panels := CapturedPanels(
      topGroups, if orientationWhite then White else Black,
      bottomGroups, if orientationWhite then Black else White,
      labels.0, labels.1);
  }
}
