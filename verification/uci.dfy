/**
 * The text protocol spoken with the search engine (UCI): reading the score out
 * of `info … score cp|mate <n> …` lines, the move out of `bestmove <m> …`
 * lines, and writing the `setoption` lines that set its playing strength.
 */
module Uci {
  import opened JsText

  /** The token after `score`: `cp`, `mate`, or anything else (also a missing token). */
  datatype ScoreType = Cp | Mate | Other

  function ScoreTypeOf(tok: Option<string>): ScoreType
  {
    if tok == Some("cp") then Cp else if tok == Some("mate") then Mate else Other
  }

  /** A score as the engine reports it, from the side to move's point of view. */
  datatype RawScore = RawScore(kind: ScoreType, value: JsNum)

  /** The score carried by an engine line: the line must start with `info`,
      contain `score`, and have a space-separated token equal to `score`; the
      next token is the type and the one after is read with `parseInt`. */
  function InfoScore(message: string): (r: Option<RawScore>)
    ensures r.Some? <==>
      StartsWith(message, "info") && Contains(message, "score") && "score" in Split(message, ' ')
  {
    if StartsWith(message, "info") && Contains(message, "score") then
      var parts := Split(message, ' ');
      var k := IndexOf(parts, "score");
      if k == -1 then None
      else Some(RawScore(ScoreTypeOf(Element(parts, k + 1)), ParseIntOf(Element(parts, k + 2))))
    else None
  }

  /** Lines starting with `bestmove` end an engine query. */
  predicate IsBestMoveLine(message: string)
  {
    StartsWith(message, "bestmove")
  }

  /** The token after `bestmove` (`undefined` when there is none). */
  function BestMoveArg(message: string): Option<string>
  {
    Element(Split(message, ' '), 1)
  }

  // ---------------------------------------------------------------------------
  // Lines as the engine writes them

  /** Tokens that can be joined by single spaces and split apart again: none holds a space. */
  predicate WellFormedTokens(tokens: seq<string>)
  {
    forall i :: 0 <= i < |tokens| ==> ' ' !in tokens[i]
  }

  lemma {:induction false} JoinAppend(a: seq<string>, b: seq<string>, sep: char)
    requires |a| >= 1 && |b| >= 1
    ensures Join(a + b, sep) == Join(a, sep) + [sep] + Join(b, sep)
    decreases |a|
  {
    if |a| == 1 {
      assert (a + b)[1..] == b;
    } else {
      assert (a + b)[1..] == a[1..] + b;
      JoinAppend(a[1..], b, sep);
    }
  }

  lemma JoinStartsWithFirst(tokens: seq<string>, sep: char)
    requires |tokens| >= 1
    ensures StartsWith(Join(tokens, sep), tokens[0])
  {
    if |tokens| > 1 {
      assert Join(tokens, sep) == tokens[0] + ([sep] + Join(tokens[1..], sep));
    }
  }

  lemma IntToStringHasNoSpace(n: int)
    ensures ' ' !in IntToString(n)
  {
    var m: nat := if n < 0 then -n else n;
    assert forall i :: 0 <= i < |NatToString(m)| ==> IsDecimalDigit(NatToString(m)[i]);
  }

  /** Every token of a joined line occurs in it. */
  lemma JoinContainsToken(tokens: seq<string>, k: nat, sep: char)
    requires k < |tokens|
    ensures Contains(Join(tokens, sep), tokens[k])
  {
    var line := Join(tokens, sep);
    if k == 0 {
      JoinStartsWithFirst(tokens, sep);
    } else {
      var front, back := tokens[..k], tokens[k..];
      assert tokens == front + back;
      JoinAppend(front, back, sep);
      JoinStartsWithFirst(back, sep);
      var at := |Join(front, sep)| + 1;
      assert line[at..] == Join(back, sep);
      assert OccursAt(line, tokens[k], at);
      ContainsIsOccurrence(line, tokens[k]);
    }
  }

  lemma TokensWellFormed(before: seq<string>, kind: string, n: int, after: seq<string>)
    requires kind == "cp" || kind == "mate"
    requires WellFormedTokens(before) && WellFormedTokens(after)
    ensures WellFormedTokens(before + ["score", kind, IntToString(n)] + after)
  {
    var tokens := before + ["score", kind, IntToString(n)] + after;
    IntToStringHasNoSpace(n);
    forall i | 0 <= i < |tokens| ensures ' ' !in tokens[i] {
      if i < |before| {
        assert tokens[i] == before[i];
      } else if i >= |before| + 3 {
        assert tokens[i] == after[i - |before| - 3];
      }
    }
  }

  /** An engine line `<before…> score <kind> <n> <after…>`, where `before` starts
      with `info` and does not itself hold a `score` token, reports exactly
      `kind` and `n`. */
  lemma InfoScoreOfEngineLine(before: seq<string>, kind: string, n: int, after: seq<string>)
    requires |before| >= 1 && before[0] == "info"
    requires "score" !in before
    requires kind == "cp" || kind == "mate"
    requires WellFormedTokens(before) && WellFormedTokens(after)
    ensures InfoScore(Join(before + ["score", kind, IntToString(n)] + after, ' ')) ==
            Some(RawScore(if kind == "cp" then Cp else Mate, Num(n)))
  {
    var tokens := before + ["score", kind, IntToString(n)] + after;
    var line := Join(tokens, ' ');
    var k := |before|;
    TokensWellFormed(before, kind, n, after);
    SplitJoin(tokens, ' ');
    JoinStartsWithFirst(tokens, ' ');
    JoinContainsToken(tokens, k, ' ');
    assert tokens[..k] == before;
    assert IndexOf(tokens, "score") == k;
    assert Element(tokens, k + 1) == Some(kind);
    assert Element(tokens, k + 2) == Some(IntToString(n));
    ParseIntRoundTrip(n);
  }

  // ---------------------------------------------------------------------------
  // The engine's move in a live game

  /** `s.substring(from, to)` for `from <= to`, clamped to the string. */
  function Substring(s: string, from: nat, to: nat): (r: string)
    requires from <= to
    ensures |r| <= to - from
  {
    var a := if from < |s| then from else |s|;
    var b := if to < |s| then to else |s|;
    s[a..b]
  }

  datatype MoveRequest = MoveRequest(from: string, to: string, promotion: string)

  /** In a live game a `bestmove` line with a non-empty move token becomes a move
      request: two characters of origin square, two of target square, and the
      fifth character as promotion piece, a queen when there is none. */
  function LiveEngineMove(message: string): (r: Option<MoveRequest>)
    ensures r.Some? ==> IsBestMoveLine(message) && |r.value.promotion| == 1
  {
    if IsBestMoveLine(message) then
      match BestMoveArg(message)
      case Some(m) =>
        if m == [] then None
        else Some(MoveRequest(Substring(m, 0, 2), Substring(m, 2, 4), if |m| > 4 then [m[4]] else "q"))
      case None => None
    else None
  }

  /** The move of `bestmove <from><to>[<promotion>] …` comes back unchanged,
      with a queen filled in when no promotion piece was written. */
  lemma LiveEngineMoveRoundTrip(from: string, to: string, promotion: string, rest: seq<string>)
    requires |from| == 2 && |to| == 2 && |promotion| <= 1
    requires ' ' !in from && ' ' !in to && ' ' !in promotion
    requires WellFormedTokens(rest)
    ensures LiveEngineMove(Join(["bestmove", from + to + promotion] + rest, ' ')) ==
            Some(MoveRequest(from, to, if promotion == [] then "q" else promotion))
  {
    var m := from + to + promotion;
    var tokens := ["bestmove", m] + rest;
    assert ' ' !in m by {
      assert forall i :: 0 <= i < |m| ==> m[i] == (if i < 2 then from[i] else if i < 4 then to[i - 2] else promotion[i - 4]);
    }
    assert WellFormedTokens(tokens) by {
      forall i | 0 <= i < |tokens| ensures ' ' !in tokens[i] {
        if i >= 2 {
          assert tokens[i] == rest[i - 2];
        }
      }
    }
    SplitJoin(tokens, ' ');
    JoinStartsWithFirst(tokens, ' ');
    assert m[0..2] == from;
    assert m[2..4] == to;
    if |promotion| == 1 {
      assert [m[4]] == promotion;
    }
  }

  // ---------------------------------------------------------------------------
  // Playing strength

  /** `round((elo - 400) / 2800 * 20)` clamped to 0..20, in exact arithmetic:
      rounding half up of (elo - 400) / 140 is the floor of (2 * elo - 660) / 280. */
  function SkillLevel(elo: int): (r: nat)
    ensures r <= 20
    ensures r == 0 <==> elo < 470
    ensures r == 20 <==> elo >= 3130
    ensures 0 < r < 20 ==> 140 * (2 * r - 1) <= 2 * (elo - 400) < 140 * (2 * r + 1)
  {
    var level := (2 * elo - 660) / 280;
    if level < 0 then 0 else if level > 20 then 20 else level
  }

  lemma SkillLevelMonotone(lo: int, hi: int)
    requires lo <= hi
    ensures SkillLevel(lo) <= SkillLevel(hi)
  {
  }

  /** The lines `configureEngine` sends, nothing without an engine; each is its
      words joined by single spaces. */
  function ConfigureEngine(elo: int, engineLoaded: bool): seq<string>
  {
    if !engineLoaded then []
    else
      [ Join(["setoption", "name", "Skill", "Level", "value", NatToString(SkillLevel(elo))], ' '),
        Join(["setoption", "name", "UCI_LimitStrength", "value", "true"], ' '),
        Join(["setoption", "name", "UCI_Elo", "value", IntToString(elo)], ' ') ]
  }

  /** The skill line carries the level's numeral as its sixth word. */
  lemma SkillLineReadBack(level: nat)
    ensures Element(Split(Join(["setoption", "name", "Skill", "Level", "value", NatToString(level)], ' '), ' '), 5)
      == Some(NatToString(level))
  {
    var words := ["setoption", "name", "Skill", "Level", "value", NatToString(level)];
    assert WellFormedTokens(words) by {
      var digits := NatToString(level);
      assert forall i :: 0 <= i < |digits| ==> IsDecimalDigit(digits[i]);
    }
    SplitJoin(words, ' ');
  }

  /** The Elo line carries the Elo's numeral as its fifth word. */
  lemma EloLineReadBack(elo: int)
    ensures Element(Split(Join(["setoption", "name", "UCI_Elo", "value", IntToString(elo)], ' '), ' '), 4)
      == Some(IntToString(elo))
  {
    var words := ["setoption", "name", "UCI_Elo", "value", IntToString(elo)];
    IntToStringHasNoSpace(elo);
    assert WellFormedTokens(words);
    SplitJoin(words, ' ');
  }

  /** The engine reads back the skill level and the Elo that were configured. */
  lemma ConfigureEngineReadBack(elo: int)
    ensures |ConfigureEngine(elo, true)| == 3
    ensures Element(Split(ConfigureEngine(elo, true)[0], ' '), 5) == Some(NatToString(SkillLevel(elo)))
    ensures ParseInt(NatToString(SkillLevel(elo))) == Num(SkillLevel(elo))
    ensures Element(Split(ConfigureEngine(elo, true)[2], ' '), 4) == Some(IntToString(elo))
    ensures ParseInt(IntToString(elo)) == Num(elo)
  {
    SkillLineReadBack(SkillLevel(elo));
    EloLineReadBack(elo);
    ParseIntRoundTrip(SkillLevel(elo));
    ParseIntRoundTrip(elo);
  }
}
