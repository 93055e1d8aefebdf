/**
 * The row scorer: two categorical match scores against the history's
 * profiles and three continuous closeness scores against the pool's
 * statistics, combined by the engine's weight vector.
 */
module Scoring {
  import opened Wrappers
  import opened Catalog
  import opened Profile

  function Abs(x: real): real {
    if x < 0.0 then -x else x
  }

  function Max(a: real, b: real): real {
    if a >= b then a else b
  }

  /**
   * How strongly the history votes for value `v`, relative to its length:
   * a value no history song has scores 0.
   */
  function MatchScore(p: Profile, v: int): (r: real)
    requires p.n > 0
    ensures v !in p.weight ==> r == 0.0
    ensures v in p.weight ==> r * p.n as real == p.weight[v]
    ensures (forall u :: u in p.weight ==> p.weight[u] >= 0.0) ==> r >= 0.0
    ensures VotesWithin(p) ==> 0.0 <= r <= 1.0
  {
    (if v in p.weight then p.weight[v] else 0.0) / p.n as real
  }

  /**
   * The match score against a profile built from the history is the
   * history's vote for the value divided by the history length, so it lies
   * in [0, 1] when every confidence does.
   */
  lemma {:induction false} MatchScoreOfHistory(hs: seq<Song>, f: Feature, v: int)
    requires |hs| > 0
    ensures MatchScore(BuildProfile(hs, f), v) == VoteSum(hs, f, v) / |hs| as real
    ensures (forall i :: 0 <= i < |hs| ==> 0.0 <= ConfidenceOf(hs[i], f) <= 1.0) ==>
      0.0 <= MatchScore(BuildProfile(hs, f), v) <= 1.0
  {
    var p := BuildProfile(hs, f);
    if v !in p.weight {
      NoVoteUnseen(hs, f, v);
    }
    if forall i :: 0 <= i < |hs| ==> 0.0 <= ConfidenceOf(hs[i], f) <= 1.0 {
      VoteSumBounds(hs, f, v);
      QuotientBounds(VoteSum(hs, f, v), |hs| as real);
    }
  }

  /** With confidences in [0, 1], the vote lies between 0 and the history length. */
  lemma {:induction false} VoteSumBounds(hs: seq<Song>, f: Feature, v: int)
    requires forall i :: 0 <= i < |hs| ==> 0.0 <= ConfidenceOf(hs[i], f) <= 1.0
    ensures 0.0 <= VoteSum(hs, f, v) <= |hs| as real
  {
    if hs != [] {
      assert forall i :: 0 <= i < |hs[1..]| ==> hs[1..][i] == hs[i + 1];
      VoteSumBounds(hs[1..], f, v);
    }
  }

  /** A share of at most the whole lies in [0, 1]. */
  lemma {:induction false} QuotientBounds(w: real, n: real)
    requires 0.0 <= w <= n && n > 0.0
    ensures 0.0 <= w / n <= 1.0
  {
  }

  /** Dividing by a positive number preserves the order. */
  lemma {:induction false} DivideMonotone(a: real, b: real, s: real)
    requires s > 0.0 && a <= b
    ensures a / s <= b / s
  {
  }

  /**
   * Continuous closeness of `x` to the mean, in units of the standard
   * deviation: 1 at the mean, decaying linearly to 0 at one deviation and
   * beyond; 0 whenever the deviation is 0.
   */
  function Closeness(mean: real, std: NonNegReal, x: real): (r: real)
    ensures 0.0 <= r <= 1.0
    ensures std == 0.0 ==> r == 0.0
    ensures std > 0.0 && x == mean ==> r == 1.0
    ensures Abs(mean - x) >= std ==> r == 0.0
    ensures std > 0.0 && Abs(mean - x) < std ==> r == 1.0 - Abs(mean - x) / std
  {
    if std == 0.0 then 0.0
    else
      SplitQuotient(std, Abs(mean - x));
      Max((std - Abs(mean - x)) / std, 0.0)
  }

  lemma {:induction false} SplitQuotient(s: real, d: real)
    requires s > 0.0
    ensures (s - d) / s == 1.0 - d / s
  {
    assert (s - d) / s == s / s - d / s;
  }

  /** The farther from the mean, the lower the closeness. */
  lemma {:induction false} ClosenessAntitone(mean: real, std: NonNegReal, x: real, y: real)
    requires Abs(mean - x) <= Abs(mean - y)
    ensures Closeness(mean, std, x) >= Closeness(mean, std, y)
  {
    if std > 0.0 && Abs(mean - y) < std {
      DivideMonotone(Abs(mean - x), Abs(mean - y), std);
    }
  }

  /**
   * The closeness as numpy evaluates it, `None` standing for NaN: a zero
   * deviation divides by zero, which gives NaN at the mean (0/0, and the
   * maximum of NaN and 0 is NaN) and minus infinity elsewhere (clamped to 0).
   */
  function ClosenessAsWritten(mean: real, std: NonNegReal, x: real): (r: Option<real>)
    ensures std > 0.0 ==> r == Some(Closeness(mean, std, x))
    ensures std == 0.0 ==> (r.None? <==> x == mean)
    ensures std == 0.0 && x != mean ==> r == Some(0.0)
  {
    if std == 0.0 then (if x == mean then None else Some(0.0))
    else Some(Max((std - Abs(mean - x)) / std, 0.0))
  }

  /** Mean and population standard deviation of one continuous feature over the pool. */
  datatype Spread = Spread(mean: real, std: NonNegReal)

  /** Everything a row is scored against. */
  datatype Context = Context(
    weights: Weights,
    keyProfile: Profile,
    modeProfile: Profile,
    loudness: Spread,
    duration: Spread,
    tempo: Spread)
  {
    /** Both profiles come from a non-empty history. */
    predicate Ready() {
      keyProfile.n > 0 && modeProfile.n > 0
    }
  }

  /** The five sub-scores, in weight-vector order. */
  datatype SubScores = SubScores(key: real, mode: real, loudness: real, duration: real, tempo: real)
  {
    predicate NonNegative() {
      key >= 0.0 && mode >= 0.0 && loudness >= 0.0 && duration >= 0.0 && tempo >= 0.0
    }

    /** Every sub-score is at most the corresponding one of `other`. */
    predicate AtMost(other: SubScores) {
      key <= other.key && mode <= other.mode && loudness <= other.loudness
      && duration <= other.duration && tempo <= other.tempo
    }
  }

  function SubScoresOf(ctx: Context, s: Song): (sc: SubScores)
    requires ctx.Ready()
    ensures 0.0 <= sc.loudness <= 1.0 && 0.0 <= sc.duration <= 1.0 && 0.0 <= sc.tempo <= 1.0
    ensures s.key !in ctx.keyProfile.weight ==> sc.key == 0.0
    ensures s.mode !in ctx.modeProfile.weight ==> sc.mode == 0.0
  {
    SubScores(
      MatchScore(ctx.keyProfile, s.key),
      MatchScore(ctx.modeProfile, s.mode),
      Closeness(ctx.loudness.mean, ctx.loudness.std, s.loudness),
      Closeness(ctx.duration.mean, ctx.duration.std, s.duration),
      Closeness(ctx.tempo.mean, ctx.tempo.std, s.tempo))
  }

  /** One weighted term of the score: never lower for a higher sub-score when the weight is non-negative. */
  function Term(w: real, x: real): (r: real)
    ensures w >= 0.0 && x >= 0.0 ==> r >= 0.0
    ensures w >= 0.0 && x <= 1.0 ==> r <= w
  {
    w * x
  }

  lemma {:induction false} TermMonotone(w: real, x: real, y: real)
    requires w >= 0.0 && x <= y
    ensures Term(w, x) <= Term(w, y)
  {
    assert Term(w, y) - Term(w, x) == Term(w, y - x);
  }

  /**
   * The weighted sum of the sub-scores. With non-negative weights it is
   * non-negative for non-negative sub-scores and at most the weights' total
   * for sub-scores of at most 1.
   */
  function Dot(w: Weights, sc: SubScores): (r: real)
    ensures w.NonNegative() && sc.NonNegative() ==> r >= 0.0
    ensures w.NonNegative() && sc.AtMost(SubScores(1.0, 1.0, 1.0, 1.0, 1.0)) ==> r <= w.Total()
  {
    Term(w.key, sc.key) + Term(w.mode, sc.mode) + Term(w.loudness, sc.loudness)
    + Term(w.duration, sc.duration) + Term(w.tempo, sc.tempo)
  }

  /** Raising any sub-score never lowers the weighted sum. */
  lemma {:induction false} DotMonotone(w: Weights, a: SubScores, b: SubScores)
    requires w.NonNegative()
    requires a.AtMost(b)
    ensures Dot(w, a) <= Dot(w, b)
  {
    TermMonotone(w.key, a.key, b.key);
    TermMonotone(w.mode, a.mode, b.mode);
    TermMonotone(w.loudness, a.loudness, b.loudness);
    TermMonotone(w.duration, a.duration, b.duration);
    TermMonotone(w.tempo, a.tempo, b.tempo);
  }

  /** Every vote of the profile lies between 0 and the number of songs it was built from. */
  predicate VotesWithin(p: Profile) {
    forall v :: v in p.weight ==> 0.0 <= p.weight[v] <= p.n as real
  }

  /** A profile built from confidences in [0, 1] has every vote between 0 and the history length. */
  lemma {:induction false} ProfileVotesWithin(hs: seq<Song>, f: Feature)
    requires forall i :: 0 <= i < |hs| ==> 0.0 <= ConfidenceOf(hs[i], f) <= 1.0
    ensures VotesWithin(BuildProfile(hs, f))
  {
    var p := BuildProfile(hs, f);
    forall v | v in p.weight
      ensures 0.0 <= p.weight[v] <= p.n as real
    {
      VoteSumBounds(hs, f, v);
    }
  }

  /**
   * The score of one row. With non-negative weights it is non-negative
   * when the profiles' votes are, and at most the weights' total when the
   * votes are at most the history length.
   */
  function RowScore(ctx: Context, s: Song): (r: real)
    requires ctx.Ready()
    ensures ctx.weights.NonNegative()
      && (forall v :: v in ctx.keyProfile.weight ==> ctx.keyProfile.weight[v] >= 0.0)
      && (forall v :: v in ctx.modeProfile.weight ==> ctx.modeProfile.weight[v] >= 0.0)
      ==> r >= 0.0
    ensures ctx.weights.NonNegative() && VotesWithin(ctx.keyProfile) && VotesWithin(ctx.modeProfile) ==>
      r <= ctx.weights.Total()
  {
    Dot(ctx.weights, SubScoresOf(ctx, s))
  }

  /** The row score as numpy evaluates it: NaN (`None`) as soon as one closeness is NaN. */
  function RowScoreAsWritten(ctx: Context, s: Song): (r: Option<real>)
    requires ctx.Ready()
    ensures ctx.loudness.std > 0.0 && ctx.duration.std > 0.0 && ctx.tempo.std > 0.0 ==>
      r == Some(RowScore(ctx, s))
    ensures (ctx.loudness.std == 0.0 && s.loudness == ctx.loudness.mean) ==> r.None?
  {
    var l := ClosenessAsWritten(ctx.loudness.mean, ctx.loudness.std, s.loudness);
    var d := ClosenessAsWritten(ctx.duration.mean, ctx.duration.std, s.duration);
    var t := ClosenessAsWritten(ctx.tempo.mean, ctx.tempo.std, s.tempo);
    if l.None? || d.None? || t.None? then None
    else
      Some(Dot(ctx.weights, SubScores(
        MatchScore(ctx.keyProfile, s.key), MatchScore(ctx.modeProfile, s.mode), l.value, d.value, t.value)))
  }

  /**
   * A pool of a single song: its mean is its own reading and its population
   * deviation is 0, so the engine scores it NaN and drops it, whereas the
   * intended score is a number.
   */
  lemma {:induction false} AsWrittenSingleRowIsNaN(ctx: Context, s: Song)
    requires ctx.Ready()
    requires ctx.loudness == Spread(s.loudness, 0.0)
    ensures RowScoreAsWritten(ctx, s).None?
    ensures SubScoresOf(ctx, s).loudness == 0.0
  {
  }
}
