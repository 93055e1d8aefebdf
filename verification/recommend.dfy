/**
 * The recommendation orchestrator: cold start for an empty history,
 * cascading pool selection over the ranked similar-artist groups with the
 * whole catalog as the last resort, scoring of the pool against the
 * history's profiles and the pool's statistics, and the best-scoring row
 * or a random row when no row is left.
 */
module Recommend {
  import opened Wrappers
  import opened Catalog
  import opened Similarity
  import opened Profile
  import opened Scoring

  /** What the engine reports: song id, title and the artist's display name. */
  datatype Recommendation = Recommendation(songId: SongId, title: string, artistName: string)

  /** `rec` reports row `s` of the catalog. */
  ghost predicate Describes(e: Engine, rec: Recommendation, s: Song) {
    && rec.songId == s.id
    && rec.title == s.title
    && s.artistId in e.artists
    && rec.artistName == e.artists[s.artistId].name
  }

  /** Reports row `s`; looking up its artist's display name fails for an unknown artist. */
  function Present(e: Engine, s: Song): (r: Result<Recommendation, Error>)
    ensures r.Success? <==> s.artistId in e.artists
    ensures r.Success? ==> Describes(e, r.value, s)
    ensures r.Failure? ==> r.error == UnknownArtist(s.artistId)
  {
    if s.artistId in e.artists then Success(Recommendation(s.id, s.title, e.artists[s.artistId].name))
    else Failure(UnknownArtist(s.artistId))
  }

  /**
   * Reports the row of the random draw, as the cold start and the last
   * resort do. On a catalog whose artists are all known it succeeds, and
   * every row is the one some draw yields.
   */
  function FromDraw(e: Engine, draw: nat): (r: Result<Recommendation, Error>)
    requires |e.songs| > 0
    ensures r.Success? ==> exists i :: 0 <= i < |e.songs| && Describes(e, r.value, e.songs[i])
    ensures r.Success? <==> e.songs[draw % |e.songs|].artistId in e.artists
    ensures r.Failure? ==> r.error.UnknownArtist? && r.error.artist !in e.artists && Named(e, r.error.artist)
    ensures draw < |e.songs| && r.Success? ==> Describes(e, r.value, e.songs[draw])
  {
    var s := Draw(e.songs, draw);
    assert e.songs[draw % |e.songs|] == s;
    Present(e, s)
  }

  /** The rows of `xs` satisfying `keep`, in order. */
  function Filter(xs: seq<Song>, keep: Song -> bool): (r: seq<Song>)
    ensures |r| <= |xs|
    ensures forall x :: x in r <==> x in xs && keep(x)
  {
    if xs == [] then []
    else if keep(xs[0]) then [xs[0]] + Filter(xs[1..], keep)
    else Filter(xs[1..], keep)
  }

  /** The complete rows of the group's artists and of the extra artist. */
  function GroupPool(e: Engine, group: seq<ArtistId>): (r: seq<Song>)
    ensures forall s :: s in r <==>
      s in e.songs && s.complete && (s.artistId in group || s.artistId == e.extraArtist)
  {
    Filter(e.songs, (s: Song) => s.complete && (s.artistId in group || s.artistId == e.extraArtist))
  }

  /** The rows of `pool` whose song is not in the history. */
  function WithoutHistory(pool: seq<Song>, history: seq<SongId>): (r: seq<Song>)
    ensures forall s :: s in r <==> s in pool && s.id !in history
  {
    Filter(pool, (s: Song) => s.id !in history)
  }

  /** The complete rows of the whole catalog. */
  function CompleteRows(e: Engine): (r: seq<Song>)
    ensures forall s :: s in r <==> s in e.songs && s.complete
  {
    Filter(e.songs, (s: Song) => s.complete)
  }

  /** A row that may be recommended: complete and not in the history. */
  ghost predicate Candidate(e: Engine, history: seq<SongId>, s: Song) {
    s in e.songs && s.complete && s.id !in history
  }

  /** The candidates a group contributes, together with the extra artist's. */
  function GroupCandidates(e: Engine, group: seq<ArtistId>, history: seq<SongId>): seq<Song> {
    WithoutHistory(GroupPool(e, group), history)
  }

  /** Group `j` is the first, in rank order, to contribute candidates. */
  ghost predicate FirstUsable(e: Engine, groups: seq<seq<ArtistId>>, history: seq<SongId>, j: nat) {
    && j < |groups|
    && GroupCandidates(e, groups[j], history) != []
    && forall i :: 0 <= i < j ==> GroupCandidates(e, groups[i], history) == []
  }

  /** No group contributes a candidate. */
  ghost predicate NoneUsable(e: Engine, groups: seq<seq<ArtistId>>, history: seq<SongId>) {
    forall i :: 0 <= i < |groups| ==> GroupCandidates(e, groups[i], history) == []
  }

  /**
   * The scoring pool: the candidates of the first group, in rank order,
   * that contributes any; when none does, every candidate of the catalog.
   * The pool is empty only when the catalog has no candidate at all.
   */
  function SelectPool(e: Engine, groups: seq<seq<ArtistId>>, history: seq<SongId>): (r: seq<Song>)
    ensures forall s :: s in r ==> Candidate(e, history, s)
    ensures r == [] <==> forall s :: s in e.songs ==> !Candidate(e, history, s)
    ensures || (exists j: nat :: FirstUsable(e, groups, history, j) && r == GroupCandidates(e, groups[j], history))
            || (NoneUsable(e, groups, history) && r == WithoutHistory(CompleteRows(e), history))
  {
    if groups == [] then
      var all := WithoutHistory(CompleteRows(e), history);
      assert all != [] ==> all[0] in all;
      all
    else
      var pool := GroupCandidates(e, groups[0], history);
      if pool != [] then
        assert pool[0] in pool;
        assert FirstUsable(e, groups, history, 0);
        pool
      else
        var rest := SelectPool(e, groups[1..], history);
        FirstUsableShift(e, groups, history);
        rest
  }

  /** Past an unusable first group, usability is that of the remaining groups. */
  lemma {:induction false} FirstUsableShift(e: Engine, groups: seq<seq<ArtistId>>, history: seq<SongId>)
    requires groups != [] && GroupCandidates(e, groups[0], history) == []
    ensures forall j: nat :: FirstUsable(e, groups[1..], history, j) ==>
      FirstUsable(e, groups, history, j + 1) && groups[1..][j] == groups[j + 1]
    ensures NoneUsable(e, groups[1..], history) ==> NoneUsable(e, groups, history)
  {
    assert forall i :: 1 <= i < |groups| ==> groups[1..][i - 1] == groups[i];
    forall j: nat | FirstUsable(e, groups[1..], history, j)
      ensures FirstUsable(e, groups, history, j + 1)
    {
      forall i | 0 <= i < j + 1
        ensures GroupCandidates(e, groups[i], history) == []
      {
        if i > 0 {
          assert groups[i] == groups[1..][i - 1];
        }
      }
    }
  }

  /**
   * The pool as the engine actually selects it. Excluding the history only
   * blanks the song-id cells of history rows, so the length test that
   * drives the cascade still counts them: the first group whose artists
   * (or the extra artist) own a complete row stops the cascade. The rows
   * returned still include the blanked history rows; the whole catalog,
   * incomplete rows included, is the last resort.
   */
  function SelectPoolAsWritten(e: Engine, groups: seq<seq<ArtistId>>): (r: seq<Song>)
    requires |groups| > 0
    ensures || (exists j: nat :: FirstNonEmpty(e, groups, j) && r == GroupPool(e, groups[j]))
            || ((forall i :: 0 <= i < |groups| ==> GroupPool(e, groups[i]) == []) && r == e.songs)
    decreases |groups|
  {
    var pool := GroupPool(e, groups[0]);
    if pool != [] then
      assert FirstNonEmpty(e, groups, 0);
      pool
    else if |groups| == 1 then e.songs
    else
      var rest := SelectPoolAsWritten(e, groups[1..]);
      assert forall i :: 1 <= i < |groups| ==> groups[1..][i - 1] == groups[i];
      assert forall j: nat :: FirstNonEmpty(e, groups[1..], j) ==> FirstNonEmpty(e, groups, j + 1) by {
        forall j: nat | FirstNonEmpty(e, groups[1..], j)
          ensures FirstNonEmpty(e, groups, j + 1)
        {
          forall i | 0 <= i < j + 1
            ensures GroupPool(e, groups[i]) == []
          {
            if i > 0 {
              assert groups[i] == groups[1..][i - 1];
            }
          }
        }
      }
      rest
  }

  /** Group `j` is the first, in rank order, whose artists own a complete row. */
  ghost predicate FirstNonEmpty(e: Engine, groups: seq<seq<ArtistId>>, j: nat) {
    && j < |groups|
    && GroupPool(e, groups[j]) != []
    && forall i :: 0 <= i < j ==> GroupPool(e, groups[i]) == []
  }

  /** The rows that keep a score after the final drop: complete and not in the history. */
  function Survivors(pool: seq<Song>, history: seq<SongId>): (r: seq<Song>)
    ensures forall s :: s in r <==> s in pool && s.complete && s.id !in history
  {
    WithoutHistory(Filter(pool, (s: Song) => s.complete), history)
  }

  /**
   * When every row the first ranked group contributes is a history song,
   * the engine's cascade stops at that group and no row survives the final
   * drop, so the random fallback is taken even though the catalog may hold
   * candidates, which the intended cascade finds.
   */
  lemma {:induction false} AsWrittenCascadeStopsEarly(e: Engine, groups: seq<seq<ArtistId>>, history: seq<SongId>)
    requires |groups| > 0 && GroupPool(e, groups[0]) != []
    requires forall s :: s in GroupPool(e, groups[0]) ==> s.id in history
    ensures SelectPoolAsWritten(e, groups) == GroupPool(e, groups[0])
    ensures Survivors(SelectPoolAsWritten(e, groups), history) == []
    ensures (exists s :: s in e.songs && Candidate(e, history, s)) ==> SelectPool(e, groups, history) != []
  {
    assert FirstNonEmpty(e, groups, 0);
    NoMemberEmpty(Survivors(GroupPool(e, groups[0]), history));
  }

  /** A sequence without members is empty. */
  lemma {:induction false} NoMemberEmpty(xs: seq<Song>)
    ensures (forall x :: x !in xs) ==> xs == []
  {
    assert xs != [] ==> xs[0] in xs;
  }

  /**
   * Catalog: s1 by A and s2 by B, both complete; A lists itself as similar,
   * B lists nobody; the extra artist is A. For the history [s1] the ranked
   * groups are [[A]], whose only row is s1, while s2 is a candidate: the
   * situation of `AsWrittenCascadeStopsEarly`.
   */
  lemma {:induction false} CascadeExample()
    ensures var s1 := Song("s1", "A", "t1", 200.0, -5.0, 120.0, 0, 1.0, 1, 1.0, true);
            var s2 := Song("s2", "B", "t2", 200.0, -5.0, 120.0, 0, 1.0, 1, 1.0, true);
            var e := Engine([s1, s2], map["A" := Artist("a", ["A"]), "B" := Artist("b", [])], DefaultWeights, "A");
            && RankSimilarArtists(e.artists, [s1]) == Success([["A"]])
            && GroupPool(e, ["A"]) == [s1]
            && Candidate(e, ["s1"], s2)
  {
    var s1 := Song("s1", "A", "t1", 200.0, -5.0, 120.0, 0, 1.0, 1, 1.0, true);
    var s2 := Song("s2", "B", "t2", 200.0, -5.0, 120.0, 0, 1.0, 1, 1.0, true);
    var e := Engine([s1, s2], map["A" := Artist("a", ["A"]), "B" := Artist("b", [])], DefaultWeights, "A");
    var ranked := RankSimilarArtists(e.artists, [s1]);
    assert SimilarLists(e.artists, [s1]) == [["A"]];
    assert Flatten([["A"]]) == ["A"] by {
      assert Flatten<ArtistId>([]) == [];
    }
    assert ranked.Success?;
    var groups := ranked.value;
    assert |Flatten(groups)| == 1 by {
      assert NoDup(Flatten(groups));
      assert forall a :: a in Flatten(groups) <==> a == "A";
    }
    assert groups == [["A"]] by {
      assert |groups| > 0 && |groups[0]| > 0;
      FlattenCons(groups[0], groups[1..]);
      assert groups == [groups[0]] + groups[1..];
      assert Flatten(groups) == groups[0] + Flatten(groups[1..]);
      assert |groups[0]| == 1 && |Flatten(groups[1..])| == 0;
      FlattenEmpty(groups[1..]);
      assert groups[0][0] == "A";
    }
    assert GroupPool(e, ["A"]) == [s1] by {
      var keep := (s: Song) => s.complete && (s.artistId in ["A"] || s.artistId == e.extraArtist);
      assert [s1, s2][1..] == [s2];
      assert [s2][1..] == [];
      assert Filter([s2], keep) == [];
      assert Filter([s1, s2], keep) == [s1];
    }
  }

  /**
   * On the catalog of `CascadeExample` the as-written cascade yields [s1]
   * (the engine's label lookup lists s1 twice, as group and as extra
   * artist), from which nothing survives the final drop, while the intended cascade
   * moves on to the whole catalog and yields [s2].
   */
  lemma {:induction false} CascadeExampleOutcome()
    ensures var s1 := Song("s1", "A", "t1", 200.0, -5.0, 120.0, 0, 1.0, 1, 1.0, true);
            var s2 := Song("s2", "B", "t2", 200.0, -5.0, 120.0, 0, 1.0, 1, 1.0, true);
            var e := Engine([s1, s2], map["A" := Artist("a", ["A"]), "B" := Artist("b", [])], DefaultWeights, "A");
            && SelectPoolAsWritten(e, [["A"]]) == [s1]
            && Survivors([s1], ["s1"]) == []
            && SelectPool(e, [["A"]], ["s1"]) == [s2]
  {
    var s1 := Song("s1", "A", "t1", 200.0, -5.0, 120.0, 0, 1.0, 1, 1.0, true);
    var s2 := Song("s2", "B", "t2", 200.0, -5.0, 120.0, 0, 1.0, 1, 1.0, true);
    var e := Engine([s1, s2], map["A" := Artist("a", ["A"]), "B" := Artist("b", [])], DefaultWeights, "A");
    var history := ["s1"];
    CascadeExample();
    AsWrittenCascadeStopsEarly(e, [["A"]], history);
    NoMemberEmpty(WithoutHistory([s1], history));
    SelectPoolFallsThrough(e, ["A"], history);
    FilterPair(s1, s2, (s: Song) => s.complete);
    FilterPair(s1, s2, (s: Song) => s.id !in history);
  }

  /** A single group that contributes no candidate hands over to the whole catalog. */
  lemma {:induction false} SelectPoolFallsThrough(e: Engine, group: seq<ArtistId>, history: seq<SongId>)
    requires GroupCandidates(e, group, history) == []
    ensures SelectPool(e, [group], history) == WithoutHistory(CompleteRows(e), history)
  {
    assert [group][1..] == [];
  }

  lemma {:induction false} FilterPair(a: Song, b: Song, keep: Song -> bool)
    ensures Filter([a, b], keep) == (if keep(a) then [a] else []) + (if keep(b) then [b] else [])
  {
    assert [a, b][1..] == [b];
    assert [b][1..] == [];
  }

  function Sum(xs: seq<real>): real {
    if xs == [] then 0.0 else xs[0] + Sum(xs[1..])
  }

  /** Some reading is at most `m` and some reading is at least `m`. */
  predicate Within(m: real, xs: seq<real>) {
    exists i, j :: 0 <= i < |xs| && 0 <= j < |xs| && xs[i] <= m <= xs[j]
  }

  /** The position of a least reading. */
  function Least(xs: seq<real>): (k: nat)
    requires |xs| > 0
    ensures k < |xs| && forall i :: 0 <= i < |xs| ==> xs[k] <= xs[i]
  {
    if |xs| == 1 then 0
    else
      var k := Least(xs[1..]) + 1;
      assert forall i :: 1 <= i < |xs| ==> xs[i] == xs[1..][i - 1];
      if xs[0] <= xs[k] then 0 else k
  }

  /** The position of a greatest reading. */
  function Greatest(xs: seq<real>): (k: nat)
    requires |xs| > 0
    ensures k < |xs| && forall i :: 0 <= i < |xs| ==> xs[i] <= xs[k]
  {
    if |xs| == 1 then 0
    else
      var k := Greatest(xs[1..]) + 1;
      assert forall i :: 1 <= i < |xs| ==> xs[i] == xs[1..][i - 1];
      if xs[0] >= xs[k] then 0 else k
  }

  /** The arithmetic mean of a non-empty column: it lies between its least and its greatest reading. */
  function Mean(xs: seq<real>): (m: real)
    requires |xs| > 0
    ensures Within(m, xs)
  {
    var lo, hi := Least(xs), Greatest(xs);
    SumBounds(xs, xs[lo], xs[hi]);
    QuotientWithin(Sum(xs), |xs| as real, xs[lo], xs[hi]);
    var m := Sum(xs) / |xs| as real;
    assert xs[lo] <= m <= xs[hi];
    m
  }

  lemma {:induction false} Distribute(n: real, c: real)
    ensures (n + 1.0) * c == c + n * c
  {
  }

  /** Readings in [lo, hi] sum to between n * lo and n * hi. */
  lemma {:induction false} SumBounds(xs: seq<real>, lo: real, hi: real)
    requires forall i :: 0 <= i < |xs| ==> lo <= xs[i] <= hi
    ensures |xs| as real * lo <= Sum(xs) <= |xs| as real * hi
  {
    if xs != [] {
      var n := |xs[1..]| as real;
      assert forall i :: 0 <= i < |xs[1..]| ==> xs[1..][i] == xs[i + 1];
      SumBounds(xs[1..], lo, hi);
      Distribute(n, lo);
      Distribute(n, hi);
      assert |xs| as real == n + 1.0;
    }
  }

  lemma {:induction false} QuotientWithin(s: real, n: real, lo: real, hi: real)
    requires n > 0.0 && n * lo <= s <= n * hi
    ensures lo <= s / n <= hi
  {
  }

  datatype Continuous = Loudness | Duration | Tempo

  function Reading(s: Song, c: Continuous): real {
    match c
    case Loudness => s.loudness
    case Duration => s.duration
    case Tempo => s.tempo
  }

  /** One continuous feature of every pool row, in pool order. */
  function Column(pool: seq<Song>, c: Continuous): (r: seq<real>)
    ensures |r| == |pool|
    ensures forall i :: 0 <= i < |pool| ==> r[i] == Reading(pool[i], c)
  {
    if pool == [] then [] else [Reading(pool[0], c)] + Column(pool[1..], c)
  }

  /**
   * Mean and deviation of one feature over the pool. The population
   * standard deviation is supplied by the caller as `deviation`.
   */
  function SpreadOf(pool: seq<Song>, c: Continuous, deviation: seq<real> -> NonNegReal): (sp: Spread)
    requires |pool| > 0
    ensures exists i, j :: 0 <= i < |pool| && 0 <= j < |pool| && Reading(pool[i], c) <= sp.mean <= Reading(pool[j], c)
    ensures sp.std == deviation(Column(pool, c)) && sp.std >= 0.0
  {
    Spread(Mean(Column(pool, c)), deviation(Column(pool, c)))
  }

  /** The resolved history rows and the selected scoring pool. */
  datatype Plan = Plan(history: seq<Song>, pool: seq<Song>)

  /**
   * Resolves the history, ranks the similar artists and selects the pool.
   * Fails on an unknown song or artist and when no artist is listed as
   * similar at all.
   */
  function PlanFor(e: Engine, history: seq<SongId>): (r: Result<Plan, Error>)
    ensures r.Success? ==> |r.value.history| == |history| > 0
    ensures r.Success? ==> forall i :: 0 <= i < |history| ==>
      && FindSong(e.songs, history[i]) == Some(r.value.history[i])
      && r.value.history[i] in e.songs && r.value.history[i].artistId in e.artists
    // the pool is the cascade over the ranked similar-artist groups of the history
    ensures r.Success? ==>
      && RankSimilarArtists(e.artists, r.value.history).Success?
      && r.value.pool == SelectPool(e, RankSimilarArtists(e.artists, r.value.history).value, history)
    ensures r.Success? ==> forall s :: s in r.value.pool ==> Candidate(e, history, s)
    ensures r.Success? ==> (r.value.pool == [] <==> forall s :: s in e.songs ==> !Candidate(e, history, s))
    ensures r.Failure? ==>
      || r.error.UnknownSong?
      || r.error == NoSimilarArtists
      || (r.error.UnknownArtist? && r.error.artist !in e.artists && Named(e, r.error.artist))
  {
    var hs :- ResolveHistory(e, history);
    var groups :- RankSimilarArtists(e.artists, hs);
    Success(Plan(hs, SelectPool(e, groups, history)))
  }

  /** The artist of the history song `id` lists at least one similar artist. */
  ghost predicate ListsSimilar(e: Engine, id: SongId)
    requires Resolvable(e, id)
  {
    e.artists[FindSong(e.songs, id).value.artistId].similar != []
  }

  /**
   * Planning succeeds exactly when every history id resolves and at least
   * one history song's artist lists a similar artist; an unknown song is
   * reported by its id, and a history whose artists list nobody fails with
   * `NoSimilarArtists`.
   */
  lemma {:induction false} PlanForOutcome(e: Engine, history: seq<SongId>)
    ensures PlanFor(e, history).Success? <==>
      && (forall i :: 0 <= i < |history| ==> Resolvable(e, history[i]))
      && exists i :: 0 <= i < |history| && ListsSimilar(e, history[i])
    ensures PlanFor(e, history).Failure? && PlanFor(e, history).error.UnknownSong? ==>
      PlanFor(e, history).error.song in history && FindSong(e.songs, PlanFor(e, history).error.song).None?
    ensures PlanFor(e, history).Failure? && PlanFor(e, history).error == NoSimilarArtists ==>
      forall i :: 0 <= i < |history| ==> (Resolvable(e, history[i]) && !ListsSimilar(e, history[i]))
  {
    var rh := ResolveHistory(e, history);
    if rh.Success? {
      var hs := rh.value;
      assert forall i :: 0 <= i < |history| ==>
        (ListsSimilar(e, history[i]) <==> e.artists[hs[i].artistId].similar != []);
    }
  }

  /** Everything the pool rows are scored against. */
  function ContextFor(e: Engine, plan: Plan, deviation: seq<real> -> NonNegReal): (ctx: Context)
    requires |plan.history| > 0 && |plan.pool| > 0
    ensures ctx.Ready() && ctx.weights == e.weights
    // the categorical profiles vote with the whole history
    ensures ctx.keyProfile == BuildProfile(plan.history, Key) && ctx.modeProfile == BuildProfile(plan.history, Mode)
    // the continuous means come from the pool's readings
    ensures Within(ctx.loudness.mean, Column(plan.pool, Loudness))
    ensures Within(ctx.duration.mean, Column(plan.pool, Duration))
    ensures Within(ctx.tempo.mean, Column(plan.pool, Tempo))
  {
    Context(
      e.weights,
      BuildProfile(plan.history, Key),
      BuildProfile(plan.history, Mode),
      SpreadOf(plan.pool, Loudness, deviation),
      SpreadOf(plan.pool, Duration, deviation),
      SpreadOf(plan.pool, Tempo, deviation))
  }

  /**
   * With non-negative weights and history confidences in [0, 1], every row
   * scores between 0 and the weights' total.
   */
  lemma {:induction false} ScoreBounded(e: Engine, plan: Plan, deviation: seq<real> -> NonNegReal, s: Song)
    requires |plan.history| > 0 && |plan.pool| > 0 && e.weights.NonNegative()
    requires forall i :: 0 <= i < |plan.history| ==>
      0.0 <= plan.history[i].keyConfidence <= 1.0 && 0.0 <= plan.history[i].modeConfidence <= 1.0
    ensures 0.0 <= RowScore(ContextFor(e, plan, deviation), s) <= e.weights.Total()
  {
    ProfileVotesWithin(plan.history, Key);
    ProfileVotesWithin(plan.history, Mode);
  }

  /** Row `k` of the pool scores at least as high as every other row. */
  ghost predicate Winner(ctx: Context, pool: seq<Song>, k: int)
    requires ctx.Ready()
  {
    && 0 <= k < |pool|
    && forall j :: 0 <= j < |pool| ==> RowScore(ctx, pool[j]) <= RowScore(ctx, pool[k])
  }

  /** The position of a best-scoring row; ties are not resolved in any promised way. */
  function BestIndex(ctx: Context, pool: seq<Song>): (k: nat)
    requires ctx.Ready() && |pool| > 0
    ensures k < |pool|
    ensures forall j :: 0 <= j < |pool| ==> RowScore(ctx, pool[j]) <= RowScore(ctx, pool[k])
  {
    if |pool| == 1 then 0
    else
      var k := BestIndex(ctx, pool[1..]) + 1;
      assert forall j :: 1 <= j < |pool| ==> pool[j] == pool[1..][j - 1];
      if RowScore(ctx, pool[0]) >= RowScore(ctx, pool[k]) then 0 else k
  }

  /**
   * Takes the best-scoring pool row or, when the pool is empty, the row of
   * the random draw, and reports it. Pool rows are candidates, so a ranked
   * pick is never a history song.
   */
  function Pick(e: Engine, history: seq<SongId>, plan: Plan, draw: nat, deviation: seq<real> -> NonNegReal)
    : (r: Result<Recommendation, Error>)
    requires Constructed(e) && |plan.history| > 0
    requires forall s :: s in plan.pool ==> Candidate(e, history, s)
    ensures plan.pool != [] && r.Success? ==>
      var ctx := ContextFor(e, plan, deviation);
      && r.value.songId !in history
      && exists k :: Winner(ctx, plan.pool, k) && Describes(e, r.value, plan.pool[k])
    ensures plan.pool == [] && r.Success? ==> exists i :: 0 <= i < |e.songs| && Describes(e, r.value, e.songs[i])
    ensures r.Failure? ==> r.error.UnknownArtist? && r.error.artist !in e.artists && Named(e, r.error.artist)
  {
    if plan.pool == [] then
      FromDraw(e, draw)
    else
      var ctx := ContextFor(e, plan, deviation);
      var k := BestIndex(ctx, plan.pool);
      assert Winner(ctx, plan.pool, k);
      assert Candidate(e, history, plan.pool[k]);
      Present(e, plan.pool[k])
  }

  /**
   * Recommends one song for the history. `draw` stands for the random
   * row sampled by the cold start and by the last-resort fallback;
   * `deviation` computes the population standard deviation of a column.
   */
  function Recommend(e: Engine, history: seq<SongId>, draw: nat, deviation: seq<real> -> NonNegReal)
    : (r: Result<Recommendation, Error>)
    requires Constructed(e)
    // cold start: some catalog song
    ensures history == [] && r.Success? ==> exists i :: 0 <= i < |e.songs| && Describes(e, r.value, e.songs[i])
    // ranked branch: the best-scoring pool row, never a history song
    ensures history != [] && PlanFor(e, history).Success? && PlanFor(e, history).value.pool != [] && r.Success? ==>
      var plan := PlanFor(e, history).value;
      var ctx := ContextFor(e, plan, deviation);
      && r.value.songId !in history
      && exists k :: Winner(ctx, plan.pool, k) && Describes(e, r.value, plan.pool[k])
    // last resort: some catalog song
    ensures history != [] && PlanFor(e, history).Success? && PlanFor(e, history).value.pool == [] && r.Success? ==>
      exists i :: 0 <= i < |e.songs| && Describes(e, r.value, e.songs[i])
    // failures
    ensures history != [] && PlanFor(e, history).Failure? ==> r == Failure(PlanFor(e, history).error)
    ensures r.Failure? && r.error.UnknownArtist? ==> r.error.artist !in e.artists && Named(e, r.error.artist)
    ensures r.Failure? && !r.error.UnknownArtist? ==> history != [] && PlanFor(e, history).Failure?
  {
    if history == [] then
      FromDraw(e, draw)
    else
      var plan :- PlanFor(e, history);
      Pick(e, history, plan, draw, deviation)
  }

  /** Every artist a catalog row names has an entry in the artist table. */
  ghost predicate ArtistsKnown(e: Engine) {
    forall s :: s in e.songs ==> s.artistId in e.artists
  }

  /**
   * On a catalog whose artists are all known, an empty history always gets
   * a recommendation, and every catalog song is the one some draw yields.
   */
  lemma {:induction false} ColdStartCoversCatalog(e: Engine, i: nat, deviation: seq<real> -> NonNegReal)
    requires Constructed(e) && ArtistsKnown(e) && i < |e.songs|
    ensures Recommend(e, [], i, deviation).Success?
    ensures Describes(e, Recommend(e, [], i, deviation).value, e.songs[i])
  {
    assert Recommend(e, [], i, deviation) == FromDraw(e, i);
    assert e.songs[i % |e.songs|] in e.songs;
  }

  /**
   * On a catalog whose artists are all known, a history of known songs of
   * which at least one has an artist with a similar artist always gets a
   * recommendation.
   */
  lemma {:induction false} RecommendSucceeds(e: Engine, history: seq<SongId>, draw: nat, deviation: seq<real> -> NonNegReal)
    requires Constructed(e) && ArtistsKnown(e)
    requires forall i :: 0 <= i < |history| ==> FindSong(e.songs, history[i]).Some?
    requires exists i :: (0 <= i < |history| && FindSong(e.songs, history[i]).value.artistId in e.artists
      && e.artists[FindSong(e.songs, history[i]).value.artistId].similar != [])
    ensures Recommend(e, history, draw, deviation).Success?
  {
    PlanForOutcome(e, history);
  }
}
