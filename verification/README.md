# SongRecommender in Dafny

A model of the recommendation engine `SongRecommender` in `recommender.py`.
Given a listening history of song ids, the engine recommends one song of its
catalog. It does so in four steps:

1. It ranks the artists listed as similar to the history's artists, by how
   often they are listed. Artists listed equally often form one group.
2. It builds confidence-weighted profiles of the history's musical key and
   mode.
3. It selects a scoring pool. This is the first ranked group, in rank order,
   that has any complete row among its songs and those of one extra artist
   fixed at construction. History songs are masked but still counted, so the
   engine can stop at a group whose only rows are history songs. When no
   group has a complete row, the pool is the whole catalog. The model's
   corrected cascade, `SelectPool`, instead takes the first group that leaves
   a candidate (a complete row that is not a history song); see
   "## Findings".
4. It scores every pool row against the profiles and against the pool's
   loudness, duration and tempo statistics. It recommends the best row, or a
   random row when no row keeps a score.

An empty history gets a random catalog song.

The project has six modules:

- `Wrappers` (`wrappers.dfy`): `Option` and `Result`.
- `Catalog` (`catalog.dfy`): the song and artist tables, engine construction and history lookup.
- `Similarity` (`similarity.dfy`): `get_similar_artists`.
- `Profile` (`profile.dfy`): `create_weight_dict`.
- `Scoring` (`scoring.dfy`): `get_row_score`.
- `Recommend` (`recommend.dfy`): `recommend`.

How the Python side is modelled:

- Each Python exception becomes a `Failure` of a `Result`.
- A random draw is a caller-supplied `draw: nat` that picks row `draw % |songs|`.
- `np.std` is a caller-supplied `deviation` function returning a non-negative real.
- Missing cells of a row are summarised by the row's `complete` flag, which is what `dropna` looks at.

Where the code and its documented intent differ, the model follows the code.
Where the code is evidently wrong, the model contains both the code as
written and a corrected definition (see "## Findings"); the rest of the model
uses the corrected definition. Concretely:

- An unknown history song id and an artist missing from the artist table
  both raise `KeyError` in the code (recommender.py:51, 89, 168, 218, 222).
  They are modelled as the failures `UnknownSong` and `UnknownArtist`. They
  are not skipped.
- When no history artist lists any similar artist, indexing the first entry
  of the empty count table raises (recommender.py:62). This is modelled as
  the failure `NoSimilarArtists`. It does not fall back.
- An empty catalog makes the construction-time sample fail
  (recommender.py:34). This is modelled as the failure `EmptyCatalog` of
  `NewEngine`.
- A ranked group may name artists with no row in the song table. The model
  treats them as contributing no row. This is what label lookup with missing
  labels followed by `dropna` does in the pandas generation the code targets
  (Python 2).

## Model

| member | source | states |
|---|---|---|
| Catalog.NewEngine | recommender.py:11-34 | construction fails exactly on an empty catalog; otherwise the engine keeps the tables and weights and its extra artist owns a catalog row |
| Catalog.Draw | recommender.py:165 | a random draw yields a catalog row, and every row is the one some draw yields |
| Catalog.FindSong | recommender.py:30 | looking up an id by the song-id index yields a row with that id, and yields nothing exactly when no row has it |
| Catalog.ResolveHistory | recommender.py:51 | every history id resolves to its catalog row, whose artist is in the artist table; it fails exactly when some id or its artist is missing, naming the missing song or a catalog artist absent from the table |
| Similarity.TallyOf | recommender.py:49-56 | the count table lists each artist listed as similar exactly once, and only those, with its number of occurrences across all the similar lists (duplicates counted again) |
| Similarity.Bump | recommender.py:53-56 | counting one more listed artist leaves the table's artists those it had plus that artist |
| Similarity.BumpCounts | recommender.py:53-56 | adding one listed artist to a correct count table gives the correct table for the longer list |
| Similarity.SortDesc | recommender.py:58-60 | the sorted table is a permutation of the count table with counts in non-increasing order |
| Similarity.Insert | recommender.py:58-60 | inserting an entry into a table sorted by descending count keeps it sorted and adds exactly that entry |
| Similarity.SortKeepsArtists | recommender.py:58-60 | sorting keeps exactly the same artists and keeps them distinct |
| Similarity.Runs | recommender.py:61-68 | the groups are non-empty, the first starts with the first table entry, and concatenated they give the table's artists in order |
| Similarity.SimilarLists | recommender.py:50-51 | one similar-artist list per history song, in history order, each the list of that song's artist |
| Similarity.RunsShared | recommender.py:63-67 | all members of a group share one frequency |
| Similarity.RunsDecreasing | recommender.py:63-67 | on a sorted table, each group's frequency is strictly larger than that of every later group |
| Similarity.RankSimilarArtists | recommender.py:36-70 | the result is a ranked partition of the artists listed as similar to the history's artists (non-empty groups, every listed artist exactly once, shared frequency inside a group, strictly decreasing between groups); it fails exactly when no artist is listed |
| Profile.Tabulate | recommender.py:88-94 | the table's keys are exactly the feature values seen in the history, and each maps to the summed confidence of the history songs having it |
| Profile.BuildProfile | recommender.py:86-94 | the normaliser is the history length and the weights are the confidence sums of the values seen |
| Profile.ProfileOrderIndependent | recommender.py:86-94 | reordering the history, duplicates included, leaves the profile unchanged |
| Profile.ConfidenceMonotone | recommender.py:90-93 | raising one history song's confidence, its value unchanged, lowers no weight |
| Profile.TabulateAsWritten | recommender.py:89-93 | the engine's table fails exactly when some feature value is not a valid row position; otherwise its keys are the values seen |
| Profile.TabulateAsWrittenWeights | recommender.py:89-93 | the engine's weight of a value is the confidence of the row at that position, added once per history song with the value |
| Profile.PositionalRow | recommender.py:91-93 | a feature value used as a row position reads a row exactly when it is a valid position, counting negative values from the end, and a non-negative position reads that row |
| Profile.BuildProfileAsWritten | recommender.py:86-94 | the engine's profile has the history length as normaliser and the same keys as the intended one; it fails exactly on an out-of-range position |
| Profile.AsWrittenReadsRowAtValue | recommender.py:91-93 | on a two-row table the engine weighs key 0 with 0.25, the first row's confidence, while the history song's own confidence is 0.75 |
| Scoring.MatchScore | recommender.py:127-128 | an unseen value scores 0; a seen value scores its weight divided by the normaliser |
| Scoring.MatchScoreOfHistory | recommender.py:127-128 | against a history profile, the categorical score is the vote share of the value, in [0, 1] when confidences are |
| Scoring.Closeness | recommender.py:130-143 | closeness lies in [0, 1]; it is 1 at the mean, 0 at one deviation or farther, 0 for a zero deviation, and linear in between |
| Scoring.ClosenessAntitone | recommender.py:131 | a reading farther from the mean never has a higher closeness |
| Scoring.ClosenessAsWritten | recommender.py:130-143 | with a positive deviation the engine's closeness is the intended one; with a zero deviation it is NaN exactly at the mean and 0 elsewhere |
| Scoring.SubScoresOf | recommender.py:125-143 | the three continuous sub-scores lie in [0, 1] and unseen key or mode values score 0 |
| Scoring.DotMonotone | recommender.py:145 | with non-negative weights, raising any sub-score never lowers the score |
| Scoring.Dot | recommender.py:145 | with non-negative weights the weighted sum is non-negative for non-negative sub-scores and at most the weights' total for sub-scores of at most 1 |
| Scoring.RowScore | recommender.py:125-145 | with non-negative weights a row scores at least 0 when the profile weights are non-negative, and at most the weights' total when every vote is at most the history length |
| Scoring.RowScoreAsWritten | recommender.py:125-145 | with positive deviations the engine's score is the intended one; a zero loudness deviation at the mean makes it NaN |
| Scoring.AsWrittenSingleRowIsNaN | recommender.py:130-133 | a one-row pool (zero deviation at the row's own reading) is scored NaN by the engine, whereas the intended loudness closeness is 0 |
| Recommend.Present | recommender.py:166-168 | reporting a row succeeds exactly when its artist is known, and then carries the row's id, title and artist name |
| Recommend.FromDraw | recommender.py:164-168 | reporting the drawn row yields a catalog row, succeeds exactly when its artist is known, and a draw below the catalog size reports that row |
| Recommend.GroupPool | recommender.py:172 | a group's rows are exactly the complete catalog rows by the group's artists or the extra artist |
| Recommend.WithoutHistory | recommender.py:173 | exactly the rows whose song is not in the history remain |
| Recommend.SelectPool | recommender.py:172-181 | the pool is the candidates of the first group, in rank order, that has any, or else every candidate of the catalog; it holds only candidates and is empty only when the catalog has none |
| Recommend.SelectPoolAsWritten | recommender.py:172-181 | the engine's cascade stops at the first group with any complete row, history rows included, and otherwise takes the whole catalog |
| Recommend.Survivors | recommender.py:212 | the rows keeping a score are the complete rows not in the history |
| Recommend.AsWrittenCascadeStopsEarly | recommender.py:172-181 | when the first group's rows are all history songs, no row of the engine's pool survives, while the intended pool is non-empty whenever the catalog has a candidate |
| Recommend.CascadeExample | recommender.py:171-181 | a two-song catalog where the first group's only row is the history song and the other song is a candidate |
| Recommend.CascadeExampleOutcome | recommender.py:171-181 | on that catalog the as-written cascade's pool is [s1] (the engine lists s1 twice), of which no row survives, while the intended pool is [s2] |
| Recommend.SelectPoolFallsThrough | recommender.py:174-181 | a single group without candidates hands over to every candidate of the catalog |
| Recommend.Mean | recommender.py:192-196 | the mean of a non-empty column lies between its least and its greatest reading |
| Recommend.Column | recommender.py:191-195 | a column holds one reading per pool row, in pool order |
| Recommend.SpreadOf | recommender.py:191-196 | the mean of a feature lies between two of the pool's readings of it, and the deviation is the supplied one of the pool's column |
| Recommend.PlanFor | recommender.py:171-187 | planning keeps the history rows in order, each the catalog row of its id; the pool is the cascade over the ranked similar-artist groups of those rows; it holds only candidates and is empty only when the catalog has none; failures are unknown songs, catalog artists missing from the table, or no similar artist |
| Recommend.PlanForOutcome | recommender.py:51-62 | planning succeeds exactly when every history id resolves and some history artist lists a similar artist |
| Recommend.ContextFor | recommender.py:184-196 | the rows are scored with the engine's weights, the key and mode profiles of the whole history, and continuous means that lie within the pool's readings |
| Recommend.ScoreBounded | recommender.py:96-145 | with non-negative weights and history confidences in [0, 1], every row scores between 0 and the weights' total |
| Recommend.BestIndex | recommender.py:212 | the chosen row scores at least as much as every pool row |
| Recommend.Pick | recommender.py:212-222 | a non-empty pool yields a best-scoring pool row, never a history song; an empty pool yields some catalog row; failure only names a catalog artist missing from the table |
| Recommend.Recommend | recommender.py:148-222 | an empty history gets a catalog song; otherwise the best-scoring candidate of the selected pool, never a history song, or a catalog song when no candidate exists; failures come from planning or from an artist missing from the table |
| Recommend.ColdStartCoversCatalog | recommender.py:164-168 | with all artists known, an empty history always gets a recommendation, and every catalog song is the one some draw yields |
| Recommend.RecommendSucceeds | recommender.py:148-222 | with all artists known, a history of known songs of which one has an artist with a similar artist always gets a recommendation |

## Left out

- `format_song_data.py` is not part of this model: it reads HDF5 files, builds and pickles the tables, and prints counts.
- `np.std` is not modelled. The population standard deviation of a column is the caller-supplied `deviation` function; only its non-negativity is used.
- The mean is modelled exactly. Floating point rounding, infinities and NaN are not modelled, except where "## Findings" models NaN as `None`.
- The random samples at recommender.py:34, 165 and 215 are a caller-supplied `draw`. Their uniformity is not modelled.
- Label lookup with a repeated label returns the extra artist's rows twice when that artist is also in the group (recommender.py:172). `GroupPool` lists each row once. The duplicates shift the mean and deviation, so they can change the winner: with loudness readings 0, 10, 4 and 7 where the 10 is counted twice, the mean moves from 5.25 to 6.2 and the best row from the 4 to the 7. The model's scores and winner can therefore differ from the engine's on such a pool.
- Recommend.SpreadOf: the engine's mean and deviation at recommender.py:191-196 are taken over every row of its pool, and that pool still holds the history rows, whose song-id cells alone `isin` blanks (recommender.py:173). In the fallback (recommender.py:180) the rows with missing cells are also kept, and their present cells count. `SpreadOf`, and so `ContextFor`, averages only the candidate rows. The model's scores, and so its winner, can differ from the engine's whenever the history or an incomplete row is in the engine's pool.
- Missing cells are modelled per row by `complete`, not per cell. The profiles read the history rows as they are (recommender.py:89-93).
- Output formatting (recommender.py:166-168, 220-222) becomes the `Recommendation` record of song id, title and artist name.
- Catalog.FindSong: for repeated song ids, label lookup returns every matching row; the model takes the first.
- Recommend.BestIndex: the sort at recommender.py:212 breaks ties arbitrarily; the model only promises a best score, not which of several equal rows.
- The mean of an empty pool is not modelled: the corrected pool is scored only when it is non-empty.

## Findings

| source | as written | input that shows it | evidently intended | confidence | as-written member | corrected member |
|---|---|---|---|---|---|---|
| recommender.py:91-93 | the confidence added for a history song is read at the row whose POSITION equals the song's key or mode value (negative values count from the end, values past the end raise) | rows s0 (key 5, confidence 0.25) and s1 (key 0, confidence 0.75), history [s1]: key 0 weighs 0.25 | each history song adds its own confidence to its value | high (not executed) | Profile.AsWrittenReadsRowAtValue | Profile.BuildProfile |
| recommender.py:173-181 | `isin` masks the song-id cells of history rows but keeps the rows, so the cascade's length test counts them and stops at a group whose only rows are history songs; the final `dropna` then leaves no row and a random catalog song, possibly a history song, is returned | s1 by A and s2 by B, A lists [A], B lists nobody, extra artist A, history [s1]: the engine's pool is s1 listed twice (the label list is [A] + [A]), the as-written member's pool is [s1], nothing survives in either, while s2 is a candidate | history songs are excluded before the emptiness test, so the cascade moves on and ends at the catalog's candidates | high (not executed) | Recommend.AsWrittenCascadeStopsEarly | Recommend.SelectPool |
| recommender.py:130-143 | with numpy floats a zero deviation does not raise `ZeroDivisionError`: at the mean the closeness is 0/0 = NaN, `max(NaN, 0)` stays NaN and the row is dropped at recommender.py:212 | a pool of one row: its deviation is 0 and its reading is the mean, so its score is NaN and the random fallback is taken | the `except ZeroDivisionError` branch: closeness 0 for a zero deviation | high (not executed) | Scoring.AsWrittenSingleRowIsNaN | Scoring.Closeness |
