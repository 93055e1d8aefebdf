/**
 * Similar-artist ranking: count how often each artist is listed as similar
 * to the artists of the history songs, sort the counts in descending order
 * and group artists of equal count into a ranked partition.
 */
module Similarity {
  import opened Wrappers
  import opened Catalog

  /** One entry of the frequency table: an artist and how often it was listed. */
  datatype Tally = Tally(artist: ArtistId, count: nat)

  /** Concatenation of a sequence of sequences. */
  function Flatten<T>(xss: seq<seq<T>>): seq<T>
  {
    if xss == [] then [] else xss[0] + Flatten(xss[1..])
  }

  /** The artists of a frequency table, in table order. */
  function Artists(t: seq<Tally>): (r: seq<ArtistId>)
    ensures |r| == |t|
    ensures forall i :: 0 <= i < |t| ==> r[i] == t[i].artist
  {
    if t == [] then [] else [t[0].artist] + Artists(t[1..])
  }

  predicate NoDup<T(==)>(xs: seq<T>) {
    forall i, j :: 0 <= i < j < |xs| ==> xs[i] != xs[j]
  }

  /** A sequence with a head is duplicate-free iff its tail is and misses the head. */
  lemma {:induction false} NoDupCons<T>(x: T, xs: seq<T>)
    ensures NoDup([x] + xs) <==> x !in xs && NoDup(xs)
  {
    var ys := [x] + xs;
    if x !in xs && NoDup(xs) {
      forall i, j | 0 <= i < j < |ys|
        ensures ys[i] != ys[j]
      {
        if i > 0 {
          assert ys[i] == xs[i - 1] && ys[j] == xs[j - 1];
        } else {
          assert ys[j] == xs[j - 1];
        }
      }
    }
    if NoDup(ys) {
      forall i, j | 0 <= i < j < |xs|
        ensures xs[i] != xs[j]
      {
        assert ys[i + 1] != ys[j + 1];
      }
      forall k | 0 <= k < |xs|
        ensures xs[k] != x
      {
        assert ys[0] != ys[k + 1];
      }
    }
  }

  lemma {:induction false} FlattenCons<T>(xs: seq<T>, xss: seq<seq<T>>)
    ensures Flatten([xs] + xss) == xs + Flatten(xss)
  {
    assert ([xs] + xss)[1..] == xss;
  }

  lemma {:induction false} ArtistsCons(x: Tally, t: seq<Tally>)
    ensures Artists([x] + t) == [x.artist] + Artists(t)
  {
  }

  /** How many times `a` occurs in the concatenated similar-artist lists. */
  function Freq(flat: seq<ArtistId>, a: ArtistId): nat {
    multiset(flat)[a]
  }

  /** Every entry of `t` records the true frequency of its artist in `flat`. */
  ghost predicate Consistent(t: seq<Tally>, flat: seq<ArtistId>) {
    forall i :: 0 <= i < |t| ==> t[i].count == Freq(flat, t[i].artist)
  }

  /** Adds one to the count of `a`, inserting `a` with count 1 when absent. */
  function Bump(t: seq<Tally>, a: ArtistId): (r: seq<Tally>)
    ensures forall b :: b in Artists(r) <==> b == a || b in Artists(t)
  {
    if t == [] then [Tally(a, 1)]
    else if t[0].artist == a then [Tally(a, t[0].count + 1)] + t[1..]
    else [t[0]] + Bump(t[1..], a)
  }

  /** Bumping keeps the artists of a table distinct. */
  lemma {:induction false} BumpNoDup(t: seq<Tally>, a: ArtistId)
    requires NoDup(Artists(t))
    ensures NoDup(Artists(Bump(t, a)))
  {
    if t != [] {
      var tl := t[1..];
      assert t == [t[0]] + tl;
      ArtistsCons(t[0], tl);
      NoDupCons(t[0].artist, Artists(tl));
      if t[0].artist == a {
        assert Bump(t, a) == [Tally(a, t[0].count + 1)] + tl;
        ArtistsCons(Tally(a, t[0].count + 1), tl);
        NoDupCons(a, Artists(tl));
      } else {
        var rest := Bump(tl, a);
        assert Bump(t, a) == [t[0]] + rest;
        BumpNoDup(tl, a);
        ArtistsCons(t[0], rest);
        NoDupCons(t[0].artist, Artists(rest));
      }
    }
  }

  /** Appending `a` adds one to the frequency of `a` and leaves every other frequency alone. */
  lemma FreqAppend(flat: seq<ArtistId>, a: ArtistId, b: ArtistId)
    ensures Freq(flat + [a], b) == Freq(flat, b) + (if a == b then 1 else 0)
  {
    assert multiset(flat + [a]) == multiset(flat) + multiset{a};
  }

  /** Bumping `a` turns a table of `flat` into a table of `flat + [a]`. */
  lemma {:induction false} BumpCounts(t: seq<Tally>, flat: seq<ArtistId>, a: ArtistId)
    requires NoDup(Artists(t))
    requires Consistent(t, flat)
    requires a !in Artists(t) ==> a !in flat
    ensures Consistent(Bump(t, a), flat + [a])
  {
    if t == [] {
      FreqAppend(flat, a, a);
      assert multiset(flat)[a] == 0;
    } else {
      var tl := t[1..];
      var r := Bump(t, a);
      assert t == [t[0]] + tl;
      ArtistsCons(t[0], tl);
      NoDupCons(t[0].artist, Artists(tl));
      if t[0].artist == a {
        assert r == [Tally(a, t[0].count + 1)] + tl;
        forall i | 0 <= i < |r|
          ensures r[i].count == Freq(flat + [a], r[i].artist)
        {
          FreqAppend(flat, a, r[i].artist);
          if i > 0 {
            assert r[i] == t[i] && Artists(tl)[i - 1] == t[i].artist;
          }
        }
      } else {
        var rest := Bump(tl, a);
        assert r == [t[0]] + rest;
        assert Consistent(tl, flat);
        BumpCounts(tl, flat, a);
        forall i | 0 <= i < |r|
          ensures r[i].count == Freq(flat + [a], r[i].artist)
        {
          if i > 0 {
            assert r[i] == rest[i - 1];
          } else {
            FreqAppend(flat, a, t[0].artist);
          }
        }
      }
    }
  }

  /**
   * The frequency table of `flat`, built one occurrence at a time: every
   * listed artist appears once, with the number of times it was listed.
   */
  function TallyOf(flat: seq<ArtistId>): (r: seq<Tally>)
    ensures NoDup(Artists(r))
    ensures forall a :: a in Artists(r) <==> a in flat
    ensures Consistent(r, flat)
  {
    if flat == [] then []
    else
      var init := flat[..|flat| - 1];
      var last := flat[|flat| - 1];
      var t := TallyOf(init);
      assert flat == init + [last];
      BumpNoDup(t, last);
      BumpCounts(t, init, last);
      Bump(t, last)
  }

  /** Counts never increase along the table. */
  predicate SortedDesc(t: seq<Tally>) {
    forall i, j :: 0 <= i < j < |t| ==> t[i].count >= t[j].count
  }

  /** Prepending an entry no smaller than every other keeps a table sorted. */
  lemma {:induction false} SortedCons(h: Tally, t: seq<Tally>)
    requires SortedDesc(t)
    requires forall y :: y in t ==> y.count <= h.count
    ensures SortedDesc([h] + t)
  {
    var r := [h] + t;
    forall i, j | 0 <= i < j < |r|
      ensures r[i].count >= r[j].count
    {
      assert r[j] == t[j - 1];
      if i > 0 {
        assert r[i] == t[i - 1];
      }
    }
  }

  /** Inserts `x` before the first entry whose count is not larger. */
  function Insert(x: Tally, t: seq<Tally>): (r: seq<Tally>)
    requires SortedDesc(t)
    ensures SortedDesc(r)
    ensures multiset(r) == multiset(t) + multiset{x}
  {
    if t == [] || x.count >= t[0].count then
      SortedCons(x, t);
      assert multiset([x] + t) == multiset{x} + multiset(t);
      [x] + t
    else
      var rest := Insert(x, t[1..]);
      assert t == [t[0]] + t[1..];
      assert multiset([t[0]] + rest) == multiset{t[0]} + multiset(rest);
      assert multiset(t) == multiset{t[0]} + multiset(t[1..]);
      SortedTail(t);
      BoundedPermutation(rest, t[1..], x, t[0].count);
      SortedCons(t[0], rest);
      [t[0]] + rest
  }

  /** No entry after the head of a sorted table has a larger count than the head. */
  lemma {:induction false} SortedTail(t: seq<Tally>)
    requires SortedDesc(t) && t != []
    ensures SortedDesc(t[1..])
    ensures forall y :: y in t[1..] ==> y.count <= t[0].count
  {
    forall y | y in t[1..]
      ensures y.count <= t[0].count
    {
      var k :| 0 <= k < |t[1..]| && t[1..][k] == y;
      assert t[k + 1] == y;
    }
  }

  /** A bound on every count carries over to a permutation with one entry added. */
  lemma {:induction false} BoundedPermutation(r: seq<Tally>, t: seq<Tally>, x: Tally, c: nat)
    requires multiset(r) == multiset(t) + multiset{x}
    requires x.count <= c && forall y :: y in t ==> y.count <= c
    ensures forall y :: y in r ==> y.count <= c
  {
    forall y | y in r
      ensures y.count <= c
    {
      assert y in multiset(r);
      if y != x {
        assert y in multiset(t);
      }
    }
  }

  /** The table sorted by descending count; entries of equal count keep no promised order. */
  function SortDesc(t: seq<Tally>): (r: seq<Tally>)
    ensures SortedDesc(r)
    ensures multiset(r) == multiset(t)
  {
    if t == [] then []
    else
      assert t == [t[0]] + t[1..];
      Insert(t[0], SortDesc(t[1..]))
  }

  /** Inserting `x` adds exactly the artist of `x` to the artists of the table. */
  lemma {:induction false} InsertArtists(x: Tally, t: seq<Tally>)
    requires SortedDesc(t)
    ensures forall b :: b in Artists(Insert(x, t)) <==> b == x.artist || b in Artists(t)
  {
    if t == [] || x.count >= t[0].count {
      assert Insert(x, t) == [x] + t;
      ArtistsCons(x, t);
    } else {
      var tl := t[1..];
      var rest := Insert(x, tl);
      assert t == [t[0]] + tl;
      assert Insert(x, t) == [t[0]] + rest;
      ArtistsCons(t[0], tl);
      InsertArtists(x, tl);
      ArtistsCons(t[0], rest);
    }
  }

  /** Inserting an artist not yet in a duplicate-free table keeps it duplicate-free. */
  lemma {:induction false} InsertNoDup(x: Tally, t: seq<Tally>)
    requires SortedDesc(t)
    requires NoDup(Artists(t)) && x.artist !in Artists(t)
    ensures NoDup(Artists(Insert(x, t)))
  {
    if t == [] || x.count >= t[0].count {
      assert Insert(x, t) == [x] + t;
      ArtistsCons(x, t);
      NoDupCons(x.artist, Artists(t));
    } else {
      var tl := t[1..];
      var rest := Insert(x, tl);
      assert t == [t[0]] + tl;
      assert Insert(x, t) == [t[0]] + rest;
      ArtistsCons(t[0], tl);
      NoDupCons(t[0].artist, Artists(tl));
      InsertNoDup(x, tl);
      InsertArtists(x, tl);
      ArtistsCons(t[0], rest);
      NoDupCons(t[0].artist, Artists(rest));
    }
  }

  /** Sorting a duplicate-free table keeps its artists and keeps them distinct. */
  lemma {:induction false} SortKeepsArtists(t: seq<Tally>)
    requires NoDup(Artists(t))
    ensures NoDup(Artists(SortDesc(t)))
    ensures forall b :: b in Artists(SortDesc(t)) <==> b in Artists(t)
  {
    if t != [] {
      var tl := t[1..];
      assert t == [t[0]] + tl;
      ArtistsCons(t[0], tl);
      NoDupCons(t[0].artist, Artists(tl));
      SortKeepsArtists(tl);
      InsertArtists(t[0], SortDesc(tl));
      InsertNoDup(t[0], SortDesc(tl));
    }
  }

  /** A permutation of a consistent table is consistent. */
  lemma {:induction false} PermutationConsistent(t: seq<Tally>, r: seq<Tally>, flat: seq<ArtistId>)
    requires multiset(r) == multiset(t)
    requires Consistent(t, flat)
    ensures Consistent(r, flat)
  {
    forall i | 0 <= i < |r|
      ensures r[i].count == Freq(flat, r[i].artist)
    {
      assert r[i] in multiset(t);
      var k :| 0 <= k < |t| && t[k] == r[i];
    }
  }

  /**
   * Splits a sorted table into groups of equal count, starting a new group
   * whenever the count differs from that of the group being filled.
   */
  function Runs(t: seq<Tally>): (groups: seq<seq<ArtistId>>)
    ensures Flatten(groups) == Artists(t)
    ensures forall g :: 0 <= g < |groups| ==> |groups[g]| > 0
    ensures t != [] ==> |groups| > 0 && groups[0][0] == t[0].artist
  {
    if t == [] then []
    else
      var rest := Runs(t[1..]);
      assert Artists(t) == [t[0].artist] + Artists(t[1..]) by {
        assert t == [t[0]] + t[1..];
        ArtistsCons(t[0], t[1..]);
      }
      if |t| > 1 && t[0].count == t[1].count then
        FlattenJoin(t[0].artist, rest);
        [[t[0].artist] + rest[0]] + rest[1..]
      else
        FlattenCons([t[0].artist], rest);
        [[t[0].artist]] + rest
  }

  /** Joining an element onto the first group prepends it to the flattening. */
  lemma {:induction false} FlattenJoin<T>(x: T, xss: seq<seq<T>>)
    requires |xss| > 0
    ensures Flatten([[x] + xss[0]] + xss[1..]) == [x] + Flatten(xss)
  {
    var head, rest := xss[0], xss[1..];
    var tail := Flatten(rest);
    FlattenCons([x] + head, rest);
    assert Flatten(xss) == head + tail;
    AppendAssoc([x], head, tail);
  }

  lemma {:induction false} AppendAssoc<T>(a: seq<T>, b: seq<T>, c: seq<T>)
    ensures (a + b) + c == a + (b + c)
  {
  }

  /** All members of a group share the frequency of the group's first member. */
  ghost predicate SharedCounts(groups: seq<seq<ArtistId>>, flat: seq<ArtistId>)
    requires forall g :: 0 <= g < |groups| ==> |groups[g]| > 0
  {
    forall g, i :: 0 <= g < |groups| && 0 <= i < |groups[g]| ==>
      Freq(flat, groups[g][i]) == Freq(flat, groups[g][0])
  }

  /** Every group is listed more often than every later group. */
  ghost predicate StrictlyDecreasing(groups: seq<seq<ArtistId>>, flat: seq<ArtistId>)
    requires forall g :: 0 <= g < |groups| ==> |groups[g]| > 0
  {
    forall g, h :: 0 <= g < h < |groups| ==> Freq(flat, groups[g][0]) > Freq(flat, groups[h][0])
  }

  /**
   * The ranked partition of the artists counted in `flat`: non-empty groups
   * whose concatenation lists every counted artist exactly once, all members
   * of a group sharing one frequency, frequencies strictly decreasing from
   * each group to every later one.
   */
  ghost predicate RankedPartition(groups: seq<seq<ArtistId>>, flat: seq<ArtistId>) {
    && (forall g :: 0 <= g < |groups| ==> |groups[g]| > 0)
    && NoDup(Flatten(groups))
    && (forall a :: a in Flatten(groups) <==> a in flat)
    && SharedCounts(groups, flat)
    && StrictlyDecreasing(groups, flat)
  }

  /** The groups of a consistent table share the frequency of their first member. */
  lemma {:induction false} RunsShared(t: seq<Tally>, flat: seq<ArtistId>)
    requires Consistent(t, flat)
    ensures SharedCounts(Runs(t), flat)
  {
    if t != [] {
      var tl := t[1..];
      assert Consistent(tl, flat);
      RunsShared(tl, flat);
      var rest := Runs(tl);
      var groups := Runs(t);
      if |t| > 1 && t[0].count == t[1].count {
        assert groups == [[t[0].artist] + rest[0]] + rest[1..];
        forall g, i | 0 <= g < |groups| && 0 <= i < |groups[g]|
          ensures Freq(flat, groups[g][i]) == Freq(flat, groups[g][0])
        {
          if g == 0 {
            if i > 0 {
              assert groups[0][i] == rest[0][i - 1];
            }
          } else {
            assert groups[g] == rest[g];
          }
        }
      } else {
        assert groups == [[t[0].artist]] + rest;
        forall g, i | 0 <= g < |groups| && 0 <= i < |groups[g]|
          ensures Freq(flat, groups[g][i]) == Freq(flat, groups[g][0])
        {
          if g > 0 {
            assert groups[g] == rest[g - 1];
          }
        }
      }
    }
  }

  /** The groups of a sorted consistent table have strictly decreasing frequencies. */
  lemma {:induction false} RunsDecreasing(t: seq<Tally>, flat: seq<ArtistId>)
    requires SortedDesc(t)
    requires Consistent(t, flat)
    ensures StrictlyDecreasing(Runs(t), flat)
  {
    if |t| > 1 {
      var tl := t[1..];
      assert SortedDesc(tl);
      assert Consistent(tl, flat);
      RunsDecreasing(tl, flat);
      var rest := Runs(tl);
      var groups := Runs(t);
      assert Freq(flat, rest[0][0]) == t[1].count;
      if t[0].count == t[1].count {
        assert groups == [[t[0].artist] + rest[0]] + rest[1..];
        forall g, h | 0 <= g < h < |groups|
          ensures Freq(flat, groups[g][0]) > Freq(flat, groups[h][0])
        {
          assert groups[h] == rest[h];
          if g > 0 {
            assert groups[g] == rest[g];
          }
        }
      } else {
        assert groups == [[t[0].artist]] + rest;
        forall g, h | 0 <= g < h < |groups|
          ensures Freq(flat, groups[g][0]) > Freq(flat, groups[h][0])
        {
          assert groups[h] == rest[h - 1];
          if g > 0 {
            assert groups[g] == rest[g - 1];
          } else if h > 1 {
            assert Freq(flat, rest[0][0]) > Freq(flat, rest[h - 1][0]);
          }
        }
      }
    }
  }

  /** The similar-artist list of every history song's artist, one list per history entry. */
  function SimilarLists(artists: map<ArtistId, Artist>, hs: seq<Song>): (r: seq<seq<ArtistId>>)
    requires forall i :: 0 <= i < |hs| ==> hs[i].artistId in artists
    ensures |r| == |hs|
    ensures forall i :: 0 <= i < |hs| ==> r[i] == artists[hs[i].artistId].similar
  {
    if hs == [] then [] else [artists[hs[0].artistId].similar] + SimilarLists(artists, hs[1..])
  }

  /** A concatenation is empty exactly when every part is. */
  lemma {:induction false} FlattenEmpty<T>(xss: seq<seq<T>>)
    ensures Flatten(xss) == [] <==> forall i :: 0 <= i < |xss| ==> xss[i] == []
  {
    if xss != [] {
      FlattenEmpty(xss[1..]);
      assert forall i :: 1 <= i < |xss| ==> xss[i] == xss[1..][i - 1];
    }
  }

  /**
   * Ranks the artists listed as similar to the history songs' artists.
   * Fails when no artist is listed at all, because the grouping starts
   * from the count of the first entry of the sorted table.
   */
  function RankSimilarArtists(artists: map<ArtistId, Artist>, hs: seq<Song>)
    : (r: Result<seq<seq<ArtistId>>, Error>)
    requires forall i :: 0 <= i < |hs| ==> hs[i].artistId in artists
    ensures r.Failure? <==> forall i :: 0 <= i < |hs| ==> artists[hs[i].artistId].similar == []
    ensures r.Failure? ==> r.error == NoSimilarArtists
    ensures r.Success? ==> |r.value| > 0 && RankedPartition(r.value, Flatten(SimilarLists(artists, hs)))
  {
    var lists := SimilarLists(artists, hs);
    var flat := Flatten(lists);
    FlattenEmpty(lists);
    if flat == [] then Failure(NoSimilarArtists)
    else
      var tally := TallyOf(flat);
      var sorted := SortDesc(tally);
      SortKeepsArtists(tally);
      PermutationConsistent(tally, sorted, flat);
      RunsShared(sorted, flat);
      RunsDecreasing(sorted, flat);
      assert flat[0] in Artists(tally);
      Success(Runs(sorted))
  }
}
