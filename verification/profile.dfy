/**
 * Categorical profiles of the listening history: for the key or the mode,
 * the confidence-weighted vote of the history songs for each value seen,
 * together with the history length used as the normaliser.
 */
module Profile {
  import opened Wrappers
  import opened Catalog

  datatype Feature = Key | Mode

  function ValueOf(s: Song, f: Feature): int {
    match f
    case Key => s.key
    case Mode => s.mode
  }

  function ConfidenceOf(s: Song, f: Feature): real {
    match f
    case Key => s.keyConfidence
    case Mode => s.modeConfidence
  }

  /** The normaliser `n` (history length) and the vote weight of every value seen. */
  datatype Profile = Profile(n: nat, weight: map<int, real>)

  /** What `s` contributes to the vote for value `v`. */
  function Vote(s: Song, f: Feature, v: int): real {
    if ValueOf(s, f) == v then ConfidenceOf(s, f) else 0.0
  }

  /** Reference definition: the summed confidence of the songs having value `v`. */
  function VoteSum(hs: seq<Song>, f: Feature, v: int): real {
    if hs == [] then 0.0 else Vote(hs[0], f, v) + VoteSum(hs[1..], f, v)
  }

  lemma {:induction false} VoteSumAppend(a: seq<Song>, b: seq<Song>, f: Feature, v: int)
    ensures VoteSum(a + b, f, v) == VoteSum(a, f, v) + VoteSum(b, f, v)
  {
    if a == [] {
      assert a + b == b;
    } else {
      assert (a + b)[1..] == a[1..] + b;
      VoteSumAppend(a[1..], b, f, v);
    }
  }

  /** Some history song has value `v`. */
  predicate Seen(hs: seq<Song>, f: Feature, v: int) {
    exists i :: 0 <= i < |hs| && ValueOf(hs[i], f) == v
  }

  lemma {:induction false} SeenAppend(hs: seq<Song>, s: Song, f: Feature)
    ensures forall v :: Seen(hs + [s], f, v) <==> ValueOf(s, f) == v || Seen(hs, f, v)
  {
    forall v
      ensures Seen(hs + [s], f, v) <==> ValueOf(s, f) == v || Seen(hs, f, v)
    {
      if Seen(hs, f, v) {
        var i :| 0 <= i < |hs| && ValueOf(hs[i], f) == v;
        assert (hs + [s])[i] == hs[i];
      }
      if ValueOf(s, f) == v {
        assert (hs + [s])[|hs|] == s;
      }
      if Seen(hs + [s], f, v) && ValueOf(s, f) != v {
        var i :| 0 <= i < |hs + [s]| && ValueOf((hs + [s])[i], f) == v;
        assert i < |hs| && (hs + [s])[i] == hs[i];
      }
    }
  }

  /** The vote table, accumulated over the history in order. */
  function Tabulate(hs: seq<Song>, f: Feature): (m: map<int, real>)
    ensures forall v :: v in m <==> Seen(hs, f, v)
    ensures forall v :: v in m ==> m[v] == VoteSum(hs, f, v)
  {
    if hs == [] then map[]
    else
      var init := hs[..|hs| - 1];
      var s := hs[|hs| - 1];
      var m := Tabulate(init, f);
      var v := ValueOf(s, f);
      assert hs == init + [s];
      SeenAppend(init, s, f);
      assert forall u :: VoteSum(hs, f, u) == VoteSum(init, f, u) + Vote(s, f, u) by {
        forall u
          ensures VoteSum(hs, f, u) == VoteSum(init, f, u) + Vote(s, f, u)
        {
          VoteSumAppend(init, [s], f, u);
        }
      }
      assert forall u :: u !in m ==> VoteSum(init, f, u) == 0.0 by {
        forall u | u !in m
          ensures VoteSum(init, f, u) == 0.0
        {
          NoVoteUnseen(init, f, u);
        }
      }
      m[v := (if v in m then m[v] else 0.0) + ConfidenceOf(s, f)]
  }

  /** A value no song has collects no vote. */
  lemma {:induction false} NoVoteUnseen(hs: seq<Song>, f: Feature, v: int)
    requires forall i :: 0 <= i < |hs| ==> ValueOf(hs[i], f) != v
    ensures VoteSum(hs, f, v) == 0.0
  {
    if hs != [] {
      assert forall i :: 0 <= i < |hs[1..]| ==> hs[1..][i] == hs[i + 1];
      NoVoteUnseen(hs[1..], f, v);
    }
  }

  /**
   * The profile of `feature` over the history songs: `n` is the history
   * length and each value seen maps to the summed confidence of the songs
   * having it.
   */
  function BuildProfile(hs: seq<Song>, f: Feature): (p: Profile)
    ensures p.n == |hs|
    ensures forall v :: v in p.weight <==> Seen(hs, f, v)
    ensures forall v :: v in p.weight ==> p.weight[v] == VoteSum(hs, f, v)
  {
    Profile(|hs|, Tabulate(hs, f))
  }

  /** Removing one song from the history removes exactly its vote. */
  lemma {:induction false} VoteSumRemove(b: seq<Song>, k: nat, f: Feature, v: int)
    requires k < |b|
    ensures VoteSum(b, f, v) == Vote(b[k], f, v) + VoteSum(b[..k] + b[k + 1..], f, v)
  {
    assert b == b[..k] + ([b[k]] + b[k + 1..]);
    VoteSumAppend(b[..k], [b[k]] + b[k + 1..], f, v);
    VoteSumAppend(b[..k], b[k + 1..], f, v);
    assert ([b[k]] + b[k + 1..])[1..] == b[k + 1..];
  }

  /** Removing matching elements from two permutations of each other leaves permutations. */
  lemma {:induction false} MultisetRemoveHead<T>(a: seq<T>, b: seq<T>, k: nat)
    requires multiset(a) == multiset(b)
    requires a != [] && k < |b| && b[k] == a[0]
    ensures multiset(a[1..]) == multiset(b[..k] + b[k + 1..])
  {
    var b' := b[..k] + b[k + 1..];
    assert a == [a[0]] + a[1..];
    assert b == b[..k] + [b[k]] + b[k + 1..];
    assert multiset(b) == multiset(b[..k]) + multiset{b[k]} + multiset(b[k + 1..]);
    assert multiset(b') == multiset(b[..k]) + multiset(b[k + 1..]);
    forall y
      ensures multiset(a[1..])[y] == multiset(b')[y]
    {
      assert multiset(a)[y] == multiset(b)[y];
    }
  }

  /** The vote does not depend on the order of the history. */
  lemma {:induction false} VoteSumPermutation(a: seq<Song>, b: seq<Song>, f: Feature, v: int)
    requires multiset(a) == multiset(b)
    ensures VoteSum(a, f, v) == VoteSum(b, f, v)
    decreases |a|
  {
    if a != [] {
      assert a[0] in multiset(b);
      var k :| 0 <= k < |b| && b[k] == a[0];
      var b' := b[..k] + b[k + 1..];
      MultisetRemoveHead(a, b, k);
      VoteSumPermutation(a[1..], b', f, v);
      VoteSumRemove(b, k, f, v);
    }
  }

  /** Reordering the history (duplicates included) leaves the profile unchanged. */
  lemma {:induction false} ProfileOrderIndependent(a: seq<Song>, b: seq<Song>, f: Feature)
    requires multiset(a) == multiset(b)
    ensures BuildProfile(a, f) == BuildProfile(b, f)
  {
    var pa := BuildProfile(a, f);
    var pb := BuildProfile(b, f);
    assert |a| == |multiset(a)| == |b|;
    forall v
      ensures v in pa.weight <==> v in pb.weight
    {
      if v in pa.weight {
        var i :| 0 <= i < |a| && ValueOf(a[i], f) == v;
        assert a[i] in multiset(b);
        var j :| 0 <= j < |b| && b[j] == a[i];
      }
      if v in pb.weight {
        var j :| 0 <= j < |b| && ValueOf(b[j], f) == v;
        assert b[j] in multiset(a);
        var i :| 0 <= i < |a| && a[i] == b[j];
      }
    }
    forall v | v in pa.weight
      ensures pa.weight[v] == pb.weight[v]
    {
      VoteSumPermutation(a, b, f, v);
    }
    assert pa.weight == pb.weight;
  }

  /** A song with the same value but a higher confidence never lowers the vote. */
  lemma {:induction false} VoteSumMonotone(hs: seq<Song>, i: nat, s: Song, f: Feature, v: int)
    requires i < |hs|
    requires ValueOf(s, f) == ValueOf(hs[i], f)
    requires ConfidenceOf(s, f) >= ConfidenceOf(hs[i], f)
    ensures VoteSum(hs[i := s], f, v) >= VoteSum(hs, f, v)
  {
    if i == 0 {
      assert hs[i := s][1..] == hs[1..];
    } else {
      assert hs[i := s][1..] == hs[1..][i - 1 := s];
      VoteSumMonotone(hs[1..], i - 1, s, f, v);
    }
  }

  /**
   * Raising one history song's confidence, its value unchanged, does not
   * lower the profile weight of any value.
   */
  lemma {:induction false} ConfidenceMonotone(hs: seq<Song>, i: nat, s: Song, f: Feature, v: int)
    requires i < |hs|
    requires ValueOf(s, f) == ValueOf(hs[i], f)
    requires ConfidenceOf(s, f) >= ConfidenceOf(hs[i], f)
    requires v in BuildProfile(hs, f).weight
    ensures v in BuildProfile(hs[i := s], f).weight
    ensures BuildProfile(hs[i := s], f).weight[v] >= BuildProfile(hs, f).weight[v]
  {
    var j :| 0 <= j < |hs| && ValueOf(hs[j], f) == v;
    assert ValueOf(hs[i := s][j], f) == v;
    VoteSumMonotone(hs, i, s, f, v);
  }

  /** How many history songs have value `v`. */
  function CountValue(hs: seq<Song>, f: Feature, v: int): nat {
    if hs == [] then 0 else (if ValueOf(hs[0], f) == v then 1 else 0) + CountValue(hs[1..], f, v)
  }

  /**
   * Python-style positional access `table[pos]`: a negative position
   * counts from the end; anything past either end fails.
   */
  function PositionalRow(songs: seq<Song>, pos: int): (r: Option<Song>)
    ensures r.Some? <==> -|songs| <= pos < |songs|
    ensures r.Some? ==> r.value in songs
    ensures 0 <= pos < |songs| ==> r == Some(songs[pos])
  {
    if 0 <= pos < |songs| then Some(songs[pos])
    else if -|songs| <= pos < 0 then Some(songs[|songs| + pos])
    else None
  }

  /**
   * The vote table as the engine actually accumulates it: each history song
   * adds the confidence found at the table ROW whose position equals the
   * song's feature value, not its own confidence.
   */
  function TabulateAsWritten(catalog: seq<Song>, hs: seq<Song>, f: Feature): (r: Result<map<int, real>, Error>)
    ensures r.Success? <==> forall i :: 0 <= i < |hs| ==> PositionalRow(catalog, ValueOf(hs[i], f)).Some?
    ensures r.Failure? ==> r.error.RowOutOfRange?
    ensures r.Success? ==> forall v :: v in r.value <==> Seen(hs, f, v)
  {
    if hs == [] then Success(map[])
    else
      var v := ValueOf(hs[0], f);
      match PositionalRow(catalog, v)
      case None => Failure(RowOutOfRange(v))
      case Some(row) =>
        var m :- TabulateAsWritten(catalog, hs[1..], f);
        assert forall i :: 0 <= i < |hs[1..]| ==> hs[1..][i] == hs[i + 1];
        Success(m[v := (if v in m then m[v] else 0.0) + ConfidenceOf(row, f)])
  }

  /**
   * What the engine's table holds: every value seen weighs the confidence
   * of the row at that position, added once per song having the value.
   */
  lemma {:induction false} TabulateAsWrittenWeights(catalog: seq<Song>, hs: seq<Song>, f: Feature, v: int)
    requires TabulateAsWritten(catalog, hs, f).Success?
    requires v in TabulateAsWritten(catalog, hs, f).value
    ensures PositionalRow(catalog, v).Some?
    ensures TabulateAsWritten(catalog, hs, f).value[v]
         == Repeat(CountValue(hs, f, v), ConfidenceOf(PositionalRow(catalog, v).value, f))
  {
    assert hs != [];
    var u := ValueOf(hs[0], f);
    var row := PositionalRow(catalog, u).value;
    var rest := TabulateAsWritten(catalog, hs[1..], f);
    var m := rest.value;
    TabulateAsWrittenStep(catalog, hs, f);
    var r := TabulateAsWritten(catalog, hs, f).value;
    var n := CountValue(hs[1..], f, v);
    if v in m {
      TabulateAsWrittenWeights(catalog, hs[1..], f, v);
      var c := ConfidenceOf(PositionalRow(catalog, v).value, f);
      if v == u {
        assert r[v] == Repeat(n, c) + c == Repeat(n + 1, c);
        assert CountValue(hs, f, v) == n + 1;
      } else {
        assert r[v] == Repeat(n, c);
        assert CountValue(hs, f, v) == n;
      }
    } else {
      assert v == u;
      assert n == 0 by {
        assert forall i :: 0 <= i < |hs[1..]| ==> ValueOf(hs[1..][i], f) != v;
        NoCountUnseen(hs[1..], f, v);
      }
      var c := ConfidenceOf(row, f);
      assert r[v] == 0.0 + c == Repeat(1, c);
      assert CountValue(hs, f, v) == 1;
    }
  }

  /** One step of the engine's accumulation: the first song's row confidence is added to its value. */
  lemma {:induction false} TabulateAsWrittenStep(catalog: seq<Song>, hs: seq<Song>, f: Feature)
    requires hs != []
    requires TabulateAsWritten(catalog, hs, f).Success?
    ensures PositionalRow(catalog, ValueOf(hs[0], f)).Some?
    ensures TabulateAsWritten(catalog, hs[1..], f).Success?
    ensures var u := ValueOf(hs[0], f);
            var m := TabulateAsWritten(catalog, hs[1..], f).value;
            TabulateAsWritten(catalog, hs, f).value
              == m[u := (if u in m then m[u] else 0.0) + ConfidenceOf(PositionalRow(catalog, u).value, f)]
    ensures forall v :: CountValue(hs, f, v) == (if ValueOf(hs[0], f) == v then 1 else 0) + CountValue(hs[1..], f, v)
  {
  }

  /** `c` added to itself `n` times. */
  function Repeat(n: nat, c: real): real {
    if n == 0 then 0.0 else Repeat(n - 1, c) + c
  }

  lemma {:induction false} NoCountUnseen(hs: seq<Song>, f: Feature, v: int)
    requires forall i :: 0 <= i < |hs| ==> ValueOf(hs[i], f) != v
    ensures CountValue(hs, f, v) == 0
  {
    if hs != [] {
      assert forall i :: 0 <= i < |hs[1..]| ==> hs[1..][i] == hs[i + 1];
      NoCountUnseen(hs[1..], f, v);
    }
  }

  /** The profile as the engine actually builds it (see `TabulateAsWritten`). */
  function BuildProfileAsWritten(catalog: seq<Song>, hs: seq<Song>, f: Feature): (r: Result<Profile, Error>)
    ensures r.Success? ==> r.value.n == |hs|
    ensures r.Success? ==> forall v :: v in r.value.weight <==> v in BuildProfile(hs, f).weight
    ensures r.Failure? <==> exists i :: 0 <= i < |hs| && PositionalRow(catalog, ValueOf(hs[i], f)).None?
  {
    var m :- TabulateAsWritten(catalog, hs, f);
    Success(Profile(|hs|, m))
  }

  /**
   * A two-song table whose first row has key 5 (confidence 0.25) and whose
   * second row has key 0 (confidence 0.75). For the history made of the
   * second song, the engine weighs key 0 with the first row's confidence.
   */
  lemma {:induction false} AsWrittenReadsRowAtValue()
    ensures var s0 := Song("s0", "a0", "t0", 200.0, -5.0, 120.0, 5, 0.25, 1, 0.5, true);
            var s1 := Song("s1", "a1", "t1", 200.0, -5.0, 120.0, 0, 0.75, 1, 0.5, true);
            && BuildProfile([s1], Key).weight[0] == 0.75
            && BuildProfileAsWritten([s0, s1], [s1], Key).Success?
            && BuildProfileAsWritten([s0, s1], [s1], Key).value.weight[0] == 0.25
  {
    var s0 := Song("s0", "a0", "t0", 200.0, -5.0, 120.0, 5, 0.25, 1, 0.5, true);
    var s1 := Song("s1", "a1", "t1", 200.0, -5.0, 120.0, 0, 0.75, 1, 0.5, true);
    assert VoteSum([s1], Key, 0) == 0.75 by {
      assert [s1][1..] == [];
    }
    assert ValueOf([s1][0], Key) == 0;
    assert Seen([s1], Key, 0);
    var r := BuildProfileAsWritten([s0, s1], [s1], Key);
    assert PositionalRow([s0, s1], 0) == Some(s0);
    assert CountValue([s1], Key, 0) == 1 by {
      assert [s1][1..] == [];
    }
  }
}
