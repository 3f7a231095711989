/**
 * Data frames as their timestamp index sees them: a finite map from
 * timestamp to row. Alignment is the inner join of indices, and
 * `df.loc[index]` keeps the rows at the chosen timestamps.
 */
module Frames {
  type Frame<R> = map<int, R>

  /** `df.loc[index]` for an index drawn from the frame's own: the rows at those timestamps. */
  function Restrict<R>(f: Frame<R>, index: set<int>): (r: Frame<R>)
    ensures r.Keys == f.Keys * index
    ensures forall t :: t in r ==> r[t] == f[t]
  {
    map t | t in f.Keys && t in index :: f[t]
  }

  /** The timestamps present in every frame of the dictionary. */
  function CommonIndex<K, R>(dict: map<K, Frame<R>>): (r: set<int>)
    ensures forall t :: t in r <==> (exists k :: k in dict && t in dict[k]) && forall k :: k in dict ==> t in dict[k]
  {
    set k, t | k in dict && t in dict[k] && (forall k' :: k' in dict ==> t in dict[k']) :: t
  }

  /** Every frame cut down to the common timestamps; the keys are kept. */
  function AlignAll<K, R>(dict: map<K, Frame<R>>): (r: map<K, Frame<R>>)
    ensures r.Keys == dict.Keys
    ensures forall k :: k in r ==> r[k] == Restrict(dict[k], CommonIndex(dict))
  {
    map k | k in dict :: Restrict(dict[k], CommonIndex(dict))
  }

  /**
   * After alignment every frame has the same index, that index is present
   * in every input, and it is the largest such: a timestamp every input
   * has survives.
   */
  lemma AlignAllSharesIndex<K, R>(dict: map<K, Frame<R>>)
    ensures var r := AlignAll(dict);
      && (forall k, k' :: k in r && k' in r ==> r[k].Keys == r[k'].Keys)
      && (forall k :: k in r ==> r[k].Keys <= dict[k].Keys)
      && (forall k, t :: k in r && t in dict[k] && (forall k' :: k' in dict ==> t in dict[k']) ==> t in r[k])
      && (forall k, t :: k in r && t in r[k] ==> forall k' :: k' in dict ==> t in dict[k'])
  {
    var r := AlignAll(dict);
    forall k | k in r
      ensures r[k].Keys == CommonIndex(dict)
    {
      assert r[k].Keys == dict[k].Keys * CommonIndex(dict);
      forall t | t in CommonIndex(dict)
        ensures t in dict[k].Keys
      {
      }
    }
  }

  /** Two frames cut down to the timestamps both have. */
  function AlignPair<R>(a: Frame<R>, b: Frame<R>): (r: (Frame<R>, Frame<R>))
    ensures r.0.Keys == a.Keys * b.Keys && r.1.Keys == a.Keys * b.Keys
    ensures forall t :: t in r.0 ==> r.0[t] == a[t]
    ensures forall t :: t in r.1 ==> r.1[t] == b[t]
  {
    var common := a.Keys * b.Keys;
    (Restrict(a, common), Restrict(b, common))
  }

  /** Aligning two frames is aligning the two-entry dictionary that holds them. */
  lemma AlignPairIsAlignAll<K, R>(ka: K, kb: K, a: Frame<R>, b: Frame<R>)
    requires ka != kb
    ensures var d := AlignAll(map[ka := a, kb := b]);
      d[ka] == AlignPair(a, b).0 && d[kb] == AlignPair(a, b).1
  {
    var dict := map[ka := a, kb := b];
    forall t | t in a.Keys * b.Keys
      ensures t in CommonIndex(dict)
    {
      assert ka in dict && t in dict[ka];
    }
    forall t | t in CommonIndex(dict)
      ensures t in a.Keys * b.Keys
    {
      assert ka in dict && kb in dict;
    }
    assert CommonIndex(dict) == a.Keys * b.Keys;
  }

  /** The aligned pair has equally many rows. */
  lemma AlignPairSameLength<R>(a: Frame<R>, b: Frame<R>)
    ensures |AlignPair(a, b).0| == |AlignPair(a, b).1|
  {
    assert AlignPair(a, b).0.Keys == AlignPair(a, b).1.Keys;
  }
}
