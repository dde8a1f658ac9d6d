/**
 Reads through `FINAL` from a ReplacingMergeTree whose rows were inserted together, and so have the same
 version: of the rows with one sort key a read returns one, and which one is up to the database. Merges in
 the background drop such rows too.
 */
module MergedReads {
  import opened CostTypes

  /** No two keys have the same sort key. */
  ghost predicate KeysApart<K(!new), S>(keys: set<K>, sort: K -> S) {
    forall k, l :: k in keys && l in keys && sort(k) == sort(l) ==> k == l
  }

  /** For the snapshot tables that is: no two clusters differ in funding alone. */
  lemma FundingAloneCollides(clusters: set<ClusterKey>)
    ensures KeysApart(clusters, SortKey) <==> NoneDifferInFundingAlone(clusters)
  {
    hide SortKey, DifferInFundingAlone;
    forall c, d | c in clusters && d in clusters
      ensures SortKey(c) == SortKey(d) <==> c == d || DifferInFundingAlone(c, d)
      ensures DifferInFundingAlone(c, d) ==> c != d
    {
      SortKeyMeaning(c, d);
    }
  }

  ghost predicate Represented<K(!new), S, V>(rows: map<K, V>, k: K, sort: K -> S) {
    exists l :: l in rows && sort(l) == sort(k)
  }

  /** A merge drops rows, but keeps one for every sort key. */
  ghost predicate IsRowMerge<K(!new), S, V>(rows: map<K, V>, merged: map<K, V>, sort: K -> S) {
    && (forall k :: k in merged ==> k in rows && merged[k] == rows[k])
    && (forall k {:trigger Represented(merged, k, sort)} :: k in rows ==> Represented(merged, k, sort))
  }

  /** A possible `FINAL` read. */
  ghost predicate FinalOf<K(!new), S, V>(rows: map<K, V>, read: map<K, V>, sort: K -> S) {
    IsRowMerge(rows, read, sort) && KeysApart(read.Keys, sort)
  }

  /** A read returns all rows exactly when no two share a sort key. */
  lemma ReadsAllExactly<K(!new), S, V>(rows: map<K, V>, read: map<K, V>, sort: K -> S)
    requires FinalOf(rows, read, sort)
    ensures read == rows <==> KeysApart(rows.Keys, sort)
    ensures read.Keys == rows.Keys <==> KeysApart(rows.Keys, sort)
  {
    if KeysApart(rows.Keys, sort) {
      forall k | k in rows ensures k in read {
        assert Represented(read, k, sort);
        var l :| l in read && sort(l) == sort(k);
      }
    }
  }

  /** Any rows with distinct sort keys are returned together by some read. */
  lemma ReadWith<K(!new), S, V>(rows: map<K, V>, wanted: set<K>, sort: K -> S) returns (read: map<K, V>)
    requires wanted <= rows.Keys && KeysApart(wanted, sort)
    ensures FinalOf(rows, read, sort) && wanted <= read.Keys
  {
    read := map k | k in rows && k == Chosen(rows, wanted, sort, k) :: rows[k];
    forall k | k in rows ensures Represented(read, k, sort) {
      ChosenAgain(rows, wanted, sort, k, Chosen(rows, wanted, sort, k));
    }
    forall k, l | k in read && l in read && sort(k) == sort(l) ensures k == l {
      ChosenAgain(rows, wanted, sort, k, l);
    }
  }

  /** The row a read may return for the sort key of `k`. */
  ghost function Chosen<K(!new), S, V>(rows: map<K, V>, wanted: set<K>, sort: K -> S, k: K): (l: K)
    requires k in rows && wanted <= rows.Keys && KeysApart(wanted, sort)
    ensures l in rows && sort(l) == sort(k) && (k in wanted ==> l == k)
  {
    ChosenFor(rows, wanted, sort, sort(k))
  }

  ghost function ChosenFor<K(!new), S, V>(rows: map<K, V>, wanted: set<K>, sort: K -> S, s: S): (l: K)
    requires (exists k :: k in rows && sort(k) == s) && wanted <= rows.Keys && KeysApart(wanted, sort)
    ensures l in rows && sort(l) == s && forall k :: k in wanted && sort(k) == s ==> l == k
  {
    if exists k :: k in wanted && sort(k) == s then var l :| l in wanted && sort(l) == s; l
    else var l :| l in rows && sort(l) == s; l
  }

  lemma ChosenAgain<K(!new), S, V>(rows: map<K, V>, wanted: set<K>, sort: K -> S, k: K, l: K)
    requires k in rows && l in rows && sort(k) == sort(l) && wanted <= rows.Keys && KeysApart(wanted, sort)
    ensures Chosen(rows, wanted, sort, k) == Chosen(rows, wanted, sort, l)
  {
  }

  /** No `FINAL` read can tell whether the database has merged before. */
  lemma MergesInvisible<K(!new), S, V>(rows: map<K, V>, merged: map<K, V>, read: map<K, V>, sort: K -> S)
    requires IsRowMerge(rows, merged, sort) && FinalOf(merged, read, sort)
    ensures FinalOf(rows, read, sort)
  {
    hide Represented;
    forall k | k in rows ensures Represented(read, k, sort) {
      assert Represented(merged, k, sort);
      StillRepresented(merged, read, sort, k);
    }
  }

  lemma StillRepresented<K(!new), S, V>(merged: map<K, V>, read: map<K, V>, sort: K -> S, k: K)
    requires IsRowMerge(merged, read, sort) && Represented(merged, k, sort)
    ensures Represented(read, k, sort)
  {
    var l :| l in merged && sort(l) == sort(k);
    assert Represented(read, l, sort);
    var j :| j in read && sort(j) == sort(l);
  }
}
