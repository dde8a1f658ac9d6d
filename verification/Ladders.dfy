/**
 The `cost_fee_model_segment` table: what `insert_segments` of `src/cost_ingestion/fit.rs` writes for the
 surfaced clusters, one row per segment, and what `src/cost_ingestion/serving.rs` reads back. Its sort key,
 like that of the snapshot table, has no `funding` (clickhouse/scripts/037_cost_fee_model_segment.sh).
 */
module Ladders {
  import opened CostTypes
  import opened Segmentation
  import opened MergedReads

  /** A row's identity: its cluster and the place of the segment in the cluster's ladder. */
  datatype Rung = Rung(cluster: ClusterKey, index: nat)

  function RungKey(r: Rung): Rung {
    Rung(SortKey(r.cluster), r.index)
  }

  /** Two rows share their sort key exactly when they hold the same place in ladders of one cluster or of two
      that differ in funding alone. */
  lemma RungKeyMeaning(q: Rung, r: Rung)
    ensures RungKey(q) == RungKey(r) <==>
            q.index == r.index && (q.cluster == r.cluster || DifferInFundingAlone(q.cluster, r.cluster))
  {
    SortKeyMeaning(q.cluster, r.cluster);
  }

  /** The rows written for the clusters' segments. */
  ghost function Rungs(ladders: map<ClusterKey, seq<Segment>>): map<Rung, Segment> {
    var rungs := set c, i | c in ladders && 0 <= i < |ladders[c]| :: Rung(c, i);
    map r | r in rungs :: ladders[r.cluster][r.index]
  }

  lemma RungsSpec(ladders: map<ClusterKey, seq<Segment>>, r: Rung)
    ensures r in Rungs(ladders) <==> r.cluster in ladders && r.index < |ladders[r.cluster]|
    ensures r in Rungs(ladders) ==> Rungs(ladders)[r] == ladders[r.cluster][r.index]
  {
    assert r == Rung(r.cluster, r.index);
  }

  /** Every read returns every segment of every cluster, if and only if no two surfaced clusters differ in
      funding alone. */
  lemma LaddersReadExactly(ladders: map<ClusterKey, seq<Segment>>)
    requires forall c :: c in ladders ==> ladders[c] != []
    ensures (forall read :: FinalOf(Rungs(ladders), read, RungKey) ==> read == Rungs(ladders)) <==>
            NoneDifferInFundingAlone(ladders.Keys)
  {
    hide SortKey, Rungs, NoneDifferInFundingAlone;
    FundingAloneCollides(ladders.Keys);
    var rows := Rungs(ladders);
    if c, d :| c in ladders && d in ladders && SortKey(c) == SortKey(d) && c != d {
      RungsSpec(ladders, Rung(c, 0));
      RungsSpec(ladders, Rung(d, 0));
      var read := ReadWith(rows, {Rung(d, 0)}, RungKey);
      assert RungKey(Rung(c, 0)) == RungKey(Rung(d, 0));
      assert Rung(d, 0) in read && Rung(c, 0) !in read;
    } else {
      forall q, r | q in rows && r in rows && RungKey(q) == RungKey(r) ensures q == r {
        RungsSpec(ladders, q);
        RungsSpec(ladders, r);
      }
      forall read | FinalOf(rows, read, RungKey) ensures read == rows {
        ReadsAllExactly(rows, read, RungKey);
      }
    }
  }

  /** An input: of two such clusters some read returns the first segment of the one and the second of the
      other, so neither ladder is whole. */
  lemma LaddersMix(ladders: map<ClusterKey, seq<Segment>>, c: ClusterKey, d: ClusterKey)
    returns (read: map<Rung, Segment>)
    requires c in ladders && d in ladders && c != d && SortKey(c) == SortKey(d)
    requires |ladders[c]| >= 2 && |ladders[d]| >= 2
    ensures FinalOf(Rungs(ladders), read, RungKey)
    ensures Rung(c, 0) in read && Rung(d, 1) in read && Rung(c, 1) !in read && Rung(d, 0) !in read
  {
    hide SortKey, Rungs;
    RungsSpec(ladders, Rung(c, 0));
    RungsSpec(ladders, Rung(d, 1));
    read := ReadWith(Rungs(ladders), {Rung(c, 0), Rung(d, 1)}, RungKey);
    assert RungKey(Rung(c, 0)) == RungKey(Rung(d, 0)) && RungKey(Rung(c, 1)) == RungKey(Rung(d, 1));
  }
}
