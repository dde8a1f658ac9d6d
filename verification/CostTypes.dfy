/** Keys shared by the cost-ingestion tables. Days are day numbers; a band is its integer log-amount index. */
module CostTypes {

  /** The fit's cluster key. */
  datatype ClusterKey = ClusterKey(
    cardNetwork: string, variant: string, funding: string, issuerCountry: string,
    currency: string, icCategory: string, cardProduct: string)

  /** Identity of one rollup bucket: a cluster, a transaction day, an amount band and a channel. */
  datatype BucketKey = BucketKey(cluster: ClusterKey, day: int, band: int, channel: string)

  /** The cluster's part of the sort keys of `cost_fee_model` and `cost_fee_model_segment`. */
  function SortKey(c: ClusterKey): ClusterKey {
    c.(funding := "")
  }

  /** The clusters have different fundings, and all their other dimensions in common. */
  ghost predicate DifferInFundingAlone(c: ClusterKey, d: ClusterKey) {
    && c.funding != d.funding
    && c.cardNetwork == d.cardNetwork && c.variant == d.variant && c.issuerCountry == d.issuerCountry
    && c.currency == d.currency && c.icCategory == d.icCategory && c.cardProduct == d.cardProduct
  }

  ghost predicate NoneDifferInFundingAlone(clusters: set<ClusterKey>) {
    forall c, d :: c in clusters && d in clusters ==> !DifferInFundingAlone(c, d)
  }

  /** Distinct clusters share a sort key exactly when they differ in funding alone. */
  lemma SortKeyMeaning(c: ClusterKey, d: ClusterKey)
    ensures SortKey(c) == SortKey(d) <==> c == d || DifferInFundingAlone(c, d)
    ensures DifferInFundingAlone(c, d) ==> c != d
  {
    if DifferInFundingAlone(c, d) {
      assert SortKey(c) == SortKey(d);
    }
  }
}
