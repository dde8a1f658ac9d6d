/**
 The fee-override store of `src/cost_ingestion/overrides.rs`: overrides and their indices kept as
 separate records of one key-value store, named by string concatenation.

 Main results: over every sequence of completed calls the two indices, the cluster lists and the stored
 overrides agree, if and only if no merchant id followed by "::" begins a different one (`RunsAgree`);
 the records are then the last ones written (`LastWriteWins`) and `list` returns exactly them.
 */
module Overrides {
  import opened Options

  datatype Fee = Fee(pctBps: real, fixed: real, updatedAt: string)

  datatype Dims = Dims(
    connector: string, cardNetwork: string, variant: string, funding: string,
    issuerCountry: string, currency: string, icCategory: string)

  datatype ClusterFee = ClusterFee(dims: Dims, fee: Fee)

  /** A stored JSON document. */
  datatype Value =
    | FeeValue(fee: Fee)
    | NamesValue(names: seq<string>)
    | ClustersValue(clusters: seq<ClusterFee>)

  type Store = map<string, Value>

  // ---------------------------------------------------------------------------------------------
  // Record names
  // ---------------------------------------------------------------------------------------------

  const GLOBAL := "cost_fee_override_merchants"

  function OverrideName(m: string, c: string): string {
    "cost_fee_override::" + m + "::" + c
  }

  function IndexName(m: string): string {
    "cost_fee_override_index::" + m
  }

  function ClustersName(m: string): string {
    "cost_cluster_overrides::" + m
  }

  /** One id, closed by the separator, begins the other. */
  predicate Overlap(m: string, m': string) {
    m + "::" <= m' + "::" || m' + "::" <= m + "::"
  }

  /** No id of the one set overlaps a different id of the other. */
  ghost predicate Apart(ids: iset<string>, callers: iset<string>) {
    forall m, m' :: m in ids && m' in callers && m != m' ==> !Overlap(m, m')
  }

  /** Exactly the overlapping ids have overrides that share a record. */
  lemma SharedRecordExactly(m: string, m': string)
    ensures (exists c, c' :: OverrideName(m, c) == OverrideName(m', c')) <==> Overlap(m, m')
  {
    if c, c' :| OverrideName(m, c) == OverrideName(m', c') {
      AfterFamily(m, c, m', c');
      if |m| <= |m'| {
        PrefixOf(m, c, m', c');
      } else {
        PrefixOf(m', c', m, c);
      }
    }
    if m + "::" <= m' + "::" {
      SharedRecord(m, m', "");
    } else if m' + "::" <= m + "::" {
      SharedRecord(m', m, "");
    }
  }

  lemma AfterFamily(m: string, c: string, m': string, c': string)
    requires OverrideName(m, c) == OverrideName(m', c')
    ensures m + "::" + c == m' + "::" + c'
  {
    var p, s, t := "cost_fee_override::", m + "::" + c, m' + "::" + c';
    assert OverrideName(m, c) == p + s && OverrideName(m', c') == p + t;
    SuffixInjective(p, s, t);
  }

  lemma PrefixOf(m: string, c: string, m': string, c': string)
    requires m + "::" + c == m' + "::" + c' && |m| <= |m'|
    ensures m + "::" <= m' + "::"
  {
    var s := m + "::" + c;
    assert m + "::" == s[..|m| + 2] && m' + "::" == s[..|m'| + 2];
  }

  /** The override of the shorter id that shares its record with the given one of the longer id. */
  lemma SharedRecord(m: string, m': string, c: string)
    requires m + "::" <= m' + "::"
    ensures OverrideName(m, (m' + "::")[|m| + 2..] + c) == OverrideName(m', c)
  {
    var p, r := "cost_fee_override::", (m' + "::")[|m| + 2..];
    assert m' + "::" == m + "::" + r;
    assert OverrideName(m, r + c) == p + (m + "::" + r) + c;
    assert OverrideName(m', c) == p + (m' + "::") + c;
  }

  lemma OverrideNameInjective(m: string, c: string, m': string, c': string)
    requires (m == m' || !Overlap(m, m')) && OverrideName(m, c) == OverrideName(m', c')
    ensures m == m' && c == c'
  {
    SharedRecordExactly(m, m');
    AfterFamily(m, c, m', c');
    SuffixInjective(m + "::", c, c');
  }

  /** Ids without the separator in them and without a ':' at their end never overlap. */
  lemma PlainIdsApart(ids: iset<string>)
    requires forall m, i :: m in ids && 0 <= i < |m| ==> !(m[i] == ':' && (m + ":")[i + 1] == ':')
    ensures Apart(ids, ids)
  {
    forall m, m' | m in ids && m' in ids && m != m' ensures !Overlap(m, m') {
      if m + "::" <= m' + "::" {
        PlainNotPrefix(m, m');
      } else if m' + "::" <= m + "::" {
        PlainNotPrefix(m', m);
      }
    }
  }

  lemma PlainNotPrefix(m: string, m': string)
    requires m != m' && m + "::" <= m' + "::"
    ensures exists i :: 0 <= i < |m'| && m'[i] == ':' && (m' + ":")[i + 1] == ':'
  {
    var n := |m|;
    assert m == (m + "::")[..n] == (m' + "::")[..n];
    if |m'| == n {
      assert false;
    }
    assert (m + "::")[n] == ':' && (m + "::")[n + 1] == ':';
    assert m'[n] == ':' && (m' + ":")[n + 1] == ':';
  }

  lemma FamiliesApart(m: string, c: string, m': string)
    ensures OverrideName(m, c) != IndexName(m')
    ensures OverrideName(m, c) != ClustersName(m')
    ensures OverrideName(m, c) != GLOBAL
    ensures IndexName(m) != ClustersName(m')
    ensures IndexName(m) != GLOBAL
    ensures ClustersName(m) != GLOBAL
  {
    assert OverrideName(m, c)[17] == ':' && IndexName(m')[17] == '_' && GLOBAL[17] == '_';
    assert OverrideName(m, c)[5] == 'f' && IndexName(m)[5] == 'f' && ClustersName(m')[5] == 'c';
    assert ClustersName(m)[5] == 'c' && GLOBAL[5] == 'f';
    assert IndexName(m)[18] == 'i' && GLOBAL[18] == 'm';
  }

  lemma SuffixInjective(p: string, m: string, m': string)
    requires p + m == p + m'
    ensures m == m'
  {
    assert m == (p + m)[|p|..] && m' == (p + m')[|p|..];
  }

  // ---------------------------------------------------------------------------------------------
  // Reads
  // ---------------------------------------------------------------------------------------------

  function NamesAt(st: Store, name: string): seq<string> {
    if name in st && st[name].NamesValue? then st[name].names else []
  }

  function Connectors(st: Store, m: string): seq<string> {
    NamesAt(st, IndexName(m))
  }

  function Merchants(st: Store): seq<string> {
    NamesAt(st, GLOBAL)
  }

  function Clusters(st: Store, m: string): seq<ClusterFee> {
    if ClustersName(m) in st && st[ClustersName(m)].ClustersValue? then st[ClustersName(m)].clusters else []
  }

  predicate HasFee(st: Store, m: string, c: string) {
    OverrideName(m, c) in st
  }

  // ---------------------------------------------------------------------------------------------
  // Writes
  // ---------------------------------------------------------------------------------------------

  /** `retain(|c| c != item)` */
  function Without(s: seq<string>, item: string): (r: seq<string>)
    ensures forall x :: x in r <==> x in s && x != item
    ensures NoDuplicates(s) ==> NoDuplicates(r)
  {
    if s == [] then []
    else
      var init := Without(s[..|s| - 1], item);
      assert s == s[..|s| - 1] + [s[|s| - 1]];
      assert NoDuplicates(s) ==> s[|s| - 1] !in s[..|s| - 1];
      if s[|s| - 1] == item then init else init + [s[|s| - 1]]
  }

  ghost predicate NoDuplicates(s: seq<string>) {
    forall i, j :: 0 <= i < j < |s| ==> s[i] != s[j]
  }

  function IndexAdd(st: Store, name: string, item: string): Store {
    var l := NamesAt(st, name);
    if item in l then st else st[name := NamesValue(l + [item])]
  }

  function IndexRemove(st: Store, name: string, item: string): Store {
    st[name := NamesValue(Without(NamesAt(st, name), item))]
  }

  /** `retain(|c| c.dims != dims)` */
  function WithoutDims(s: seq<ClusterFee>, dims: Dims): (r: seq<ClusterFee>)
    ensures forall x :: x in r <==> x in s && x.dims != dims
    ensures DistinctDims(s) ==> DistinctDims(r)
    ensures |r| <= |s| && (|r| == |s| ==> r == s)
  {
    if s == [] then []
    else
      var init := WithoutDims(s[..|s| - 1], dims);
      assert s == s[..|s| - 1] + [s[|s| - 1]];
      assert DistinctDims(s) ==> forall x :: x in s[..|s| - 1] ==> x.dims != s[|s| - 1].dims;
      if s[|s| - 1].dims == dims then init else init + [s[|s| - 1]]
  }

  ghost predicate DistinctDims(s: seq<ClusterFee>) {
    forall i, j :: 0 <= i < j < |s| ==> s[i].dims != s[j].dims
  }

  function Put(st: Store, m: string, c: string, fee: Fee): Store {
    IndexAdd(IndexAdd(st[OverrideName(m, c) := FeeValue(fee)], IndexName(m), c), GLOBAL, m)
  }

  function Prune(st: Store, m: string): Store {
    if Connectors(st, m) == [] && Clusters(st, m) == [] then IndexRemove(st, GLOBAL, m) else st
  }

  /** Deleting an absent record is an error that leaves everything as it was. */
  function Delete(st: Store, m: string, c: string): Store {
    if !HasFee(st, m, c) then st
    else Prune(IndexRemove(st - {OverrideName(m, c)}, IndexName(m), c), m)
  }

  function PutCluster(st: Store, m: string, o: ClusterFee): Store {
    IndexAdd(st[ClustersName(m) := ClustersValue(WithoutDims(Clusters(st, m), o.dims) + [o])], GLOBAL, m)
  }

  function DeleteCluster(st: Store, m: string, dims: Dims): Store {
    var l := Clusters(st, m);
    var kept := WithoutDims(l, dims);
    Prune(if |kept| != |l| then st[ClustersName(m) := ClustersValue(kept)] else st, m)
  }

  // ---------------------------------------------------------------------------------------------
  // Agreement
  // ---------------------------------------------------------------------------------------------

  ghost predicate WellTyped(st: Store) {
    && (forall m, c :: OverrideName(m, c) in st ==> st[OverrideName(m, c)].FeeValue?)
    && (forall m :: IndexName(m) in st ==> st[IndexName(m)].NamesValue?)
    && (forall m :: ClustersName(m) in st ==> st[ClustersName(m)].ClustersValue?)
    && (GLOBAL in st ==> st[GLOBAL].NamesValue?)
  }

  /** The indices say what is stored: the merchant indices for the given ids, the rest for every id. */
  ghost predicate Agrees(st: Store, ids: iset<string>) {
    && (forall m, c :: m in ids ==> (c in Connectors(st, m) <==> HasFee(st, m, c)))
    && (forall m :: m in Merchants(st) <==> Connectors(st, m) != [] || Clusters(st, m) != [])
    && (forall m :: NoDuplicates(Connectors(st, m)) && DistinctDims(Clusters(st, m)))
    && NoDuplicates(Merchants(st))
  }

  ghost predicate Inv(st: Store, ids: iset<string>) {
    WellTyped(st) && Agrees(st, ids)
  }

  /** The connectors with a stored override. */
  ghost function Fees(st: Store, m: string): iset<string> {
    iset x | HasFee(st, m, x)
  }

  /** What a call does, seen through the reads. */
  ghost predicate Effect(
    ids: iset<string>, st: Store, after: Store, m: string, fees: iset<string>, connectors: seq<string>,
    clusters: seq<ClusterFee>, merchants: seq<string>)
  {
    && (forall m', c :: m' in ids || m' == m ==>
          (HasFee(after, m', c) <==> if m' == m then c in fees else HasFee(st, m', c)))
    && (forall m' :: Connectors(after, m') == if m' == m then connectors else Connectors(st, m'))
    && (forall m' :: Clusters(after, m') == if m' == m then clusters else Clusters(st, m'))
    && Merchants(after) == merchants
  }

  function Added(s: seq<string>, item: string): seq<string> {
    if item in s then s else s + [item]
  }

  // Each single write changes one read and no other.

  /** The record of this name is the same in both stores. */
  ghost predicate SameAt(st: Store, a: Store, name: string) {
    (name in a <==> name in st) && (name in st ==> a[name] == st[name])
  }

  /** The records outside the fee family are the same in both stores. */
  ghost predicate SameLists(st: Store, a: Store) {
    && (forall m :: SameAt(st, a, IndexName(m)) && SameAt(st, a, ClustersName(m)))
    && SameAt(st, a, GLOBAL)
  }

  ghost predicate SameFees(st: Store, a: Store) {
    forall m, c :: SameAt(st, a, OverrideName(m, c))
  }

  lemma WriteFee(ids: iset<string>, st: Store, m: string, c: string, v: Fee)
    requires WellTyped(st) && Apart(ids, iset{m})
    ensures var a := st[OverrideName(m, c) := FeeValue(v)];
            && Effect(ids, st, a, m, Fees(st, m) + iset{c}, Connectors(st, m), Clusters(st, m), Merchants(st))
            && WellTyped(a)
  {
    hide OverrideName, IndexName, ClustersName;
    var a := st[OverrideName(m, c) := FeeValue(v)];
    assert SameLists(st, a) by {
      forall m' ensures SameAt(st, a, IndexName(m')) && SameAt(st, a, ClustersName(m')) {
        FamiliesApart(m, c, m');
      }
      FamiliesApart(m, c, m);
    }
    forall m', c' | (m' in ids || m' == m) && (m' != m || c' != c) ensures SameAt(st, a, OverrideName(m', c')) {
      if OverrideName(m', c') == OverrideName(m, c) {
        OverrideNameInjective(m', c', m, c);
      }
    }
  }

  lemma EraseFee(ids: iset<string>, st: Store, m: string, c: string)
    requires WellTyped(st) && Apart(ids, iset{m})
    ensures var a := st - {OverrideName(m, c)};
            && Effect(ids, st, a, m, Fees(st, m) - iset{c}, Connectors(st, m), Clusters(st, m), Merchants(st))
            && WellTyped(a)
  {
    hide OverrideName, IndexName, ClustersName;
    var a := st - {OverrideName(m, c)};
    assert SameLists(st, a) by {
      forall m' ensures SameAt(st, a, IndexName(m')) && SameAt(st, a, ClustersName(m')) {
        FamiliesApart(m, c, m');
      }
      FamiliesApart(m, c, m);
    }
    forall m', c' | (m' in ids || m' == m) && (m' != m || c' != c) ensures SameAt(st, a, OverrideName(m', c')) {
      if OverrideName(m', c') == OverrideName(m, c) {
        OverrideNameInjective(m', c', m, c);
      }
    }
  }

  lemma WriteIndex(ids: iset<string>, st: Store, m: string, l: seq<string>)
    requires WellTyped(st)
    ensures var a := st[IndexName(m) := NamesValue(l)];
            Effect(ids, st, a, m, Fees(st, m), l, Clusters(st, m), Merchants(st)) && WellTyped(a)
  {
    hide OverrideName, IndexName, ClustersName;
    var a := st[IndexName(m) := NamesValue(l)];
    assert SameFees(st, a) by {
      forall m', c ensures SameAt(st, a, OverrideName(m', c)) { FamiliesApart(m', c, m); }
    }
    forall m' ensures SameAt(st, a, ClustersName(m')) && (m' != m ==> SameAt(st, a, IndexName(m'))) {
      FamiliesApart(m, "", m');
      IndexNameInjective(m, m');
    }
    FamiliesApart(m, "", m);
  }

  lemma IndexNameInjective(m: string, m': string)
    ensures IndexName(m) == IndexName(m') ==> m == m'
    ensures ClustersName(m) == ClustersName(m') ==> m == m'
  {
    if IndexName(m) == IndexName(m') {
      SuffixInjective("cost_fee_override_index::", m, m');
    }
    if ClustersName(m) == ClustersName(m') {
      SuffixInjective("cost_cluster_overrides::", m, m');
    }
  }

  lemma WriteClusters(ids: iset<string>, st: Store, m: string, l: seq<ClusterFee>)
    requires WellTyped(st)
    ensures var a := st[ClustersName(m) := ClustersValue(l)];
            Effect(ids, st, a, m, Fees(st, m), Connectors(st, m), l, Merchants(st)) && WellTyped(a)
  {
    hide OverrideName, IndexName, ClustersName;
    var a := st[ClustersName(m) := ClustersValue(l)];
    assert SameFees(st, a) by {
      forall m', c ensures SameAt(st, a, OverrideName(m', c)) { FamiliesApart(m', c, m); }
    }
    forall m' ensures SameAt(st, a, IndexName(m')) && (m' != m ==> SameAt(st, a, ClustersName(m'))) {
      FamiliesApart(m', "", m);
      IndexNameInjective(m, m');
    }
    FamiliesApart(m, "", m);
  }

  lemma WriteGlobal(ids: iset<string>, st: Store, m: string, l: seq<string>)
    requires WellTyped(st)
    ensures var a := st[GLOBAL := NamesValue(l)];
            Effect(ids, st, a, m, Fees(st, m), Connectors(st, m), Clusters(st, m), l) && WellTyped(a)
  {
    hide OverrideName, IndexName, ClustersName;
    var a := st[GLOBAL := NamesValue(l)];
    assert SameFees(st, a) by {
      forall m', c ensures SameAt(st, a, OverrideName(m', c)) { FamiliesApart(m', c, m); }
    }
    forall m' ensures SameAt(st, a, IndexName(m')) && SameAt(st, a, ClustersName(m')) {
      FamiliesApart(m', "", m');
    }
  }

  lemma NoEffect(ids: iset<string>, st: Store, m: string)
    ensures Effect(ids, st, st, m, Fees(st, m), Connectors(st, m), Clusters(st, m), Merchants(st))
  {
  }

  lemma AddConnector(ids: iset<string>, st: Store, m: string, c: string)
    requires WellTyped(st)
    ensures var a := IndexAdd(st, IndexName(m), c);
            && Effect(ids, st, a, m, Fees(st, m), Added(Connectors(st, m), c), Clusters(st, m), Merchants(st))
            && WellTyped(a)
  {
    WriteIndex(ids, st, m, Connectors(st, m) + [c]);
    NoEffect(ids, st, m);
    hide Effect, WellTyped, Fees, IndexName;
  }

  lemma AddMerchant(ids: iset<string>, st: Store, m: string)
    requires WellTyped(st)
    ensures var a := IndexAdd(st, GLOBAL, m);
            && Effect(ids, st, a, m, Fees(st, m), Connectors(st, m), Clusters(st, m), Added(Merchants(st), m))
            && WellTyped(a)
  {
    WriteGlobal(ids, st, m, Merchants(st) + [m]);
    NoEffect(ids, st, m);
    hide Effect, WellTyped, Fees;
  }

  lemma PruneEffect(ids: iset<string>, st: Store, m: string)
    requires WellTyped(st)
    ensures var a := Prune(st, m);
            && WellTyped(a)
            && Effect(ids, st, a, m, Fees(st, m), Connectors(st, m), Clusters(st, m),
                      if Connectors(st, m) == [] && Clusters(st, m) == [] then Without(Merchants(st), m)
                      else Merchants(st))
  {
    WriteGlobal(ids, st, m, Without(Merchants(st), m));
    NoEffect(ids, st, m);
    hide Effect, WellTyped, Fees;
  }

  /** Effects on one merchant compose. */
  lemma EffectThen(
    ids: iset<string>, st: Store, mid: Store, after: Store, m: string, fees: iset<string>, connectors: seq<string>,
    clusters: seq<ClusterFee>, merchants: seq<string>, fees': iset<string>, connectors': seq<string>,
    clusters': seq<ClusterFee>, merchants': seq<string>)
    requires Effect(ids, st, mid, m, fees, connectors, clusters, merchants)
    requires Effect(ids, mid, after, m, fees', connectors', clusters', merchants')
    ensures Effect(ids, st, after, m, fees', connectors', clusters', merchants')
  {
    hide HasFee, Connectors, Clusters, Merchants;
  }

  /** What the merchant's own reads give after an effect. */
  lemma EffectReads(
    ids: iset<string>, st: Store, mid: Store, m: string, fees: iset<string>, connectors: seq<string>,
    clusters: seq<ClusterFee>, merchants: seq<string>)
    requires Effect(ids, st, mid, m, fees, connectors, clusters, merchants)
    ensures Fees(mid, m) == fees && Connectors(mid, m) == connectors && Clusters(mid, m) == clusters
    ensures Merchants(mid) == merchants
  {
    hide HasFee, Connectors, Clusters, Merchants;
  }

  lemma PutEffect(ids: iset<string>, st: Store, m: string, c: string, fee: Fee)
    requires WellTyped(st) && Apart(ids, iset{m})
    ensures Effect(ids, st, Put(st, m, c, fee), m, Fees(st, m) + iset{c},
                   Added(Connectors(st, m), c), Clusters(st, m), Added(Merchants(st), m))
    ensures WellTyped(Put(st, m, c, fee))
  {
    hide Effect, WellTyped, Fees, IndexAdd, Connectors, Clusters, Merchants;
    var fees, cs, ks, ms := Fees(st, m) + iset{c}, Connectors(st, m), Clusters(st, m), Merchants(st);
    var s1 := st[OverrideName(m, c) := FeeValue(fee)];
    WriteFee(ids, st, m, c, fee);
    EffectReads(ids, st, s1, m, fees, cs, ks, ms);
    var s2 := IndexAdd(s1, IndexName(m), c);
    AddConnector(ids, s1, m, c);
    EffectThen(ids, st, s1, s2, m, fees, cs, ks, ms, fees, Added(cs, c), ks, ms);
    EffectReads(ids, st, s2, m, fees, Added(cs, c), ks, ms);
    AddMerchant(ids, s2, m);
    EffectThen(ids, st, s2, IndexAdd(s2, GLOBAL, m), m, fees, Added(cs, c), ks, ms,
               fees, Added(cs, c), ks, Added(ms, m));
  }

  lemma DeleteEffect(ids: iset<string>, st: Store, m: string, c: string)
    requires WellTyped(st) && Apart(ids, iset{m}) && HasFee(st, m, c)
    ensures var connectors := Without(Connectors(st, m), c);
            Effect(ids, st, Delete(st, m, c), m, Fees(st, m) - iset{c}, connectors, Clusters(st, m),
                   if connectors == [] && Clusters(st, m) == [] then Without(Merchants(st), m) else Merchants(st))
    ensures WellTyped(Delete(st, m, c))
  {
    hide Effect, WellTyped, Fees, Connectors, Clusters, Merchants, Without, Prune;
    var fees, cs, ks, ms := Fees(st, m) - iset{c}, Connectors(st, m), Clusters(st, m), Merchants(st);
    var s1 := st - {OverrideName(m, c)};
    EraseFee(ids, st, m, c);
    EffectReads(ids, st, s1, m, fees, cs, ks, ms);
    var kept := Without(cs, c);
    assert NamesAt(s1, IndexName(m)) == cs by { ConnectorsAre(s1, m); }
    var s2 := IndexRemove(s1, IndexName(m), c);
    WriteIndex(ids, s1, m, kept);
    EffectThen(ids, st, s1, s2, m, fees, cs, ks, ms, fees, kept, ks, ms);
    EffectReads(ids, st, s2, m, fees, kept, ks, ms);
    PruneEffect(ids, s2, m);
    EffectThen(ids, st, s2, Prune(s2, m), m, fees, kept, ks, ms, fees, kept, ks,
               if kept == [] && ks == [] then Without(ms, m) else ms);
  }

  lemma ConnectorsAre(st: Store, m: string)
    ensures NamesAt(st, IndexName(m)) == Connectors(st, m)
  {
  }

  lemma PutClusterEffect(ids: iset<string>, st: Store, m: string, o: ClusterFee)
    requires WellTyped(st) && Apart(ids, iset{m})
    ensures Effect(ids, st, PutCluster(st, m, o), m, Fees(st, m), Connectors(st, m),
                   WithoutDims(Clusters(st, m), o.dims) + [o], Added(Merchants(st), m))
    ensures WellTyped(PutCluster(st, m, o))
  {
    hide Effect, WellTyped, Fees, IndexAdd, Connectors, Clusters, Merchants, WithoutDims;
    var fees, cs, ms := Fees(st, m), Connectors(st, m), Merchants(st);
    var l := WithoutDims(Clusters(st, m), o.dims) + [o];
    var s1 := st[ClustersName(m) := ClustersValue(l)];
    WriteClusters(ids, st, m, l);
    EffectReads(ids, st, s1, m, fees, cs, l, ms);
    AddMerchant(ids, s1, m);
    EffectThen(ids, st, s1, IndexAdd(s1, GLOBAL, m), m, fees, cs, l, ms, fees, cs, l, Added(ms, m));
  }

  lemma DeleteClusterEffect(ids: iset<string>, st: Store, m: string, dims: Dims)
    requires WellTyped(st) && Apart(ids, iset{m})
    ensures var clusters := WithoutDims(Clusters(st, m), dims);
            Effect(ids, st, DeleteCluster(st, m, dims), m, Fees(st, m), Connectors(st, m), clusters,
                   if Connectors(st, m) == [] && clusters == [] then Without(Merchants(st), m) else Merchants(st))
    ensures WellTyped(DeleteCluster(st, m, dims))
  {
    hide Effect, WellTyped, Fees, Connectors, Clusters, Merchants, WithoutDims, Without, Prune;
    var fees, cs, ms := Fees(st, m), Connectors(st, m), Merchants(st);
    var list := Clusters(st, m);
    var l := WithoutDims(list, dims);
    var s1 := if |l| != |list| then st[ClustersName(m) := ClustersValue(l)] else st;
    WriteClusters(ids, st, m, l);
    NoEffect(ids, st, m);
    EffectReads(ids, st, s1, m, fees, cs, l, ms);
    PruneEffect(ids, s1, m);
    EffectThen(ids, st, s1, Prune(s1, m), m, fees, cs, l, ms, fees, cs, l,
               if cs == [] && l == [] then Without(ms, m) else ms);
  }

  /** An effect that keeps one merchant's own records in agreement keeps the whole store in agreement. */
  lemma EffectAgrees(
    ids: iset<string>, st: Store, after: Store, m: string, fees: iset<string>, connectors: seq<string>,
    clusters: seq<ClusterFee>, merchants: seq<string>)
    requires Agrees(st, ids) && Effect(ids, st, after, m, fees, connectors, clusters, merchants)
    requires m in ids ==> forall c :: c in connectors <==> c in fees
    requires NoDuplicates(connectors) && DistinctDims(clusters) && NoDuplicates(merchants)
    requires m in merchants <==> connectors != [] || clusters != []
    requires forall x :: x != m ==> (x in merchants <==> x in Merchants(st))
    ensures Agrees(after, ids)
  {
    hide Connectors, Clusters, Merchants, HasFee, NoDuplicates, DistinctDims;
  }

  datatype Call =
    | DoPut(merchant: string, connector: string, fee: Fee)
    | DoDelete(merchant: string, connector: string)
    | DoPutCluster(merchant: string, cluster: ClusterFee)
    | DoDeleteCluster(merchant: string, dims: Dims)

  function Apply(st: Store, call: Call): Store {
    match call
    case DoPut(m, c, fee) => Put(st, m, c, fee)
    case DoDelete(m, c) => Delete(st, m, c)
    case DoPutCluster(m, o) => PutCluster(st, m, o)
    case DoDeleteCluster(m, dims) => DeleteCluster(st, m, dims)
  }

  /** A call keeps the agreement for every id that does not overlap with its merchant's. */
  lemma CallKeepsInv(st: Store, ids: iset<string>, call: Call)
    requires Inv(st, ids) && Apart(ids, iset{call.merchant})
    ensures Inv(Apply(st, call), ids)
  {
    hide Effect, WellTyped, Put, Delete, PutCluster, DeleteCluster, HasFee, Connectors, Clusters, Merchants, Apart;
    var m := call.merchant;
    var ms := Merchants(st);
    match call
    case DoPut(_, c, fee) =>
      PutEffect(ids, st, m, c, fee);
      EffectAgrees(ids, st, Put(st, m, c, fee), m, Fees(st, m) + iset{c},
                   Added(Connectors(st, m), c), Clusters(st, m), Added(ms, m));
    case DoDelete(_, c) =>
      if HasFee(st, m, c) {
        DeleteEffect(ids, st, m, c);
        var connectors := Without(Connectors(st, m), c);
        EffectAgrees(ids, st, Delete(st, m, c), m, Fees(st, m) - iset{c}, connectors, Clusters(st, m),
                     if connectors == [] && Clusters(st, m) == [] then Without(ms, m) else ms);
      } else {
        DeleteAbsent(st, m, c);
      }
    case DoPutCluster(_, o) =>
      PutClusterEffect(ids, st, m, o);
      EffectAgrees(ids, st, PutCluster(st, m, o), m, Fees(st, m), Connectors(st, m),
                   WithoutDims(Clusters(st, m), o.dims) + [o], Added(ms, m));
    case DoDeleteCluster(_, dims) =>
      DeleteClusterEffect(ids, st, m, dims);
      var clusters := WithoutDims(Clusters(st, m), dims);
      EffectAgrees(ids, st, DeleteCluster(st, m, dims), m, Fees(st, m), Connectors(st, m), clusters,
                   if Connectors(st, m) == [] && clusters == [] then Without(ms, m) else ms);
  }

  lemma DeleteAbsent(st: Store, m: string, c: string)
    requires !HasFee(st, m, c)
    ensures Delete(st, m, c) == st
  {
  }

  function Run(calls: seq<Call>): Store {
    if calls == [] then map[] else Apply(Run(calls[..|calls| - 1]), calls[|calls| - 1])
  }

  ghost predicate CalledBy(calls: seq<Call>, callers: iset<string>) {
    forall call :: call in calls ==> call.merchant in callers
  }

  /** After every run of completed calls by `callers` the indices agree with the store for the merchants
      `ids`, if and only if no id overlaps a different caller's: a connector is indexed exactly when its
      override exists. For all ids without condition, a merchant is listed exactly when it has an override
      of either kind, nothing is listed twice and cluster overrides have distinct dims. */
  lemma RunsAgree(ids: iset<string>, callers: iset<string>)
    ensures (forall calls :: CalledBy(calls, callers) ==> Inv(Run(calls), ids)) <==> Apart(ids, callers)
    ensures forall calls :: Inv(Run(calls), iset{})
  {
    hide Inv, Run, Overlap;
    if Apart(ids, callers) {
      forall calls | CalledBy(calls, callers) ensures Inv(Run(calls), ids) {
        RunAgrees(ids, callers, calls);
      }
    } else {
      var m, m' :| m in ids && m' in callers && m != m' && Overlap(m, m');
      var calls := OverlappingRun(ids, m, m');
      assert CalledBy(calls, callers);
    }
    forall calls ensures Inv(Run(calls), iset{}) {
      RunAgrees(iset{}, iset call: Call | call in calls :: call.merchant, calls);
    }
  }

  lemma {:induction false} RunAgrees(ids: iset<string>, callers: iset<string>, calls: seq<Call>)
    requires Apart(ids, callers) && CalledBy(calls, callers)
    ensures Inv(Run(calls), ids)
  {
    hide Apply, Overlap;
    if calls == [] {
      EmptyAgrees(ids);
    } else {
      assert calls[|calls| - 1] in calls;
      RunAgrees(ids, callers, calls[..|calls| - 1]);
      CallKeepsInv(Run(calls[..|calls| - 1]), ids, calls[|calls| - 1]);
    }
  }

  /** One `put` for one of two overlapping ids stores an override that the other's index lacks. */
  lemma OverlappingRun(ids: iset<string>, m: string, m': string) returns (calls: seq<Call>)
    requires m in ids && m != m' && Overlap(m, m')
    ensures CalledBy(calls, iset{m'}) && !Inv(Run(calls), ids)
  {
    SharedRecordExactly(m, m');
    var c, c' :| OverrideName(m, c) == OverrideName(m', c');
    var fee := Fee(0.0, 0.0, "");
    calls := [DoPut(m', c', fee)];
    assert calls[..0] == [];
    var st := Run(calls);
    assert Run(calls[..0]) == map[];
    StrayPut(m, m', c, c', fee);
    assert HasFee(st, m, c) && Connectors(st, m) == [];
  }

  lemma StrayPut(m: string, m': string, c: string, c': string, fee: Fee)
    requires m != m' && OverrideName(m, c) == OverrideName(m', c')
    ensures HasFee(Put(map[], m', c', fee), m, c) && Connectors(Put(map[], m', c', fee), m) == []
  {
    hide OverrideName, IndexName, ClustersName;
    FamiliesApart(m', c', m);
    FamiliesApart(m', c', m');
    FamiliesApart(m, c, m);
    IndexNameInjective(m, m');
  }

  /** A concrete failure: merchants "a" and "a::b" share a record, and one `put` breaks the agreement. */
  lemma ColonsCollide(fee: Fee)
    ensures OverrideName("a::b", "c") == OverrideName("a", "b::c")
    ensures !Inv(Run([DoPut("a::b", "c", fee)]), iset{"a"})
  {
    var calls := [DoPut("a::b", "c", fee)];
    assert calls[..0] == [];
    assert Run(calls[..0]) == map[];
    assert OverrideName("a::b", "c") == OverrideName("a", "b::c");
    StrayPut("a", "a::b", "b::c", "c", fee);
  }

  lemma EmptyAgrees(ids: iset<string>)
    ensures Inv(map[], ids)
  {
  }

  // ---------------------------------------------------------------------------------------------
  // What is stored
  // ---------------------------------------------------------------------------------------------

  /** The fee of the last `put` for this merchant and connector, unless deleted since. */
  function LastPut(calls: seq<Call>, m: string, c: string): Option<Fee> {
    if calls == [] then None
    else
      match calls[|calls| - 1]
      case DoPut(m', c', fee) =>
        if m' == m && c' == c then Some(fee) else LastPut(calls[..|calls| - 1], m, c)
      case DoDelete(m', c') =>
        if m' == m && c' == c then None else LastPut(calls[..|calls| - 1], m, c)
      case _ => LastPut(calls[..|calls| - 1], m, c)
  }

  /** The cluster overrides by their last `put_cluster`, each at its latest place. */
  function LastClusters(calls: seq<Call>, m: string): seq<ClusterFee> {
    if calls == [] then []
    else
      var before := LastClusters(calls[..|calls| - 1], m);
      match calls[|calls| - 1]
      case DoPutCluster(m', o) => if m' == m then WithoutDims(before, o.dims) + [o] else before
      case DoDeleteCluster(m', dims) => if m' == m then WithoutDims(before, dims) else before
      case _ => before
  }

  function Stored(st: Store, m: string, c: string): Option<Value> {
    if OverrideName(m, c) in st then Some(st[OverrideName(m, c)]) else None
  }

  lemma StoredAfter(st: Store, call: Call, m: string, c: string)
    requires Apart(iset{m}, iset{call.merchant})
    ensures Stored(Apply(st, call), m, c) ==
            if call.DoPut? && call.merchant == m && call.connector == c then Some(FeeValue(call.fee))
            else if call.DoDelete? && call.merchant == m && call.connector == c then None
            else Stored(st, m, c)
  {
    var m' := call.merchant;
    FamiliesApart(m, c, m');
    if (call.DoPut? || call.DoDelete?) && OverrideName(m, c) == OverrideName(m', call.connector) {
      OverrideNameInjective(m, c, m', call.connector);
    }
    hide OverrideName, IndexName, ClustersName, Overlap, Apart, Without, WithoutDims, Connectors, Clusters;
  }

  lemma ClustersAfter(st: Store, call: Call, m: string)
    requires WellTyped(st)
    ensures Clusters(Apply(st, call), m) ==
            if call.DoPutCluster? && call.merchant == m then
              WithoutDims(Clusters(st, m), call.cluster.dims) + [call.cluster]
            else if call.DoDeleteCluster? && call.merchant == m then WithoutDims(Clusters(st, m), call.dims)
            else Clusters(st, m)
  {
    hide WellTyped, Put, Delete, PutCluster, DeleteCluster, HasFee, Connectors, Clusters, Merchants;
    match call
    case DoPut(m', c, fee) => PutEffect(iset{}, st, m', c, fee);
    case DoDelete(m', c) => if HasFee(st, m', c) { DeleteEffect(iset{}, st, m', c); } else { DeleteAbsent(st, m', c); }
    case DoPutCluster(m', o) => PutClusterEffect(iset{}, st, m', o);
    case DoDeleteCluster(m', dims) => DeleteClusterEffect(iset{}, st, m', dims);
  }

  /** Over every run: the cluster list is what the calls for this merchant left, and where no caller overlaps
      with the merchant, the stored override is the last one put and not deleted since. */
  lemma {:induction false} LastWriteWins(callers: iset<string>, calls: seq<Call>, m: string, c: string)
    requires CalledBy(calls, callers)
    ensures Clusters(Run(calls), m) == LastClusters(calls, m)
    ensures Apart(iset{m}, callers) ==>
            Stored(Run(calls), m, c) ==
            match LastPut(calls, m, c) case None => None case Some(fee) => Some(FeeValue(fee))
  {
    hide Apply, Overlap, Stored, Inv, Clusters;
    if calls == [] {
      NothingStored(m, c);
    } else {
      var before, call := calls[..|calls| - 1], calls[|calls| - 1];
      assert call in calls;
      LastWriteWins(callers, before, m, c);
      RunAgrees(iset{}, callers, before);
      TypedByInv(Run(before));
      ClustersAfter(Run(before), call, m);
      if Apart(iset{m}, callers) {
        StoredAfter(Run(before), call, m, c);
      }
    }
  }

  lemma NothingStored(m: string, c: string)
    ensures Clusters(map[], m) == [] && Stored(map[], m, c) == None
  {
  }

  lemma TypedByInv(st: Store)
    requires Inv(st, iset{})
    ensures WellTyped(st)
  {
  }

  lemma KeepsAll(st: Store, call: Call)
    ensures forall ids :: Inv(st, ids) && Apart(ids, iset{call.merchant}) ==> Inv(Apply(st, call), ids)
  {
    hide Inv, Apart, Apply;
    forall ids | Inv(st, ids) && Apart(ids, iset{call.merchant}) ensures Inv(Apply(st, call), ids) {
      CallKeepsInv(st, ids, call);
    }
  }

  /** The store as the source changes it. */
  class OverrideStore {
    var store: Store

    constructor ()
      ensures store == map[]
      ensures forall ids :: Inv(store, ids)
    {
      store := map[];
      forall ids ensures Inv(map[], ids) { EmptyAgrees(ids); }
    }

    method AddToIndex(name: string, item: string)
      modifies this
      ensures store == IndexAdd(old(store), name, item)
    {
      var list := NamesAt(store, name);
      if item !in list {
        store := store[name := NamesValue(list + [item])];
      }
    }

    /** Returns the remaining length. */
    method RemoveFromIndex(name: string, item: string) returns (remaining: nat)
      modifies this
      ensures store == IndexRemove(old(store), name, item)
      ensures remaining == |NamesAt(store, name)|
    {
      var list := NamesAt(store, name);
      var kept := Without(list, item);
      store := store[name := NamesValue(kept)];
      return |kept|;
    }

    method PutFee(m: string, c: string, fee: Fee)
      modifies this
      ensures store == Put(old(store), m, c, fee)
      ensures forall ids :: Inv(old(store), ids) && Apart(ids, iset{m}) ==> Inv(store, ids)
    {
      store := store[OverrideName(m, c) := FeeValue(fee)];
      AddToIndex(IndexName(m), c);
      AddToIndex(GLOBAL, m);
      KeepsAll(old(store), DoPut(m, c, fee));
    }

    method PruneGlobalIndex(m: string)
      modifies this
      ensures store == Prune(old(store), m)
    {
      if Connectors(store, m) == [] && Clusters(store, m) == [] {
        var _ := RemoveFromIndex(GLOBAL, m);
      }
    }

    /** `ok` is false when there was no such override. */
    method DeleteFee(m: string, c: string) returns (ok: bool)
      modifies this
      ensures ok == HasFee(old(store), m, c)
      ensures store == Delete(old(store), m, c)
      ensures forall ids :: Inv(old(store), ids) && Apart(ids, iset{m}) ==> Inv(store, ids)
    {
      ok := OverrideName(m, c) in store;
      KeepsAll(store, DoDelete(m, c));
      if ok {
        store := store - {OverrideName(m, c)};
        var _ := RemoveFromIndex(IndexName(m), c);
        PruneGlobalIndex(m);
      }
    }

    method PutClusterFee(m: string, o: ClusterFee)
      modifies this
      ensures store == PutCluster(old(store), m, o)
      ensures forall ids :: Inv(old(store), ids) && Apart(ids, iset{m}) ==> Inv(store, ids)
    {
      KeepsAll(store, DoPutCluster(m, o));
      var kept := WithoutDims(Clusters(store, m), o.dims);
      store := store[ClustersName(m) := ClustersValue(kept + [o])];
      AddToIndex(GLOBAL, m);
    }

    method DeleteClusterFee(m: string, dims: Dims)
      modifies this
      ensures store == DeleteCluster(old(store), m, dims)
      ensures forall ids :: Inv(old(store), ids) && Apart(ids, iset{m}) ==> Inv(store, ids)
    {
      KeepsAll(store, DoDeleteCluster(m, dims));
      var list := Clusters(store, m);
      var kept := WithoutDims(list, dims);
      if |kept| != |list| {
        store := store[ClustersName(m) := ClustersValue(kept)];
      }
      PruneGlobalIndex(m);
    }
  }

  /** `list`: the records of the indexed connectors, which under the agreement are exactly the stored
      overrides of the merchant, each once. */
  method List(st: Store, m: string) returns (out: seq<(string, Fee)>)
    ensures forall c, fee :: (c, fee) in out <==> c in Connectors(st, m) && Stored(st, m, c) == Some(FeeValue(fee))
    ensures Inv(st, iset{m}) ==>
            && (forall c, fee :: (c, fee) in out <==> Stored(st, m, c) == Some(FeeValue(fee)))
            && (forall i, j :: 0 <= i < j < |out| ==> out[i].0 != out[j].0)
  {
    hide OverrideName, IndexName, ClustersName;
    var connectors := Connectors(st, m);
    out := [];
    for i := 0 to |connectors|
      invariant forall c, fee :: (c, fee) in out <==>
                  c in connectors[..i] && Stored(st, m, c) == Some(FeeValue(fee))
      invariant NoDuplicates(connectors) ==> forall x, y :: 0 <= x < y < |out| ==> out[x].0 != out[y].0
    {
      var c := connectors[i];
      assert NoDuplicates(connectors) ==> forall j :: 0 <= j < i ==> connectors[j] != c;
      assert connectors[..i + 1] == connectors[..i] + [c];
      match Stored(st, m, c)
      case Some(FeeValue(fee)) => out := out + [(c, fee)];
      case _ =>
    }
    assert connectors[..|connectors|] == connectors;
  }
}
