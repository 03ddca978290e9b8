// The sampler of a run: over the distinct shards its recorders write to.
module SamplerSetup {
  import opened Recorders
  import opened Merging
  import opened MergeRuns
  import opened Sampler

  /** Each shard once, in the order the recorders first name them. Recorders that
      have no shard yet are passed over. */
  method NewSampler(recs: seq<Recorder>) returns (s: Sampler, shards: seq<Shard>)
    ensures ListsShards(shards, ShardsOf(recs))
    ensures fresh(s) && s.Valid() && s.shards == |shards| && s.last == Nothing(|shards|) && s.prevFailed == 0
  {
    shards := [];
    var seen: set<Shard> := {};
    ghost var all := ShardsOf(recs);
    for k := 0 to |recs|
      invariant ListsShards(shards, all[..k]) && forall sh :: sh in seen <==> sh in shards
    {
      ListsStep(shards, all, k);
      var sh := recs[k].shard;
      if sh != null && sh !in seen {
        seen, shards := seen + {sh}, shards + [sh];
      }
    }
    WholeSeq(all);
    s := new Sampler(|shards|);
  }
}
