/** Cluster-shape validation (src/config.rs). */
module Config {
  import opened Types

  const ROUTING_FIXED_HEADROOM: nat := 64 * 1024
  const DIRECTORY_ENTRY_BUDGET: nat := 64 + 2 * MAX_ENDPOINT_BYTES
  const PLACEMENT_FIXED_BUDGET: nat := 64

  /** The conservative estimate of the largest routing snapshot a cluster of this shape can produce. */
  function RoutingEstimate(p: nat, r: nat): nat {
    ROUTING_FIXED_HEADROOM + MAX_CLUSTER_NODES * DIRECTORY_ENTRY_BUDGET + p * (PLACEMENT_FIXED_BUDGET + 2 * r * 8)
  }

  /** `validate_routing_shape`. */
  predicate ValidRoutingShape(p: nat, r: nat) {
    r <= MAX_CLUSTER_NODES && RoutingEstimate(p, r) <= MAX_ROUTING_PAYLOAD_BYTES
  }

  datatype InitConfig = InitConfig(p: u16, r: nat, bootstrapNodes: seq<NodeId>, metaVoters: seq<NodeId>, hashSeed: nat)

  /** `InitConfig::validate`. */
  predicate ValidInit(c: InitConfig) {
    var bootstrap, meta := VoterSet(c.bootstrapNodes), VoterSet(c.metaVoters);
    && c.p != 0
    && c.r >= MIN_REPLICATION
    && ValidRoutingShape(c.p, c.r)
    && |bootstrap| == |c.bootstrapNodes|
    && |bootstrap| <= MAX_CLUSTER_NODES
    && 0 !in bootstrap
    && |bootstrap| >= c.r
    && |meta| == |c.metaVoters|
    && |meta| >= MIN_META_VOTERS
    && |meta| % 2 == 1
    && meta <= bootstrap
  }
}
