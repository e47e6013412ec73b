/** `SequenceBySynthesisStep` (beers/sequence/sequence_by_synthesis_step.py):
    scores each cluster of a packet and puts the packet's clusters in
    flowcell order. */
module SequenceBySynthesis {
  import opened Wrappers
  import opened Sorting
  import opened FlowcellLanes
  import opened Clusters
  import opened Packets

  /** The sort key `cluster.coordinates`: tuples compare tile, then x, then y. */
  function CoordinatesKey(c: Cluster): seq<int>
  {
    SortKey(c.coordinates)
  }

  /** `sorted(clusters, key=lambda cluster: cluster.coordinates)`: the same
      clusters, ordered by coordinates, clusters at equal coordinates in
      their original order. */
  function ByCoordinates(clusters: seq<Cluster>): (r: seq<Cluster>)
    ensures |r| == |clusters| && multiset(r) == multiset(clusters)
    ensures SortedBy(r, CoordinatesKey)
    ensures forall k :: WithKey(r, CoordinatesKey, k) == WithKey(clusters, CoordinatesKey, k)
  {
    SortSorted(clusters, CoordinatesKey);
    SortPermutes(clusters, CoordinatesKey);
    assert forall k :: WithKey(Sort(clusters, CoordinatesKey), CoordinatesKey, k)
                       == WithKey(clusters, CoordinatesKey, k) by {
      forall k {
        SortStable(clusters, CoordinatesKey, k);
      }
    }
    Sort(clusters, CoordinatesKey)
  }

  /** Sorting clusters that are already in coordinate order changes nothing. */
  lemma {:induction false} ByCoordinatesIdempotent(clusters: seq<Cluster>)
    ensures ByCoordinates(ByCoordinates(clusters)) == ByCoordinates(clusters)
  {
    SortOfSorted(ByCoordinates(clusters), CoordinatesKey);
  }

  class SequenceBySynthesisStep {
    const logFilename: string

    /** The parameters are not read. */
    constructor (stepLogFilePath: string)
      ensures logFilename == stepLogFilePath
    {
      logFilename := stepLogFilePath;
    }

    /** `execute` as written: the loop calls `compute_quality_score`, which
        `Cluster` does not define, so a packet with a cluster raises
        `AttributeError` before anything changes; an empty packet is
        returned with its (empty) list sorted. */
    method Execute(packet: ClusterPacket) returns (r: Result<ClusterPacket>)
      modifies packet
      ensures old(packet.clusters) != [] ==> r == Err(AttributeError) && packet.clusters == old(packet.clusters)
      ensures old(packet.clusters) == [] ==> r == Ok(packet) && packet.clusters == []
    {
      if packet.clusters != [] {
        return Err(AttributeError);
      }
      packet.clusters := ByCoordinates(packet.clusters);
      return Ok(packet);
    }

    /** `execute` once every cluster has been scored: the packet's clusters
        are replaced by the same clusters in coordinate order. The scoring
        itself is not part of this model. */
    method ExecuteScored(packet: ClusterPacket) returns (r: ClusterPacket)
      modifies packet
      ensures r == packet && packet.clusters == ByCoordinates(old(packet.clusters))
      ensures multiset(packet.clusters) == multiset(old(packet.clusters))
      ensures SortedBy(packet.clusters, CoordinatesKey)
    {
      packet.clusters := ByCoordinates(packet.clusters);
      return packet;
    }

    /** `validate` accepts every parameter set. */
    function Validate(): (ok: bool)
      ensures ok
    {
      true
    }
  }
}
