/** The packets passed between pipeline steps (beers/molecule_packet.py and
    beers/cluster_packet.py, which are not part of this model). A packet
    belongs to one sample, which the modelled code only carries along; here
    the sample is represented by its name. */
module Packets {
  import opened Molecules
  import opened Clusters

  /** The molecules of one sample, as library preparation hands them over. */
  datatype MoleculePacket = MoleculePacket(sample: string, molecules: seq<Molecule>)

  /** The clusters of one sample. Sequencing steps replace the cluster list. */
  class ClusterPacket {
    const clusterPacketId: int
    const sample: string
    var clusters: seq<Cluster>

    constructor (clusterPacketId: int, sample: string, clusters: seq<Cluster>)
      ensures this.clusterPacketId == clusterPacketId && this.sample == sample
      ensures this.clusters == clusters
    {
      this.clusterPacketId := clusterPacketId;
      this.sample := sample;
      this.clusters := clusters;
    }
  }
}
