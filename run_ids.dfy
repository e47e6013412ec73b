/** The run-wide identifier counters. The source keeps them as class
    attributes (`Molecule.next_molecule_id`, `Cluster.next_cluster_id`,
    `ClusterPacket.next_cluster_packet_id`); here they are the fields of one
    object that the operations drawing identifiers receive and update. */
module RunIds {

  class IdAllocator {
    var nextMoleculeId: int
    var nextClusterId: int
    var nextClusterPacketId: int

    /** `Molecule.next_molecule_id` and `Cluster.next_cluster_id` start at 1;
        the first packet id belongs to the packet class, which is not part of
        this model, so it is a parameter. */
    constructor (firstClusterPacketId: int)
      ensures nextMoleculeId == 1 && nextClusterId == 1
      ensures nextClusterPacketId == firstClusterPacketId
    {
      nextMoleculeId := 1;
      nextClusterId := 1;
      nextClusterPacketId := firstClusterPacketId;
    }
  }
}
