/** The broker's check of its cluster configuration before it starts: the
    partition count, the node id and the replication factor, in that
    order. */
module SystemConfig {
  import opened Common

  datatype ClusterCfg = ClusterCfg(partitionsCount: int, clusterSize: int, nodeId: int, replicationFactor: int)

  const PartitionCountError: string := "Partition count must not be smaller then 1."

  /** NODE_ID_ERROR_MSG with the node id and the cluster size. */
  function NodeIdError(nodeId: int, clusterSize: int): string
  {
    "Node id " + IntToString(nodeId) + " needs to be non negative and smaller then cluster size "
    + IntToString(clusterSize) + "."
  }

  /** REPLICATION_FACTOR_ERROR_MSG with the factor and the cluster size. */
  function ReplicationFactorError(replicationFactor: int, clusterSize: int): string
  {
    "Replication factor " + IntToString(replicationFactor)
    + " needs to be larger then zero and not larger then cluster size " + IntToString(clusterSize) + "."
  }

  /** validateConfiguration: None when the configuration is accepted, else the
      IllegalArgumentException of the first check that fails. An accepted
      configuration therefore has at least one node and no more replicas
      than nodes. */
  function Validate(c: ClusterCfg): (r: Option<Exception>)
    ensures r.None? <==> 1 <= c.partitionsCount && 0 <= c.nodeId < c.clusterSize && 1 <= c.replicationFactor <= c.clusterSize
    ensures c.partitionsCount < 1 ==> r == Some(IllegalArgumentException(PartitionCountError))
    ensures c.partitionsCount >= 1 && !(0 <= c.nodeId < c.clusterSize) ==>
      r == Some(IllegalArgumentException(NodeIdError(c.nodeId, c.clusterSize)))
    ensures c.partitionsCount >= 1 && 0 <= c.nodeId < c.clusterSize && !(1 <= c.replicationFactor <= c.clusterSize) ==>
      r == Some(IllegalArgumentException(ReplicationFactorError(c.replicationFactor, c.clusterSize)))
  {
    if c.partitionsCount < 1 then Some(IllegalArgumentException(PartitionCountError))
    else if c.nodeId < 0 || c.nodeId >= c.clusterSize then
      Some(IllegalArgumentException(NodeIdError(c.nodeId, c.clusterSize)))
    else if c.replicationFactor < 1 || c.replicationFactor > c.clusterSize then
      Some(IllegalArgumentException(ReplicationFactorError(c.replicationFactor, c.clusterSize)))
    else None
  }
}
