/** The broker's topology manager: it reads the broker info other nodes
    publish in their membership properties, ignores nodes whose static
    configuration differs from the local one, keeps the topology's members
    and partition roles up to date from membership events, and publishes the
    local node's partition roles.

    The topology itself is the members by node id, the partition updates it
    was given, and the listener notifications, in order; a notification
    stands for delivering it to every registered listener. A broker info's
    partition roles are listed in the order they are consumed. */
module Topology {
  import opened Common
  import SystemConfig

  datatype RaftState = Leader | Follower

  datatype BrokerInfo = BrokerInfo(
    nodeId: int,
    partitionsCount: int,
    clusterSize: int,
    replicationFactor: int,
    commandApiAddress: Option<string>,
    partitions: seq<(int, RaftState)>)

  datatype NodeInfo = NodeInfo(nodeId: int, commandApiAddress: string)

  datatype EventType = MemberAdded | MemberRemoved | MetadataChanged | ReachabilityChanged

  datatype Notification =
    | MemberAddedNote(member: NodeInfo)
    | MemberRemovedNote(member: NodeInfo)
    | PartitionUpdated(partitionId: int, node: Option<NodeInfo>)

  /** topology.updatePartition: a partition, the member (None when the
      topology does not know it) and the role. */
  datatype PartitionUpdate = PartitionUpdate(partitionId: int, member: Option<NodeInfo>, role: RaftState)

  /** The local static configuration held by the topology. */
  datatype StaticConfig = StaticConfig(clusterSize: int, partitionsCount: int, replicationFactor: int)

  /** The topology as the event handlers change it. */
  datatype TopologyView = TopologyView(members: map<int, NodeInfo>, partitionUpdates: seq<PartitionUpdate>, notifications: seq<Notification>)

  /** isStaticConfigValid: the node id lies inside the local cluster and the
      cluster size, partition count and replication factor are the local
      ones. */
  predicate IsStaticConfigValid(cfg: StaticConfig, info: BrokerInfo)
  {
    && info.nodeId >= 0
    && info.nodeId < cfg.clusterSize
    && cfg.clusterSize == info.clusterSize
    && cfg.partitionsCount == info.partitionsCount
    && cfg.replicationFactor == info.replicationFactor
  }

  /** readBrokerInfo: the decoded broker info (None when the properties hold
      none), dropped when its static configuration differs. */
  function ReadBrokerInfo(cfg: StaticConfig, decoded: Option<BrokerInfo>): (r: Option<BrokerInfo>)
    ensures r.Some? <==> decoded.Some? && IsStaticConfigValid(cfg, decoded.value)
    ensures r.Some? ==> r == decoded
  {
    if decoded.Some? && !IsStaticConfigValid(cfg, decoded.value) then None else decoded
  }

  /** The partition updates of a metadata change, in consume order. */
  function Updates(ps: seq<(int, RaftState)>, member: Option<NodeInfo>): (us: seq<PartitionUpdate>)
    ensures |us| == |ps|
    ensures forall i :: 0 <= i < |ps| ==> us[i] == PartitionUpdate(ps[i].0, member, ps[i].1)
  {
    if |ps| == 0 then [] else Updates(ps[..|ps| - 1], member) + [PartitionUpdate(ps[|ps| - 1].0, member, ps[|ps| - 1].1)]
  }

  function UpdateNotes(ps: seq<(int, RaftState)>, member: Option<NodeInfo>): (ns: seq<Notification>)
    ensures |ns| == |ps|
    ensures forall i :: 0 <= i < |ps| ==> ns[i] == PartitionUpdated(ps[i].0, member)
  {
    if |ps| == 0 then [] else UpdateNotes(ps[..|ps| - 1], member) + [PartitionUpdated(ps[|ps| - 1].0, member)]
  }

  function MemberOf(v: TopologyView, nodeId: int): Option<NodeInfo>
  {
    if nodeId in v.members then Some(v.members[nodeId]) else None
  }

  /** onMemberAdded: a broker with a command-API address joins when its node
      id is new, and only then are listeners told. */
  function AddedStep(v: TopologyView, info: BrokerInfo): (r: TopologyView)
    ensures r.partitionUpdates == v.partitionUpdates
    ensures info.commandApiAddress.Some? && info.nodeId !in v.members ==>
      && r.members == v.members[info.nodeId := NodeInfo(info.nodeId, info.commandApiAddress.value)]
      && r.notifications == v.notifications + [MemberAddedNote(NodeInfo(info.nodeId, info.commandApiAddress.value))]
    ensures info.commandApiAddress.None? || info.nodeId in v.members ==> r == v
  {
    match info.commandApiAddress
    case None => v
    case Some(address) =>
      var node := NodeInfo(info.nodeId, address);
      if info.nodeId in v.members then v
      else v.(members := v.members[info.nodeId := node], notifications := v.notifications + [MemberAddedNote(node)])
  }

  /** onMetadataChanged: every partition role of the info updates the
      topology for the member with that node id, and is notified. */
  function MetadataStep(v: TopologyView, info: BrokerInfo): (r: TopologyView)
    ensures r.members == v.members
  {
    var member := MemberOf(v, info.nodeId);
    v.(partitionUpdates := v.partitionUpdates + Updates(info.partitions, member),
       notifications := v.notifications + UpdateNotes(info.partitions, member))
  }

  /** onMemberRemoved: a known member leaves and listeners are told; an
      unknown one changes nothing. */
  function RemovedStep(v: TopologyView, info: BrokerInfo): (r: TopologyView)
    ensures info.nodeId in v.members ==>
      && r.members == v.members - {info.nodeId}
      && r.notifications == v.notifications + [MemberRemovedNote(v.members[info.nodeId])]
      && r.partitionUpdates == v.partitionUpdates
    ensures info.nodeId !in v.members ==> r == v
  {
    if info.nodeId in v.members then
      v.(members := v.members - {info.nodeId}, notifications := v.notifications + [MemberRemovedNote(v.members[info.nodeId])])
    else v
  }

  /** The dispatch on the event type. */
  function Dispatch(v: TopologyView, t: EventType, info: BrokerInfo): TopologyView
  {
    match t
    case MetadataChanged => MetadataStep(v, info)
    case MemberAdded => MetadataStep(AddedStep(v, info), info)
    case MemberRemoved => RemovedStep(v, info)
    case ReachabilityChanged => v
  }

  /** event: events without valid broker info, and events about the local
      node, are ignored. */
  function OnEvent(v: TopologyView, cfg: StaticConfig, localNodeId: int, t: EventType, decoded: Option<BrokerInfo>): TopologyView
  {
    var info := ReadBrokerInfo(cfg, decoded);
    if info.None? || info.value.nodeId == localNodeId then v else Dispatch(v, t, info.value)
  }

  /** Every member sits at its node id, inside the cluster, and is not the
      local node. */
  predicate MembersValid(members: map<int, NodeInfo>, cfg: StaticConfig, localNodeId: int)
  {
    forall id :: id in members ==> members[id].nodeId == id && 0 <= id < cfg.clusterSize && id != localNodeId
  }

  /** Events keep the members valid: nodes with a foreign static
      configuration and the local node never join. */
  lemma EventKeepsMembersValid(v: TopologyView, cfg: StaticConfig, localNodeId: int, t: EventType, decoded: Option<BrokerInfo>)
    requires MembersValid(v.members, cfg, localNodeId)
    ensures MembersValid(OnEvent(v, cfg, localNodeId, t, decoded).members, cfg, localNodeId)
  {
  }

  lemma IgnoredEvents(v: TopologyView, cfg: StaticConfig, localNodeId: int, t: EventType, decoded: Option<BrokerInfo>)
    requires decoded.None? || !IsStaticConfigValid(cfg, decoded.value) || decoded.value.nodeId == localNodeId
             || t == ReachabilityChanged
    ensures OnEvent(v, cfg, localNodeId, t, decoded) == v
  {
  }

  /** A new node that is added and then removed leaves the members as they
      were, and listeners saw it come and go. */
  lemma AddThenRemove(v: TopologyView, cfg: StaticConfig, localNodeId: int, info: BrokerInfo)
    requires IsStaticConfigValid(cfg, info) && info.nodeId != localNodeId
    requires info.commandApiAddress.Some? && info.nodeId !in v.members
    ensures var node := NodeInfo(info.nodeId, info.commandApiAddress.value);
      var w := OnEvent(OnEvent(v, cfg, localNodeId, MemberAdded, Some(info)), cfg, localNodeId, MemberRemoved, Some(info));
      && w.members == v.members
      && w.notifications == v.notifications + [MemberAddedNote(node)]
        + UpdateNotes(info.partitions, Some(node)) + [MemberRemovedNote(node)]
  {
    var node := NodeInfo(info.nodeId, info.commandApiAddress.value);
    var a := AddedStep(v, info);
    assert MemberOf(a, info.nodeId) == Some(node);
    assert a.members - {info.nodeId} == v.members;
  }

  /** The static configuration of a cluster configuration. */
  function StaticOf(c: SystemConfig.ClusterCfg): StaticConfig
  {
    StaticConfig(c.clusterSize, c.partitionsCount, c.replicationFactor)
  }

  /** Two brokers started with the same accepted cluster configuration (up to
      the node id) accept each other's broker info. */
  lemma AcceptedConfigsAgree(local: SystemConfig.ClusterCfg, remote: SystemConfig.ClusterCfg, address: Option<string>,
                             ps: seq<(int, RaftState)>)
    requires SystemConfig.Validate(remote).None?
    requires StaticOf(local) == StaticOf(remote)
    ensures IsStaticConfigValid(StaticOf(local),
      BrokerInfo(remote.nodeId, remote.partitionsCount, remote.clusterSize, remote.replicationFactor, address, ps))
  {
  }

  /** The role entries of a list of partitions. */
  function Roles(ps: seq<int>, role: RaftState): (rs: seq<(int, RaftState)>)
    ensures |rs| == |ps|
    ensures forall i :: 0 <= i < |ps| ==> rs[i] == (ps[i], role)
  {
    if |ps| == 0 then [] else Roles(ps[..|ps| - 1], role) + [(ps[|ps| - 1], role)]
  }

  /** The published roles name exactly the local leaders as leaders and the
      local followers as followers. */
  lemma LocalRolesExact(leaders: seq<int>, followers: seq<int>, p: int)
    ensures (p, Leader) in Roles(leaders, Leader) + Roles(followers, Follower) <==> p in leaders
    ensures (p, Follower) in Roles(leaders, Leader) + Roles(followers, Follower) <==> p in followers
  {
    var rs := Roles(leaders, Leader) + Roles(followers, Follower);
    if (p, Leader) in rs {
      var i :| 0 <= i < |rs| && rs[i] == (p, Leader);
      assert i < |leaders| && leaders[i] == p;
    }
    if p in leaders {
      var i :| 0 <= i < |leaders| && leaders[i] == p;
      assert rs[i] == (p, Leader);
    }
    if (p, Follower) in rs {
      var i :| 0 <= i < |rs| && rs[i] == (p, Follower);
      assert i >= |leaders| && followers[i - |leaders|] == p;
    }
    if p in followers {
      var i :| 0 <= i < |followers| && followers[i] == p;
      assert rs[|leaders| + i] == (p, Follower);
    }
  }

  class TopologyManager {
    const cfg: StaticConfig
    const local: NodeInfo
    var members: map<int, NodeInfo>
    var partitionUpdates: seq<PartitionUpdate>
    var notifications: seq<Notification>
    /** the local node info's leader and follower partitions */
    var localLeaders: seq<int>
    var localFollowers: seq<int>
    /** the partition roles of distributionInfo */
    var distributionPartitions: seq<(int, RaftState)>
    /** the broker info last written into the local member's properties */
    var published: Option<BrokerInfo>

    function CurrentView(): TopologyView
      reads this
    {
      TopologyView(members, partitionUpdates, notifications)
    }

    /** distributionInfo: the local node id and address, the local static
        configuration and the partition roles. */
    function DistributionInfo(): BrokerInfo
      reads this
    {
      BrokerInfo(local.nodeId, cfg.partitionsCount, cfg.clusterSize, cfg.replicationFactor,
                 Some(local.commandApiAddress), distributionPartitions)
    }

    /** The topology starts with the local node's partitions empty, and the
        local broker info is published at once. */
    constructor(localBroker: NodeInfo, clusterCfg: SystemConfig.ClusterCfg)
      ensures cfg == StaticOf(clusterCfg) && local == localBroker
      ensures members == map[] && partitionUpdates == [] && notifications == []
      ensures localLeaders == [] && localFollowers == [] && distributionPartitions == []
      ensures published == Some(DistributionInfo())
    {
      cfg := StaticOf(clusterCfg);
      local := localBroker;
      members := map[];
      partitionUpdates := [];
      notifications := [];
      localLeaders := [];
      localFollowers := [];
      distributionPartitions := [];
      published := Some(BrokerInfo(localBroker.nodeId, clusterCfg.partitionsCount, clusterCfg.clusterSize,
                                   clusterCfg.replicationFactor, Some(localBroker.commandApiAddress), []));
    }

    /** event: the handlers run for a valid remote broker info. */
    method Event(t: EventType, decoded: Option<BrokerInfo>)
      modifies this`members, this`partitionUpdates, this`notifications
      ensures CurrentView() == OnEvent(old(CurrentView()), cfg, local.nodeId, t, decoded)
    {
      var brokerInfo := ReadBrokerInfo(cfg, decoded);
      if brokerInfo.Some? && brokerInfo.value.nodeId != local.nodeId {
        var info := brokerInfo.value;
        match t {
          case MetadataChanged =>
            OnMetadataChanged(info);
          case MemberAdded =>
            OnMemberAdded(info);
            OnMetadataChanged(info);
          case MemberRemoved =>
            OnMemberRemoved(info);
          case ReachabilityChanged =>
        }
      }
    }

    method OnMemberRemoved(info: BrokerInfo)
      modifies this`members, this`notifications
      ensures CurrentView() == RemovedStep(old(CurrentView()), info)
    {
      if info.nodeId in members {
        var nodeInfo := members[info.nodeId];
        members := members - {info.nodeId};
        notifications := notifications + [MemberRemovedNote(nodeInfo)];
      }
    }

    method OnMemberAdded(info: BrokerInfo)
      modifies this`members, this`notifications
      ensures CurrentView() == AddedStep(old(CurrentView()), info)
    {
      if info.commandApiAddress.Some? {
        var nodeInfo := NodeInfo(info.nodeId, info.commandApiAddress.value);
        var added := info.nodeId !in members;
        if added {
          members := members[info.nodeId := nodeInfo];
          notifications := notifications + [MemberAddedNote(nodeInfo)];
        }
      }
    }

    /** onMetadataChanged: one update and one notification per partition
        role, in order. */
    method OnMetadataChanged(info: BrokerInfo)
      modifies this`partitionUpdates, this`notifications
      ensures CurrentView() == MetadataStep(old(CurrentView()), info)
    {
      var nodeInfo := if info.nodeId in members then Some(members[info.nodeId]) else None;
      var updates := partitionUpdates;
      var notes := notifications;
      var ps := info.partitions;
      var i := 0;
      while i < |ps|
        invariant 0 <= i <= |ps|
        invariant updates == partitionUpdates + Updates(ps[..i], nodeInfo)
        invariant notes == notifications + UpdateNotes(ps[..i], nodeInfo)
        decreases |ps| - i
      {
        assert ps[..i + 1][..i] == ps[..i];
        updates := updates + [PartitionUpdate(ps[i].0, nodeInfo, ps[i].1)];
        notes := notes + [PartitionUpdated(ps[i].0, nodeInfo)];
        i := i + 1;
      }
      assert ps[..|ps|] == ps;
      partitionUpdates := updates;
      notifications := notes;
    }

    /** createLocalNodeBrokerInfo: the partition roles are cleared and then
        filled with the local leaders, then the local followers. */
    method CreateLocalNodeBrokerInfo() returns (info: BrokerInfo)
      modifies this`distributionPartitions
      ensures distributionPartitions == Roles(localLeaders, Leader) + Roles(localFollowers, Follower)
      ensures info == DistributionInfo()
    {
      var roles: seq<(int, RaftState)> := [];
      var i := 0;
      while i < |localLeaders|
        invariant 0 <= i <= |localLeaders|
        invariant roles == Roles(localLeaders[..i], Leader)
        decreases |localLeaders| - i
      {
        assert localLeaders[..i + 1][..i] == localLeaders[..i];
        roles := roles + [(localLeaders[i], Leader)];
        i := i + 1;
      }
      assert localLeaders[..|localLeaders|] == localLeaders;
      var j := 0;
      while j < |localFollowers|
        invariant 0 <= j <= |localFollowers|
        invariant roles == Roles(localLeaders, Leader) + Roles(localFollowers[..j], Follower)
        decreases |localFollowers| - j
      {
        assert localFollowers[..j + 1][..j] == localFollowers[..j];
        roles := roles + [(localFollowers[j], Follower)];
        j := j + 1;
      }
      assert localFollowers[..|localFollowers|] == localFollowers;
      distributionPartitions := roles;
      info := DistributionInfo();
    }

    /** publishTopologyChanges: the fresh local broker info is written into
        the local member's properties. */
    method PublishTopologyChanges()
      modifies this`distributionPartitions, this`published
      ensures distributionPartitions == Roles(localLeaders, Leader) + Roles(localFollowers, Follower)
      ensures published == Some(DistributionInfo())
    {
      var info := CreateLocalNodeBrokerInfo();
      published := Some(info);
    }
  }
}
