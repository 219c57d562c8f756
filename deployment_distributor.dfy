/** The distribution of a deployment from the deployment partition to every
    other partition: the deployment is stored as pending with one expected
    response per target partition, pushed to each partition whose leader is
    known, and its future completes when the last response arrives.

    The partition leaders a pass sees are a parameter; the messaging, the
    delayed retries and the response subscriptions are not part of this
    model. */
module DeploymentDistribution {
  import opened Common

  type Bytes = seq<bv8>

  /** A pending deployment: the deployment, its source position and the
      number of responses still expected. */
  datatype PendingDeploymentDistribution = PendingDeploymentDistribution(deployment: Bytes, sourcePosition: int, distributionCount: int)

  /** A push request sent to a partition's leader. */
  datatype Push = Push(nodeId: int, partitionId: int, deploymentKey: int)

  /** A response read from a response topic. */
  datatype Response =
    | PushDeploymentResponse(deploymentKey: int, partitionId: int)
    | ErrorResponse(errorData: string)
    | UnknownResponse

  /** IntArrayList.removeInt: the first occurrence of the value goes. */
  function RemoveInt(list: seq<int>, value: int): (r: seq<int>)
    ensures value !in list ==> r == list
    ensures value in list ==> |r| == |list| - 1
    ensures multiset(r) == multiset(list) - multiset{value}
  {
    if |list| == 0 then []
    else
      assert list == [list[0]] + list[1..];
      if list[0] == value then list[1..] else [list[0]] + RemoveInt(list[1..], value)
  }

  /** removeInt drops the first occurrence and keeps the others in order:
      what precedes it and what follows it, joined. */
  lemma {:induction false} RemoveIntFirstOccurrence(list: seq<int>, value: int, i: nat)
    requires i < |list| && list[i] == value && value !in list[..i]
    ensures RemoveInt(list, value) == list[..i] + list[i + 1..]
    decreases i
  {
    if i > 0 {
      assert list[0] != value;
      assert list[1..][..i - 1] == list[..i][1..];
      RemoveIntFirstOccurrence(list[1..], value, i - 1);
      assert list[1..][i..] == list[i + 1..];
      assert list[..i] == [list[0]] + list[1..][..i - 1];
    }
  }

  /** The target partitions hold every configured partition but the
      deployment partition; with distinct partition ids it is gone entirely. */
  lemma {:induction false} TargetPartitions(partitionIds: seq<int>, deploymentPartition: int, p: int)
    requires forall i, j :: 0 <= i < j < |partitionIds| ==> partitionIds[i] != partitionIds[j]
    ensures p in RemoveInt(partitionIds, deploymentPartition) <==> p in partitionIds && p != deploymentPartition
  {
    if |partitionIds| > 0 {
      var tail := partitionIds[1..];
      assert partitionIds == [partitionIds[0]] + tail;
      if partitionIds[0] == deploymentPartition {
        assert forall k :: 0 <= k < |tail| ==> tail[k] == partitionIds[k + 1];
        assert deploymentPartition !in tail;
      } else {
        assert forall i, j :: 0 <= i < j < |tail| ==> tail[i] == partitionIds[i + 1] && tail[j] == partitionIds[j + 1];
        TargetPartitions(tail, deploymentPartition, p);
      }
    }
  }

  /** The partitions of a pass that have a leader, with the pushes sent to
      them, and those that remain, in their original order. */
  function Pushed(ps: seq<int>, leaders: map<int, int>, key: int): seq<Push>
  {
    if |ps| == 0 then []
    else
      var p := ps[|ps| - 1];
      Pushed(ps[..|ps| - 1], leaders, key) + (if p in leaders then [Push(leaders[p], p, key)] else [])
  }

  function Remaining(ps: seq<int>, leaders: map<int, int>): seq<int>
  {
    if |ps| == 0 then []
    else
      var p := ps[|ps| - 1];
      Remaining(ps[..|ps| - 1], leaders) + (if p in leaders then [] else [p])
  }

  /** A pass splits the partitions: each is either pushed to its current
      leader or remains, none is lost or repeated. */
  lemma {:induction false} PassSplitsPartitions(ps: seq<int>, leaders: map<int, int>, key: int)
    ensures |Pushed(ps, leaders, key)| + |Remaining(ps, leaders)| == |ps|
    ensures forall p :: p in Remaining(ps, leaders) <==> p in ps && p !in leaders
    ensures forall x :: x in Pushed(ps, leaders, key) ==>
      x.partitionId in ps && x.partitionId in leaders && x.nodeId == leaders[x.partitionId] && x.deploymentKey == key
  {
    if |ps| > 0 {
      var front := ps[..|ps| - 1];
      PassSplitsPartitions(front, leaders, key);
      assert ps == front + [ps[|ps| - 1]];
      assert forall p :: p in ps <==> p in front || p == ps[|ps| - 1];
    }
  }

  /** getDeploymentResponseTopic */
  function DeploymentResponseTopic(key: int): (topic: string)
    ensures StartsWith(topic, "deployment-response-")
  {
    "deployment-response-" + IntToString(key)
  }

  /** Distinct deployments listen on distinct topics. */
  lemma TopicsDistinct(a: int, b: int)
    requires DeploymentResponseTopic(a) == DeploymentResponseTopic(b)
    ensures a == b
  {
    var prefix := "deployment-response-";
    assert IntToString(a) == DeploymentResponseTopic(a)[|prefix|..];
    assert IntToString(b) == DeploymentResponseTopic(b)[|prefix|..];
    IntToStringInjective(a, b);
  }

  /** The message of the java.lang.NullPointerException thrown when the
      future to complete is missing. */
  const NullPointer: string := "NullPointerException"

  class DeploymentDistributor {
    const partitionsToDistributeTo: seq<int>
    /** deploymentsState's pending deployments */
    var pendingDeployments: map<int, PendingDeploymentDistribution>
    /** every future handed out, by creation order */
    var futures: seq<Future<()>>
    /** pendingDeploymentFutures: deployment key to its future */
    var pendingFutures: map<int, nat>
    var pushes: seq<Push>
    var deploymentResponses: map<string, seq<int>>

    ghost predicate Valid()
      reads this
    {
      forall k :: k in pendingFutures ==> pendingFutures[k] < |futures|
    }

    /** The targets are the partition ids without the deployment
        partition. */
    constructor(partitionIds: seq<int>, deploymentPartition: int)
      ensures Valid()
      ensures partitionsToDistributeTo == RemoveInt(partitionIds, deploymentPartition)
      ensures pendingDeployments == map[] && futures == [] && pendingFutures == map[]
      ensures pushes == [] && deploymentResponses == map[]
    {
      partitionsToDistributeTo := RemoveInt(partitionIds, deploymentPartition);
      pendingDeployments := map[];
      futures := [];
      pendingFutures := map[];
      pushes := [];
      deploymentResponses := map[];
    }

    /** pushDeployment: the deployment is pending with one expected response
        per target; with no target its future completes at once, otherwise
        a first pass pushes to every target with a known leader. */
    method PushDeployment(key: int, position: int, buffer: Bytes, leaders: map<int, int>)
      returns (f: nat, remaining: seq<int>)
      requires Valid()
      modifies this`pendingDeployments, this`futures, this`pendingFutures, this`pushes
      ensures Valid()
      ensures f == |old(futures)| && |futures| == f + 1 && futures[..f] == old(futures)
      ensures pendingDeployments == old(pendingDeployments)[key := PendingDeploymentDistribution(buffer, position, |partitionsToDistributeTo|)]
      ensures |partitionsToDistributeTo| == 0 ==>
        && futures[f] == Completed(())
        && pendingFutures == old(pendingFutures) - {key}
        && pushes == old(pushes) && remaining == []
      ensures |partitionsToDistributeTo| > 0 ==>
        && futures[f] == Pending
        && pendingFutures == old(pendingFutures)[key := f]
        && pushes == old(pushes) + Pushed(partitionsToDistributeTo, leaders, key)
        && remaining == Remaining(partitionsToDistributeTo, leaders)
    {
      pendingDeployments := pendingDeployments[key := PendingDeploymentDistribution(buffer, position, |partitionsToDistributeTo|)];
      f := |futures|;
      futures := futures + [Pending];
      pendingFutures := pendingFutures[key := f];
      if |partitionsToDistributeTo| > 0 {
        remaining := DistributeDeploymentToPartitions(partitionsToDistributeTo, leaders, key);
      } else {
        futures := futures[f := Completed(())];
        pendingFutures := pendingFutures - {key};
        remaining := [];
      }
    }

    /** distributeDeploymentToPartitions: one pass over the remaining
        partitions; those with a leader are pushed to and removed. */
    method DistributeDeploymentToPartitions(remainingPartitions: seq<int>, leaders: map<int, int>, key: int)
      returns (rest: seq<int>)
      modifies this`pushes
      ensures pushes == old(pushes) + Pushed(remainingPartitions, leaders, key)
      ensures rest == Remaining(remainingPartitions, leaders)
    {
      var sent := pushes;
      rest := [];
      var i := 0;
      while i < |remainingPartitions|
        invariant 0 <= i <= |remainingPartitions|
        invariant sent == pushes + Pushed(remainingPartitions[..i], leaders, key)
        invariant rest == Remaining(remainingPartitions[..i], leaders)
        decreases |remainingPartitions| - i
      {
        assert remainingPartitions[..i + 1][..i] == remainingPartitions[..i];
        var partitionId := remainingPartitions[i];
        if partitionId in leaders {
          sent := sent + [Push(leaders[partitionId], partitionId, key)];
        } else {
          rest := rest + [partitionId];
        }
        i := i + 1;
      }
      assert remainingPartitions[..|remainingPartitions|] == remainingPartitions;
      pushes := sent;
    }

    /** handlePushResponse: a response for a pending deployment counts down;
        at zero its future completes and is forgotten. A response for an
        unknown deployment is ignored. Reaching zero with no future left
        (futures are not persisted) throws a java.lang.NullPointerException,
        after the decremented count was stored. */
    method HandlePushResponse(key: int) returns (r: Result<bool>)
      requires Valid()
      modifies this`pendingDeployments, this`futures, this`pendingFutures
      ensures Valid()
      ensures key !in old(pendingDeployments) ==>
        r == Ok(false) && pendingDeployments == old(pendingDeployments)
        && futures == old(futures) && pendingFutures == old(pendingFutures)
      ensures key in old(pendingDeployments) ==>
        var count := old(pendingDeployments)[key].distributionCount - 1;
        && pendingDeployments == old(pendingDeployments)[key := old(pendingDeployments)[key].(distributionCount := count)]
        && (count != 0 ==> r == Ok(true) && futures == old(futures) && pendingFutures == old(pendingFutures))
        && (count == 0 && key in old(pendingFutures) ==>
              && r == Ok(true)
              && futures == old(futures)[old(pendingFutures)[key] := Completed(())]
              && pendingFutures == old(pendingFutures) - {key})
        && (count == 0 && key !in old(pendingFutures) ==>
              r == Err(NullPointer) && futures == old(futures) && pendingFutures == old(pendingFutures))
    {
      if key !in pendingDeployments {
        return Ok(false);
      }
      var pending := pendingDeployments[key];
      var remainingPartitions := pending.distributionCount - 1;
      pendingDeployments := pendingDeployments[key := pending.(distributionCount := remainingPartitions)];
      if remainingPartitions == 0 {
        if key !in pendingFutures {
          return Err(NullPointer);
        }
        var f := pendingFutures[key];
        pendingFutures := pendingFutures - {key};
        futures := futures[f := Completed(())];
      }
      r := Ok(true);
    }

    /** getPartitionResponses: the partitions still to answer on a topic,
        starting as all targets. */
    method GetPartitionResponses(topic: string) returns (missing: seq<int>)
      modifies this`deploymentResponses
      ensures topic in old(deploymentResponses) ==>
        missing == old(deploymentResponses)[topic] && deploymentResponses == old(deploymentResponses)
      ensures topic !in old(deploymentResponses) ==>
        missing == partitionsToDistributeTo
        && deploymentResponses == old(deploymentResponses)[topic := partitionsToDistributeTo]
    {
      if topic !in deploymentResponses {
        deploymentResponses := deploymentResponses[topic := partitionsToDistributeTo];
      }
      missing := deploymentResponses[topic];
    }

    /** The partitions still to answer on a topic, as getPartitionResponses
        finds or creates them. */
    function MissingResponses(topic: string): seq<int>
      reads this
    {
      if topic in deploymentResponses then deploymentResponses[topic] else partitionsToDistributeTo
    }

    /** getPartitionResponses(topic).removeInt(partitionId): the partition
        no longer has to answer on the topic; no other topic changes. */
    method StrikeResponse(topic: string, partitionId: int)
      modifies this`deploymentResponses
      ensures deploymentResponses == old(deploymentResponses)[topic := RemoveInt(old(MissingResponses(topic)), partitionId)]
    {
      var missingResponses := GetPartitionResponses(topic);
      var struck := RemoveInt(missingResponses, partitionId);
      deploymentResponses := deploymentResponses[topic := struck];
    }

    /** handleResponse: a push response is counted by handlePushResponse and,
        when it was expected, also strikes its partition from the topic's
        missing responses; error and unknown responses change nothing. */
    method HandleResponse(response: Response, topic: string) returns (r: Result<()>)
      requires Valid()
      modifies this`pendingDeployments, this`futures, this`pendingFutures, this`deploymentResponses
      ensures Valid()
      ensures !response.PushDeploymentResponse? || response.deploymentKey !in old(pendingDeployments) ==>
        r == Ok(()) && pendingDeployments == old(pendingDeployments) && futures == old(futures)
        && pendingFutures == old(pendingFutures) && deploymentResponses == old(deploymentResponses)
      ensures response.PushDeploymentResponse? && response.deploymentKey in old(pendingDeployments) ==>
        var key := response.deploymentKey;
        pendingDeployments == old(pendingDeployments)[key := old(pendingDeployments)[key].(distributionCount := old(pendingDeployments)[key].distributionCount - 1)]
      ensures response.PushDeploymentResponse? && response.deploymentKey in old(pendingDeployments)
              && old(pendingDeployments)[response.deploymentKey].distributionCount != 1 ==>
        r == Ok(()) && futures == old(futures) && pendingFutures == old(pendingFutures)
      ensures response.PushDeploymentResponse? && response.deploymentKey in old(pendingDeployments)
              && old(pendingDeployments)[response.deploymentKey].distributionCount == 1
              && response.deploymentKey in old(pendingFutures) ==>
        && r == Ok(())
        && futures == old(futures)[old(pendingFutures)[response.deploymentKey] := Completed(())]
        && pendingFutures == old(pendingFutures) - {response.deploymentKey}
      ensures response.PushDeploymentResponse? && response.deploymentKey in old(pendingDeployments) && r.Ok? ==>
        deploymentResponses == old(deploymentResponses)[topic := RemoveInt(old(MissingResponses(topic)), response.partitionId)]
      ensures response.PushDeploymentResponse? && response.deploymentKey in old(pendingDeployments)
              && old(pendingDeployments)[response.deploymentKey].distributionCount == 1
              && response.deploymentKey !in old(pendingFutures) ==>
        && r == Err(NullPointer) && futures == old(futures) && pendingFutures == old(pendingFutures)
        && deploymentResponses == old(deploymentResponses)
    {
      if !response.PushDeploymentResponse? {
        return Ok(());
      }
      var handled := HandlePushResponse(response.deploymentKey);
      if handled.Err? {
        return Err(handled.message);
      }
      if handled.value {
        StrikeResponse(topic, response.partitionId);
      }
      r := Ok(());
    }

    method RemovePendingDeployment(key: int) returns (removed: Option<PendingDeploymentDistribution>)
      modifies this`pendingDeployments
      ensures key in old(pendingDeployments) ==> removed == Some(old(pendingDeployments)[key])
      ensures key !in old(pendingDeployments) ==> removed == None
      ensures pendingDeployments == old(pendingDeployments) - {key}
    {
      if key in pendingDeployments {
        removed := Some(pendingDeployments[key]);
      } else {
        removed := None;
      }
      pendingDeployments := pendingDeployments - {key};
    }
  }

  /** One response from each target partition completes the deployment's
      future. */
  method AllTargetsRespond(partitionIds: seq<int>, deploymentPartition: int, key: int, buffer: Bytes, leaders: map<int, int>)
    returns (future: Future<()>, left: int)
    ensures future == Completed(())
    ensures left == 0
  {
    var d := new DeploymentDistributor(partitionIds, deploymentPartition);
    var f, remaining := d.PushDeployment(key, 0, buffer, leaders);
    var n := |d.partitionsToDistributeTo|;
    var i := 0;
    while i < n
      invariant 0 <= i <= n && d.Valid() && f < |d.futures|
      invariant key in d.pendingDeployments && d.pendingDeployments[key].distributionCount == n - i
      invariant i < n ==> key in d.pendingFutures && d.pendingFutures[key] == f && d.futures[f] == Pending
      invariant n == 0 || i == n ==> d.futures[f] == Completed(())
      decreases n - i
    {
      var r := d.HandlePushResponse(key);
      i := i + 1;
    }
    future := d.futures[f];
    left := d.pendingDeployments[key].distributionCount;
  }
}
