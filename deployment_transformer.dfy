/** The deployment transformer: it checks the resources of a deployment
    command (readable, valid, no process id twice) and adds one workflow entry
    with key and version per executable process, reusing the latest version
    when the same resource is deployed again.

    Parsing and validating BPMN/YAML, and the MD5 digest, are not part of this
    model: every resource carries what reading, validating and hashing it
    yields. The workflow state the transformer consults is kept in the class:
    the latest deployed workflow per process id (read only here), and the
    stored digests and version counters and the key generator, which it
    advances. */
module Deployment {
  import opened Common

  datatype Process = Process(id: string, executable: bool)

  /** What reading and validating a resource yields: its processes and the
      validator's error, or the message of the exception thrown. */
  datatype Definition =
    | Parsed(processes: seq<Process>, validationError: Option<string>)
    | Unreadable(message: string)

  datatype Resource = Resource(name: string, digest: seq<int>, definition: Definition)

  datatype DeployedWorkflow = DeployedWorkflow(key: nat, version: nat, resourceName: string)

  datatype WorkflowEntry = WorkflowEntry(bpmnProcessId: string, version: nat, key: nat, resourceName: string)

  datatype DeploymentRecord = DeploymentRecord(resources: seq<Resource>, workflows: seq<WorkflowEntry>)

  datatype RejectionType = InvalidArgument

  /** The parts of the workflow state and the key generator that change. */
  datatype Store = Store(digests: map<string, seq<int>>, versions: map<string, nat>, nextKey: nat)

  const NoResources: string := "Expected to deploy at least one resource, but none given"
  const FailurePrefix: string := "Expected to deploy new resources, but encountered the following errors:"

  function DuplicateMessage(previous: string, current: string): string
  {
    "Duplicated process id in resources '" + previous + "' and '" + current + "'"
  }

  /** The error text a failing resource appends. */
  function ResourceError(resourceName: string, message: string): string
  {
    "\n'" + resourceName + "': " + message
  }

  // ---------------------------------------------------------------------------
  // Duplicate process ids
  // ---------------------------------------------------------------------------

  function Ids(ps: seq<Process>): (ids: seq<string>)
    ensures |ids| == |ps| && forall i :: 0 <= i < |ps| ==> ids[i] == ps[i].id
  {
    seq(|ps|, i requires 0 <= i < |ps| => ps[i].id)
  }

  predicate Distinct(s: seq<string>)
  {
    forall i, j :: 0 <= i < j < |s| ==> s[i] != s[j]
  }

  /** checkForDuplicateBpmnId: the processes in order; the first whose id is
      already mapped gives the error, every earlier one is mapped to the
      current resource. */
  function DupCheck(seen: map<string, string>, ps: seq<Process>, current: string): (map<string, string>, Option<string>)
    decreases |ps|
  {
    if |ps| == 0 then (seen, None)
    else if ps[0].id in seen then (seen, Some(DuplicateMessage(seen[ps[0].id], current)))
    else DupCheck(seen[ps[0].id := current], ps[1..], current)
  }

  /** No error exactly when the ids are distinct and none was seen before. */
  lemma {:induction false} DupCheckNoneIff(seen: map<string, string>, ps: seq<Process>, current: string)
    ensures DupCheck(seen, ps, current).1.None? <==> Distinct(Ids(ps)) && forall i :: 0 <= i < |ps| ==> ps[i].id !in seen
    decreases |ps|
  {
    if |ps| > 0 {
      var p := ps[0];
      if p.id !in seen {
        var seen' := seen[p.id := current];
        var tail := ps[1..];
        DupCheckNoneIff(seen', tail, current);
        assert forall i :: 0 <= i < |tail| ==> tail[i] == ps[i + 1];
        if Distinct(Ids(ps)) && forall i :: 0 <= i < |ps| ==> ps[i].id !in seen {
          forall i, j | 0 <= i < j < |tail|
            ensures Ids(tail)[i] != Ids(tail)[j]
          {
            assert Ids(ps)[i + 1] != Ids(ps)[j + 1];
          }
          forall i | 0 <= i < |tail|
            ensures tail[i].id !in seen'
          {
            assert Ids(ps)[0] != Ids(ps)[i + 1];
          }
        }
        if Distinct(Ids(tail)) && forall i :: 0 <= i < |tail| ==> tail[i].id !in seen' {
          forall i, j | 0 <= i < j < |ps|
            ensures Ids(ps)[i] != Ids(ps)[j]
          {
            if i > 0 {
              assert Ids(tail)[i - 1] != Ids(tail)[j - 1];
            } else {
              assert tail[j - 1].id !in seen';
            }
          }
        }
      }
    }
  }

  /** The map only grows: ids already mapped keep their resource, and every
      id the check adds, each one an id of the processes, is mapped to the
      current resource; without an error all of them are. On an error the
      message names the resource that mapped the id first. */
  lemma {:induction false} DupCheckMap(seen: map<string, string>, ps: seq<Process>, current: string)
    ensures var r := DupCheck(seen, ps, current);
      && (forall n :: n in r.0 <==> n in seen || (n in Ids(ps) && (r.1.Some? ==> n in r.0)))
      && (r.1.None? ==> forall n :: n in r.0 <==> n in seen || n in Ids(ps))
      && (forall n :: n in r.0 ==> r.0[n] == if n in seen then seen[n] else current)
      && (r.1.Some? ==> exists n :: n in r.0 && r.1.value == DuplicateMessage(r.0[n], current))
    decreases |ps|
  {
    if |ps| > 0 {
      var p := ps[0];
      assert Ids(ps) == [p.id] + Ids(ps[1..]);
      if p.id !in seen {
        DupCheckMap(seen[p.id := current], ps[1..], current);
      } else {
        assert p.id in DupCheck(seen, ps, current).0;
      }
    }
  }

  // ---------------------------------------------------------------------------
  // Keys and versions
  // ---------------------------------------------------------------------------

  /** isDuplicateOfLatest: the latest version was deployed from a resource of
      the same name with the same digest. */
  predicate IsDuplicateOfLatest(resourceName: string, digest: seq<int>,
                                last: Option<DeployedWorkflow>, lastDigest: Option<seq<int>>)
  {
    lastDigest.Some? && last.Some? && lastDigest.value == digest && last.value.resourceName == resourceName
  }

  function Lookup<K, V>(m: map<K, V>, k: K): Option<V>
  {
    if k in m then Some(m[k]) else None
  }

  /** The entry of one executable process: a duplicate of the latest version
      reuses its key and version and changes nothing; otherwise a fresh key and
      the next version are taken and the digest is stored. */
  function DeployProcess(latest: map<string, DeployedWorkflow>, store: Store, r: Resource, id: string): (out: (Store, WorkflowEntry))
    ensures out.1.bpmnProcessId == id && out.1.resourceName == r.name
    ensures IsDuplicateOfLatest(r.name, r.digest, Lookup(latest, id), Lookup(store.digests, id)) ==>
      out.0 == store && out.1.key == latest[id].key && out.1.version == latest[id].version
    ensures !IsDuplicateOfLatest(r.name, r.digest, Lookup(latest, id), Lookup(store.digests, id)) ==>
      && out.1.key == store.nextKey && out.0.nextKey == store.nextKey + 1
      && out.1.version == (if id in store.versions then store.versions[id] else 0) + 1
      && out.0.versions == store.versions[id := out.1.version]
      && out.0.digests == store.digests[id := r.digest]
  {
    if IsDuplicateOfLatest(r.name, r.digest, Lookup(latest, id), Lookup(store.digests, id)) then
      (store, WorkflowEntry(id, latest[id].version, latest[id].key, r.name))
    else
      var version := (if id in store.versions then store.versions[id] else 0) + 1;
      (Store(store.digests[id := r.digest], store.versions[id := version], store.nextKey + 1),
       WorkflowEntry(id, version, store.nextKey, r.name))
  }

  /** transformWorkflowResource: the executable processes in order, each one
      entry. */
  function DeployAll(latest: map<string, DeployedWorkflow>, store: Store, r: Resource, ps: seq<Process>): (Store, seq<WorkflowEntry>)
    decreases |ps|
  {
    if |ps| == 0 then (store, [])
    else if ps[0].executable then
      var first := DeployProcess(latest, store, r, ps[0].id);
      var rest := DeployAll(latest, first.0, r, ps[1..]);
      (rest.0, [first.1] + rest.1)
    else DeployAll(latest, store, r, ps[1..])
  }

  function Origins(ws: seq<WorkflowEntry>): (o: seq<(string, string)>)
    ensures |o| == |ws| && forall i :: 0 <= i < |ws| ==> o[i] == (ws[i].bpmnProcessId, ws[i].resourceName)
  {
    seq(|ws|, i requires 0 <= i < |ws| => (ws[i].bpmnProcessId, ws[i].resourceName))
  }

  /** The executable processes of one resource, with the resource's name. */
  function ExecutableOrigins(ps: seq<Process>, name: string): seq<(string, string)>
    decreases |ps|
  {
    if |ps| == 0 then []
    else (if ps[0].executable then [(ps[0].id, name)] else []) + ExecutableOrigins(ps[1..], name)
  }

  /** Only executable processes get an entry, one each, in order, under the
      resource's name. */
  lemma {:induction false} DeployAllOrigins(latest: map<string, DeployedWorkflow>, store: Store, r: Resource, ps: seq<Process>)
    ensures Origins(DeployAll(latest, store, r, ps).1) == ExecutableOrigins(ps, r.name)
    decreases |ps|
  {
    if |ps| > 0 {
      if ps[0].executable {
        var first := DeployProcess(latest, store, r, ps[0].id);
        DeployAllOrigins(latest, first.0, r, ps[1..]);
        var rest := DeployAll(latest, first.0, r, ps[1..]);
        assert Origins([first.1] + rest.1) == [(ps[0].id, r.name)] + Origins(rest.1);
      } else {
        DeployAllOrigins(latest, store, r, ps[1..]);
      }
    }
  }

  // ---------------------------------------------------------------------------
  // Resources and the deployment
  // ---------------------------------------------------------------------------

  /** The state transform builds up over the resources: the process-id map,
      the workflow state, the collected errors, the running success flag and
      the record's workflow entries. */
  datatype Acc = Acc(seen: map<string, string>, store: Store, errors: string, success: bool, workflows: seq<WorkflowEntry>)

  /** transformResource, and `success &=` its result. */
  function ResourceStep(latest: map<string, DeployedWorkflow>, acc: Acc, r: Resource): Acc
  {
    match r.definition
    case Unreadable(message) =>
      acc.(errors := acc.errors + ResourceError(r.name, message), success := false)
    case Parsed(ps, validationError) =>
      if validationError.Some? then
        acc.(errors := acc.errors + ResourceError(r.name, validationError.value), success := false)
      else
        var check := DupCheck(acc.seen, ps, r.name);
        if check.1.Some? then
          acc.(seen := check.0, errors := acc.errors + "\n" + check.1.value, success := false)
        else
          var deployed := DeployAll(latest, acc.store, r, ps);
          acc.(seen := check.0, store := deployed.0, workflows := acc.workflows + deployed.1)
  }

  /** The resource loop: every resource is processed, whatever the earlier
      ones gave. */
  function TransformAll(latest: map<string, DeployedWorkflow>, acc: Acc, rs: seq<Resource>): Acc
    decreases |rs|
  {
    if |rs| == 0 then acc else TransformAll(latest, ResourceStep(latest, acc, rs[0]), rs[1..])
  }

  /** A resource that can be read and passes validation. */
  predicate WellFormed(r: Resource)
  {
    r.definition.Parsed? && r.definition.validationError.None?
  }

  function AllIds(rs: seq<Resource>): seq<string>
    decreases |rs|
  {
    if |rs| == 0 then []
    else (if rs[0].definition.Parsed? then Ids(rs[0].definition.processes) else []) + AllIds(rs[1..])
  }

  function AllExecutableOrigins(rs: seq<Resource>): seq<(string, string)>
    decreases |rs|
  {
    if |rs| == 0 then []
    else (if rs[0].definition.Parsed? then ExecutableOrigins(rs[0].definition.processes, rs[0].name) else [])
         + AllExecutableOrigins(rs[1..])
  }

  lemma DistinctAppend(a: seq<string>, b: seq<string>)
    ensures Distinct(a + b) <==> Distinct(a) && Distinct(b) && forall i, j :: 0 <= i < |a| && 0 <= j < |b| ==> a[i] != b[j]
  {
    if Distinct(a) && Distinct(b) && forall i, j :: 0 <= i < |a| && 0 <= j < |b| ==> a[i] != b[j] {
      forall i, j | 0 <= i < j < |a + b|
        ensures (a + b)[i] != (a + b)[j]
      {
        if j < |a| {
        } else if i >= |a| {
          assert (a + b)[i] == b[i - |a|] && (a + b)[j] == b[j - |a|];
        } else {
          assert (a + b)[j] == b[j - |a|];
        }
      }
    }
    if Distinct(a + b) {
      forall i, j | 0 <= i < j < |a|
        ensures a[i] != a[j]
      {
        assert (a + b)[i] == a[i] && (a + b)[j] == a[j];
      }
      forall i, j | 0 <= i < j < |b|
        ensures b[i] != b[j]
      {
        assert (a + b)[|a| + i] == b[i] && (a + b)[|a| + j] == b[j];
      }
      forall i, j | 0 <= i < |a| && 0 <= j < |b|
        ensures a[i] != b[j]
      {
        assert (a + b)[i] == a[i] && (a + b)[|a| + j] == b[j];
      }
    }
  }

  /** One resource step, started from success, succeeds exactly when the
      resource is well-formed and its ids are new and distinct; then exactly
      those ids are added to the map. */
  lemma ResourceStepMeaning(latest: map<string, DeployedWorkflow>, acc: Acc, r: Resource)
    requires acc.success
    ensures var acc' := ResourceStep(latest, acc, r);
      && (acc'.success <==>
            WellFormed(r) && Distinct(Ids(r.definition.processes))
            && forall i :: 0 <= i < |r.definition.processes| ==> r.definition.processes[i].id !in acc.seen)
      && (acc'.success ==> forall n :: n in acc'.seen <==> n in acc.seen || n in Ids(r.definition.processes))
  {
    if WellFormed(r) {
      DupCheckNoneIff(acc.seen, r.definition.processes, r.name);
      DupCheckMap(acc.seen, r.definition.processes, r.name);
    }
  }

  /** Splitting the reference condition at one resource's ids, with the map
      grown by exactly those ids. */
  lemma FreshIdsSplit(a: seq<string>, b: seq<string>, seen: set<string>, seen': set<string>)
    requires forall n :: n in seen' <==> n in seen || n in a
    ensures (Distinct(a + b) && forall i :: 0 <= i < |a + b| ==> (a + b)[i] !in seen) <==>
      && Distinct(a) && (forall i :: 0 <= i < |a| ==> a[i] !in seen)
      && Distinct(b) && (forall j :: 0 <= j < |b| ==> b[j] !in seen')
  {
    DistinctAppend(a, b);
    FreshIdsPrefix(a, b, seen);
    if Distinct(a) && (forall i :: 0 <= i < |a| ==> a[i] !in seen) && Distinct(b) && (forall j :: 0 <= j < |b| ==> b[j] !in seen') {
      forall i, j | 0 <= i < |a| && 0 <= j < |b|
        ensures a[i] != b[j]
      {
        assert a[i] in seen';
      }
      forall i | 0 <= i < |a + b|
        ensures (a + b)[i] !in seen
      {
        if i >= |a| {
          assert (a + b)[i] == b[i - |a|];
        }
      }
    }
    if Distinct(a + b) && forall i :: 0 <= i < |a + b| ==> (a + b)[i] !in seen {
      forall j | 0 <= j < |b|
        ensures b[j] !in seen'
      {
        assert (a + b)[|a| + j] == b[j];
        assert forall i :: 0 <= i < |a| ==> a[i] != b[j];
      }
    }
  }

  /** The reference condition for a deployment implies it for its first
      resource's ids. */
  lemma FreshIdsPrefix(a: seq<string>, b: seq<string>, seen: set<string>)
    ensures (Distinct(a + b) && forall i :: 0 <= i < |a + b| ==> (a + b)[i] !in seen) ==>
      Distinct(a) && forall i :: 0 <= i < |a| ==> a[i] !in seen
  {
    DistinctAppend(a, b);
    if forall i :: 0 <= i < |a + b| ==> (a + b)[i] !in seen {
      forall i | 0 <= i < |a|
        ensures a[i] !in seen
      {
        assert (a + b)[i] == a[i];
      }
    }
  }

  /** The reference condition: the transform succeeds exactly when every
      resource is readable and valid, and no process id occurs twice among
      all resources nor was seen before. */
  lemma {:induction false} TransformAllSucceedsIff(latest: map<string, DeployedWorkflow>, acc: Acc, rs: seq<Resource>)
    ensures TransformAll(latest, acc, rs).success <==>
      && acc.success
      && (forall k :: 0 <= k < |rs| ==> WellFormed(rs[k]))
      && Distinct(AllIds(rs))
      && (forall i :: 0 <= i < |AllIds(rs)| ==> AllIds(rs)[i] !in acc.seen)
    decreases |rs|
  {
    if |rs| > 0 {
      var r := rs[0];
      var acc' := ResourceStep(latest, acc, r);
      TransformAllSucceedsIff(latest, acc', rs[1..]);
      assert forall k :: 0 <= k < |rs[1..]| ==> rs[1..][k] == rs[k + 1];
      if !acc.success {
        NeverRecovers(latest, acc', rs[1..]);
      } else {
        ResourceStepMeaning(latest, acc, r);
        var a, b := (if r.definition.Parsed? then Ids(r.definition.processes) else []), AllIds(rs[1..]);
        assert AllIds(rs) == a + b;
        if acc'.success {
          FreshIdsSplit(a, b, acc.seen.Keys, acc'.seen.Keys);
        } else {
          NeverRecovers(latest, acc', rs[1..]);
          FreshIdsPrefix(a, b, acc.seen.Keys);
        }
      }
    }
  }

  lemma {:induction false} NeverRecovers(latest: map<string, DeployedWorkflow>, acc: Acc, rs: seq<Resource>)
    requires !acc.success
    ensures !TransformAll(latest, acc, rs).success
    decreases |rs|
  {
    if |rs| > 0 {
      NeverRecovers(latest, ResourceStep(latest, acc, rs[0]), rs[1..]);
    }
  }

  /** Errors are collected exactly for the failing resources: the errors only
      grow, and stay as they were exactly when the flag stays set. */
  lemma {:induction false} ErrorsIffFailure(latest: map<string, DeployedWorkflow>, acc: Acc, rs: seq<Resource>)
    ensures var out := TransformAll(latest, acc, rs);
      && |out.errors| >= |acc.errors| && out.errors[..|acc.errors|] == acc.errors
      && (out.success <==> acc.success && out.errors == acc.errors)
    decreases |rs|
  {
    if |rs| > 0 {
      var acc' := ResourceStep(latest, acc, rs[0]);
      ErrorsIffFailure(latest, acc', rs[1..]);
      assert acc'.errors[..|acc.errors|] == acc.errors;
      if !acc'.success && acc.success {
        assert |acc'.errors| > |acc.errors|;
      }
    }
  }

  /** A deployment that succeeds lists, in order, one entry per executable
      process of its resources, under the resource's name. */
  lemma {:induction false} SuccessfulEntries(latest: map<string, DeployedWorkflow>, acc: Acc, rs: seq<Resource>)
    requires TransformAll(latest, acc, rs).success
    ensures Origins(TransformAll(latest, acc, rs).workflows) == Origins(acc.workflows) + AllExecutableOrigins(rs)
    decreases |rs|
  {
    if |rs| == 0 {
      assert AllExecutableOrigins(rs) == [];
      assert Origins(acc.workflows) + [] == Origins(acc.workflows);
    } else {
      var r := rs[0];
      var acc' := ResourceStep(latest, acc, r);
      if !acc'.success {
        NeverRecovers(latest, acc', rs[1..]);
      }
      SuccessfulEntries(latest, acc', rs[1..]);
      var deployed := DeployAll(latest, acc.store, r, r.definition.processes);
      DeployAllOrigins(latest, acc.store, r, r.definition.processes);
      assert acc'.workflows == acc.workflows + deployed.1;
      assert Origins(acc.workflows + deployed.1) == Origins(acc.workflows) + Origins(deployed.1);
    }
  }

  function Initial(store: Store, workflows: seq<WorkflowEntry>): Acc
  {
    Acc(map[], store, "", true, workflows)
  }

  /** The whole transform of a non-empty deployment: success exactly when all
      resources are well-formed with distinct process ids (the map starts
      empty on every call); then its entries are those of the executable
      processes, and otherwise there are errors to report. */
  lemma TransformMeaning(latest: map<string, DeployedWorkflow>, store: Store, d: DeploymentRecord)
    ensures var out := TransformAll(latest, Initial(store, d.workflows), d.resources);
      && (out.success <==> (forall k :: 0 <= k < |d.resources| ==> WellFormed(d.resources[k])) && Distinct(AllIds(d.resources)))
      && (out.success <==> out.errors == "")
      && (out.success ==> Origins(out.workflows) == Origins(d.workflows) + AllExecutableOrigins(d.resources))
  {
    var acc := Initial(store, d.workflows);
    TransformAllSucceedsIff(latest, acc, d.resources);
    ErrorsIffFailure(latest, acc, d.resources);
    if TransformAll(latest, acc, d.resources).success {
      SuccessfulEntries(latest, acc, d.resources);
    }
  }

  /** Two resources declaring the same process id fail with the duplicate
      message naming both. */
  lemma DuplicateAcrossResources(a: string, b: string, id: string, dA: seq<int>, dB: seq<int>,
                                 latest: map<string, DeployedWorkflow>, store: Store)
    ensures var rs := [Resource(a, dA, Parsed([Process(id, true)], None)), Resource(b, dB, Parsed([Process(id, true)], None))];
      var out := TransformAll(latest, Initial(store, []), rs);
      !out.success && out.errors == "\n" + DuplicateMessage(a, b) && |out.workflows| == 1
  {
    var rs := [Resource(a, dA, Parsed([Process(id, true)], None)), Resource(b, dB, Parsed([Process(id, true)], None))];
    var p := [Process(id, true)];
    assert p[1..] == [];
    assert DupCheck(map[], p, a) == (map[id := a], None);
    assert DupCheck(map[id := a], p, b) == (map[id := a], Some(DuplicateMessage(a, b)));
    assert |DeployAll(latest, store, rs[0], p).1| == 1;
    var acc1 := ResourceStep(latest, Initial(store, []), rs[0]);
    assert acc1.seen == map[id := a] && acc1.success && acc1.errors == "" && |acc1.workflows| == 1;
    var acc2 := ResourceStep(latest, acc1, rs[1]);
    assert acc2.errors == "\n" + DuplicateMessage(a, b) && !acc2.success && |acc2.workflows| == 1;
    assert rs[1..][1..] == [];
    assert TransformAll(latest, acc1, rs[1..]) == acc2;
  }

  class DeploymentTransformer {
    /** the workflow state's latest deployed workflow per process id */
    const latestWorkflows: map<string, DeployedWorkflow>
    var latestDigests: map<string, seq<int>>
    var versions: map<string, nat>
    var nextKey: nat
    var processIdToResourceName: map<string, string>
    var rejectionType: Option<RejectionType>
    var rejectionReason: Option<string>

    ghost function StoreView(): Store
      reads this
    {
      Store(latestDigests, versions, nextKey)
    }

    constructor(latest: map<string, DeployedWorkflow>, store: Store)
      ensures latestWorkflows == latest && StoreView() == store
      ensures processIdToResourceName == map[] && rejectionType == None && rejectionReason == None
    {
      latestWorkflows := latest;
      latestDigests := store.digests;
      versions := store.versions;
      nextKey := store.nextKey;
      processIdToResourceName := map[];
      rejectionType := None;
      rejectionReason := None;
    }

    /** transform: false with a rejection for an empty deployment or any
        failing resource; the rejection is left as it was on success. */
    method Transform(d: DeploymentRecord) returns (success: bool, out: DeploymentRecord)
      modifies this`latestDigests, this`versions, this`nextKey, this`processIdToResourceName,
               this`rejectionType, this`rejectionReason
      ensures |d.resources| == 0 ==>
        !success && out == d && rejectionType == Some(InvalidArgument) && rejectionReason == Some(NoResources)
        && StoreView() == old(StoreView()) && processIdToResourceName == map[]
      ensures |d.resources| > 0 ==>
        var acc := TransformAll(latestWorkflows, Initial(old(StoreView()), d.workflows), d.resources);
        && success == acc.success
        && out == d.(workflows := acc.workflows)
        && StoreView() == acc.store && processIdToResourceName == acc.seen
        && (success ==> rejectionType == old(rejectionType) && rejectionReason == old(rejectionReason))
        && (!success ==> rejectionType == Some(InvalidArgument) && rejectionReason == Some(FailurePrefix + acc.errors))
    {
      processIdToResourceName := map[];
      out := d;
      if |d.resources| == 0 {
        rejectionType := Some(InvalidArgument);
        rejectionReason := Some(NoResources);
        return false, out;
      }
      ghost var store0 := StoreView();
      success := true;
      var errors := "";
      var i := 0;
      while i < |d.resources|
        invariant 0 <= i <= |d.resources|
        invariant out.resources == d.resources
        invariant TransformAll(latestWorkflows, Initial(store0, d.workflows), d.resources)
               == TransformAll(latestWorkflows, Acc(processIdToResourceName, StoreView(), errors, success, out.workflows), d.resources[i..])
        invariant rejectionType == old(rejectionType) && rejectionReason == old(rejectionReason)
        decreases |d.resources| - i
      {
        var ok;
        ok, errors, out := TransformResource(out, errors, d.resources[i]);
        success := success && ok;
        assert d.resources[i..][1..] == d.resources[i + 1..];
        i := i + 1;
      }
      if !success {
        rejectionType := Some(InvalidArgument);
        rejectionReason := Some(FailurePrefix + errors);
      }
    }

    /** transformResource: one resource; its errors are appended, and only a
        readable, valid resource without duplicate ids is deployed. */
    method TransformResource(d: DeploymentRecord, errors: string, r: Resource)
      returns (ok: bool, errors': string, out: DeploymentRecord)
      modifies this`latestDigests, this`versions, this`nextKey, this`processIdToResourceName
      ensures var step := ResourceStep(latestWorkflows,
                                     Acc(old(processIdToResourceName), old(StoreView()), errors, true, d.workflows), r);
        && ok == step.success && errors' == step.errors && out == d.(workflows := step.workflows)
        && processIdToResourceName == step.seen && StoreView() == step.store
    {
      ok := false;
      errors' := errors;
      out := d;
      match r.definition {
        case Unreadable(message) =>
          errors' := errors + ResourceError(r.name, message);
        case Parsed(ps, validationError) =>
          if validationError.None? {
            var duplicate := CheckForDuplicateBpmnId(ps, r.name);
            if duplicate.None? {
              out := TransformWorkflowResource(d, r, ps);
              ok := true;
            } else {
              errors' := errors + "\n" + duplicate.value;
            }
          } else {
            errors' := errors + ResourceError(r.name, validationError.value);
          }
      }
    }

    /** checkForDuplicateBpmnId, over the resource's processes. */
    method CheckForDuplicateBpmnId(ps: seq<Process>, current: string) returns (error: Option<string>)
      modifies this`processIdToResourceName
      ensures (processIdToResourceName, error) == DupCheck(old(processIdToResourceName), ps, current)
    {
      var i := 0;
      while i < |ps|
        invariant 0 <= i <= |ps|
        invariant DupCheck(old(processIdToResourceName), ps, current) == DupCheck(processIdToResourceName, ps[i..], current)
        decreases |ps| - i
      {
        var id := ps[i].id;
        if id in processIdToResourceName {
          return Some(DuplicateMessage(processIdToResourceName[id], current));
        }
        processIdToResourceName := processIdToResourceName[id := current];
        assert ps[i..][1..] == ps[i + 1..];
        i := i + 1;
      }
      error := None;
    }

    /** transformWorkflowResource: an entry for every executable process. */
    method TransformWorkflowResource(d: DeploymentRecord, r: Resource, ps: seq<Process>) returns (out: DeploymentRecord)
      modifies this`latestDigests, this`versions, this`nextKey
      ensures var deployed := DeployAll(latestWorkflows, old(StoreView()), r, ps);
        StoreView() == deployed.0 && out == d.(workflows := d.workflows + deployed.1)
    {
      var added: seq<WorkflowEntry> := [];
      var i := 0;
      assert ps[0..] == ps;
      assert [] + DeployAll(latestWorkflows, StoreView(), r, ps).1 == DeployAll(latestWorkflows, StoreView(), r, ps).1;
      while i < |ps|
        invariant 0 <= i <= |ps|
        invariant var rest := DeployAll(latestWorkflows, StoreView(), r, ps[i..]);
          DeployAll(latestWorkflows, old(StoreView()), r, ps) == (rest.0, added + rest.1)
        decreases |ps| - i
      {
        assert ps[i..][1..] == ps[i + 1..] && ps[i..][0] == ps[i];
        ghost var st := StoreView();
        if ps[i].executable {
          var entry := DeployOne(r, ps[i].id);
          assert (StoreView(), entry) == DeployProcess(latestWorkflows, st, r, ps[i].id);
          ghost var rest := DeployAll(latestWorkflows, StoreView(), r, ps[i + 1..]);
          assert DeployAll(latestWorkflows, st, r, ps[i..]) == (rest.0, [entry] + rest.1);
          assert added + ([entry] + rest.1) == (added + [entry]) + rest.1;
          added := added + [entry];
        }
        i := i + 1;
      }
      assert added + [] == added;
      out := d.(workflows := d.workflows + added);
    }

    /** The body of the process loop: key and version of one executable
        process. */
    method DeployOne(r: Resource, id: string) returns (entry: WorkflowEntry)
      modifies this`latestDigests, this`versions, this`nextKey
      ensures (StoreView(), entry) == DeployProcess(latestWorkflows, old(StoreView()), r, id)
    {
      var lastWorkflow := Lookup(latestWorkflows, id);
      var lastDigest := Lookup(latestDigests, id);
      if IsDuplicateOfLatest(r.name, r.digest, lastWorkflow, lastDigest) {
        entry := WorkflowEntry(id, lastWorkflow.value.version, lastWorkflow.value.key, r.name);
      } else {
        var key := nextKey;
        nextKey := nextKey + 1;
        var version := (if id in versions then versions[id] else 0) + 1;
        versions := versions[id := version];
        latestDigests := latestDigests[id := r.digest];
        entry := WorkflowEntry(id, version, key, r.name);
      }
    }
  }
}
