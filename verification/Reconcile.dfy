/** The controllers: bulk reconciliation, one reconciler per object, and requeueing. */
module Reconcile {
  import opened Text
  import opened Selection
  import opened NameMatching
  import opened PodImages
  import opened RepoNames
  import opened Mirroring

  datatype Kind = Deployments | StatefulSets | DaemonSets | Jobs | CronJobs | Pods

  datatype Owner = Owner(kind: string, name: string)
  datatype Workload = Workload(namespace: string, name: string, spec: PodSpec)
  datatype Pod = Pod(
    namespace: string, name: string, owners: seq<Owner>, spec: PodSpec, statuses: seq<Status>, phase: string,
    node: string)
  datatype NodeInfo = NodeInfo(arch: string, os: string)

  /** Reads of the API server that can fail. */
  datatype ApiRead =
    | ListOf(k: Kind)
    | GetObject(k: Kind, namespace: string, name: string)
    | GetReplicaSet(namespace: string, name: string)
    | GetNode(name: string)

  /** One snapshot of the cluster, and the reads that fail on it. */
  datatype Cluster = Cluster(
    workloads: Kind -> seq<Workload>, pods: seq<Pod>,
    replicaSets: map<(string, string), seq<Owner>>, jobOwners: map<(string, string), seq<Owner>>,
    nodes: map<string, NodeInfo>, faults: set<ApiRead>)

  datatype Settings = Settings(
    allowed: seq<string>, skippedNamespaces: set<string>, skip: Kind -> NameMatcher, checkNodePlatform: bool,
    watch: seq<Kind>)

  datatype MirrorCall = MirrorCall(image: string, meta: Metadata)

  /** Mirror may answer anything, depending on everything asked before. */
  type Oracle = (seq<MirrorCall>, MirrorCall) -> Outcome

  predicate NsAllowed(r: Settings, ns: string) {
    && ns !in r.skippedNamespaces
    && (|| r.allowed == []
        || (|r.allowed| == 1 && TrimSpace(r.allowed[0]) == "*")
        || exists i :: 0 <= i < |r.allowed| && TrimSpace(r.allowed[i]) == ns)
  }

  /** A skipped namespace is never allowed; without a list every other one is, and with a single
      star as well; in a longer list a star has no special meaning. */
  lemma NamespaceMeaning(r: Settings, ns: string)
    ensures ns in r.skippedNamespaces ==> !NsAllowed(r, ns)
    ensures ns !in r.skippedNamespaces && r.allowed == [] ==> NsAllowed(r, ns)
    ensures ns !in r.skippedNamespaces && |r.allowed| == 1 ==>
              (NsAllowed(r, ns) <==> TrimSpace(r.allowed[0]) == "*" || TrimSpace(r.allowed[0]) == ns)
    ensures ns !in r.skippedNamespaces && |r.allowed| > 1 ==>
              (NsAllowed(r, ns) <==> exists a :: a in r.allowed && TrimSpace(a) == ns)
  {
    if a :| a in r.allowed && TrimSpace(a) == ns {
      var i :| 0 <= i < |r.allowed| && r.allowed[i] == a;
      assert TrimSpace(r.allowed[i]) == ns;
    }
  }

  // ---- One pod's images ----

  function CallFor(ns: string, podName: string, img: PodImage, node: NodeInfo): MirrorCall {
    MirrorCall(img.image, Metadata(ns, podName, img.containerName, node.arch, node.os, img.imageID, ""))
  }

  function CallsFor(ns: string, podName: string, images: seq<PodImage>, node: NodeInfo): seq<MirrorCall> {
    seq(|images|, i requires 0 <= i < |images| => CallFor(ns, podName, images[i], node))
  }

  /** The answers to `calls`, asked in order after `hist`. */
  function Answers(mirror: Oracle, hist: seq<MirrorCall>, calls: seq<MirrorCall>): seq<Outcome> {
    if calls == [] then []
    else
      var n := |calls| - 1;
      Answers(mirror, hist, calls[..n]) + [mirror(hist + calls[..n], calls[n])]
  }

  function Failures(answers: seq<Outcome>): nat {
    if answers == [] then 0
    else
      var n := |answers| - 1;
      Failures(answers[..n]) + (if answers[n].Some? then 1 else 0)
  }

  predicate IsError(o: Outcome) { o.Some? }

  predicate IsRetry(o: Outcome) { o.Some? && o.value.RetryError? }

  function FirstWhere(answers: seq<Outcome>, p: Outcome -> bool): Outcome {
    if answers == [] then None
    else
      var n := |answers| - 1;
      var earlier := FirstWhere(answers[..n], p);
      if earlier.Some? then earlier else if p(answers[n]) then answers[n] else None
  }

  /** The error reported for a list of answers: the first retry error, else the first error. */
  function Report(answers: seq<Outcome>): Outcome {
    var retry := FirstWhere(answers, IsRetry);
    if retry.Some? then retry else FirstWhere(answers, IsError)
  }

  lemma {:induction false} FirstWhereMeaning(answers: seq<Outcome>, p: Outcome -> bool)
    requires !p(None)
    ensures var r := FirstWhere(answers, p);
            if r.None? then forall i :: 0 <= i < |answers| ==> !p(answers[i])
            else exists i :: 0 <= i < |answers| && answers[i] == r && p(r) && forall j :: 0 <= j < i ==> !p(answers[j])
  {
    if answers != [] {
      var n := |answers| - 1;
      FirstWhereMeaning(answers[..n], p);
      var earlier := FirstWhere(answers[..n], p);
      if earlier.Some? {
        var i :| 0 <= i < n && answers[..n][i] == earlier && p(earlier) && forall j :: 0 <= j < i ==>
            !p(answers[..n][j]);
        assert answers[i] == earlier && forall j :: 0 <= j < i ==> answers[j] == answers[..n][j];
      } else {
        assert forall i :: 0 <= i < n ==> answers[i] == answers[..n][i];
      }
    }
  }

  /** The first retry error is reported, whatever came before it; without one, the first error. */
  lemma ReportMeaning(answers: seq<Outcome>)
    ensures var r := Report(answers);
            if exists i :: 0 <= i < |answers| && answers[i].Some? && answers[i].value.RetryError?
            then exists i :: 0 <= i < |answers| && answers[i] == r && r.Some? && r.value.RetryError?
                   && forall j :: 0 <= j < i && answers[j].Some? ==> answers[j].value.Plain?
            else if exists i :: 0 <= i < |answers| && answers[i].Some?
            then exists i :: 0 <= i < |answers| && answers[i] == r && r.Some?
                   && forall j :: 0 <= j < i ==> answers[j].None?
            else r.None?
  {
    FirstWhereMeaning(answers, IsRetry);
    FirstWhereMeaning(answers, IsError);
  }

  /** Each call is answered once, knowing everything asked before. */
  lemma {:induction false} AnswersMeaning(mirror: Oracle, hist: seq<MirrorCall>, calls: seq<MirrorCall>)
    ensures |Answers(mirror, hist, calls)| == |calls|
    ensures forall i :: 0 <= i < |calls| ==> Answers(mirror, hist, calls)[i] == mirror(hist + calls[..i], calls[i])
  {
    if calls != [] {
      var n := |calls| - 1;
      AnswersMeaning(mirror, hist, calls[..n]);
      assert forall i :: 0 <= i < n ==> calls[..n][..i] == calls[..i];
    }
  }

  lemma CallFields(ns: string, podName: string, images: seq<PodImage>, node: NodeInfo)
    ensures var asked := CallsFor(ns, podName, images, node);
            && |asked| == |images|
            && forall i :: 0 <= i < |images| ==>
                 && asked[i].image == images[i].image
                 && asked[i].meta.namespace == ns && asked[i].meta.podName == podName
                 && asked[i].meta.containerName == images[i].containerName
                 && asked[i].meta.imageID == images[i].imageID
                 && asked[i].meta.arch == node.arch && asked[i].meta.os == node.os && asked[i].meta.registry == ""
  {
  }

  /** One Mirror call per image, in order; every call but the failed ones is counted; the first
      retry error is reported, else the first error. */
  method MirrorPodImages(
      mirror: Oracle, hist: seq<MirrorCall>, ns: string, podName: string, images: seq<PodImage>, node: NodeInfo)
      returns (mirrored: nat, err: Outcome, asked: seq<MirrorCall>)
    ensures asked == CallsFor(ns, podName, images, node)
    ensures |asked| == |images|
    ensures forall i :: 0 <= i < |images| ==>
              && asked[i].image == images[i].image
              && asked[i].meta.namespace == ns && asked[i].meta.podName == podName
              && asked[i].meta.containerName == images[i].containerName && asked[i].meta.imageID == images[i].imageID
              && asked[i].meta.arch == node.arch && asked[i].meta.os == node.os && asked[i].meta.registry == ""
    ensures mirrored + Failures(Answers(mirror, hist, asked)) == |images|
    ensures err == Report(Answers(mirror, hist, asked))
  {
    mirrored, asked := 0, [];
    var firstErr: Outcome, retryErr: Outcome := None, None;
    ghost var answers: seq<Outcome> := [];
    for i := 0 to |images|
      invariant asked == CallsFor(ns, podName, images[..i], node)
      invariant answers == Answers(mirror, hist, asked)
      invariant mirrored + Failures(answers) == i
      invariant firstErr == FirstWhere(answers, IsError)
      invariant retryErr == FirstWhere(answers, IsRetry)
    {
      var call := CallFor(ns, podName, images[i], node);
      var answer := mirror(hist + asked, call);
      assert (asked + [call])[..|asked|] == asked && (answers + [answer])[..|answers|] == answers;
      answers := answers + [answer];
      asked := asked + [call];
      if answer.Some? {
        if firstErr.None? { firstErr := answer; }
        if retryErr.None? && answer.value.RetryError? { retryErr := answer; }
      } else {
        mirrored := mirrored + 1;
      }
    }
    assert images[..|images|] == images;
    CallFields(ns, podName, images, node);
    err := if retryErr.Some? then retryErr else firstErr;
  }

  // ---- Which pods are skipped ----

  /** An answer that an API failure may prevent. */
  type Checked<T> = Option<T>

  function ReplicaSetOwnerSkipped(r: Settings, c: Cluster, ns: string, name: string): Checked<bool> {
    if GetReplicaSet(ns, name) in c.faults then None
    else if (ns, name) !in c.replicaSets then Some(false)
    else
      var owners := c.replicaSets[(ns, name)];
      Some(exists o :: o in owners && o.kind == "Deployment" && Matches(r.skip(Deployments), ns, o.name))
  }

  function JobOwnerSkipped(r: Settings, c: Cluster, ns: string, name: string): Checked<bool> {
    if Matches(r.skip(Jobs), ns, name) then Some(true)
    else if GetObject(Jobs, ns, name) in c.faults then None
    else if (ns, name) !in c.jobOwners then Some(false)
    else Some(exists o :: o in c.jobOwners[(ns, name)] && o.kind == "CronJob" && Matches(r.skip(CronJobs), ns, o.name))
  }

  function OwnerSkipped(r: Settings, c: Cluster, ns: string, o: Owner): Checked<bool> {
    if o.kind == "ReplicaSet" then ReplicaSetOwnerSkipped(r, c, ns, o.name)
    else if o.kind == "Deployment" then Some(Matches(r.skip(Deployments), ns, o.name))
    else if o.kind == "StatefulSet" then Some(Matches(r.skip(StatefulSets), ns, o.name))
    else if o.kind == "DaemonSet" then Some(Matches(r.skip(DaemonSets), ns, o.name))
    else if o.kind == "Job" then JobOwnerSkipped(r, c, ns, o.name)
    else Some(false)
  }

  /** The owners are asked in order; the first skip or the first failed read decides. */
  function OwnersSkipped(r: Settings, c: Cluster, ns: string, owners: seq<Owner>): Checked<bool> {
    if owners == [] then Some(false)
    else
      var first := OwnerSkipped(r, c, ns, owners[0]);
      if first == Some(false) then OwnersSkipped(r, c, ns, owners[1..]) else first
  }

  function PodSkipped(r: Settings, c: Cluster, p: Pod): Checked<bool> {
    if Matches(r.skip(Pods), p.namespace, p.name) then Some(true) else OwnersSkipped(r, c, p.namespace, p.owners)
  }

  /** Owners are asked in order, and the first that is skipped or cannot be read decides. */
  lemma {:induction false} OwnersInOrder(r: Settings, c: Cluster, ns: string, owners: seq<Owner>)
    ensures var answer := OwnersSkipped(r, c, ns, owners);
            if forall i :: 0 <= i < |owners| ==> OwnerSkipped(r, c, ns, owners[i]) == Some(false)
            then answer == Some(false)
            else exists i :: 0 <= i < |owners| && OwnerSkipped(r, c, ns, owners[i]) == answer && answer != Some(false)
                   && forall j :: 0 <= j < i ==> OwnerSkipped(r, c, ns, owners[j]) == Some(false)
  {
    if owners != [] && OwnerSkipped(r, c, ns, owners[0]) == Some(false) {
      var rest := owners[1..];
      OwnersInOrder(r, c, ns, rest);
      assert forall i :: 0 < i < |owners| ==> owners[i] == rest[i - 1];
      assert forall i :: 0 <= i < |rest| ==> OwnerSkipped(r, c, ns, rest[i]) == OwnerSkipped(r, c, ns, owners[i + 1]);
    }
  }

  /** Only a ReplicaSet, and a Job that is not listed itself, have to be read. */
  lemma OwnerReads(r: Settings, c: Cluster, ns: string, o: Owner)
    ensures OwnerSkipped(r, c, ns, o).None? <==>
            || (o.kind == "ReplicaSet" && GetReplicaSet(ns, o.name) in c.faults)
            || (o.kind == "Job" && !Matches(r.skip(Jobs), ns, o.name) && GetObject(Jobs, ns, o.name) in c.faults)
  {
  }

  /** An owner is on the skip list of its kind, or the Deployment above its ReplicaSet or the CronJob
      above its Job is. */
  ghost predicate OwnerListed(r: Settings, c: Cluster, ns: string, o: Owner) {
    || (o.kind == "Deployment" && Matches(r.skip(Deployments), ns, o.name))
    || (o.kind == "StatefulSet" && Matches(r.skip(StatefulSets), ns, o.name))
    || (o.kind == "DaemonSet" && Matches(r.skip(DaemonSets), ns, o.name))
    || (o.kind == "Job" && Matches(r.skip(Jobs), ns, o.name))
    || (&& o.kind == "Job" && (ns, o.name) in c.jobOwners
        && exists up :: up in c.jobOwners[(ns, o.name)] && up.kind == "CronJob"
             && Matches(r.skip(CronJobs), ns, up.name))
    || (&& o.kind == "ReplicaSet" && (ns, o.name) in c.replicaSets
        && exists up :: up in c.replicaSets[(ns, o.name)] && up.kind == "Deployment"
             && Matches(r.skip(Deployments), ns, up.name))
  }

  lemma OwnerMeaning(r: Settings, c: Cluster, ns: string, o: Owner)
    requires c.faults == {}
    ensures OwnerSkipped(r, c, ns, o) == Some(OwnerListed(r, c, ns, o))
  {
  }

  lemma {:induction false} OwnersMeaning(r: Settings, c: Cluster, ns: string, owners: seq<Owner>)
    requires c.faults == {}
    ensures OwnersSkipped(r, c, ns, owners) == Some(exists o :: o in owners && OwnerListed(r, c, ns, o))
  {
    if owners != [] {
      OwnersMeaning(r, c, ns, owners[1..]);
      OwnerMeaning(r, c, ns, owners[0]);
      assert forall o :: o in owners <==> o == owners[0] || o in owners[1..];
    }
  }

  /** Without failed reads a pod is skipped exactly when it is listed itself or some owner is,
      directly or through the owner of that owner; the order of owners does not matter. */
  lemma SkipMeaning(r: Settings, c: Cluster, p: Pod)
    requires c.faults == {}
    ensures PodSkipped(r, c, p) ==
            Some(Matches(r.skip(Pods), p.namespace, p.name)
                 || exists o :: o in p.owners && OwnerListed(r, c, p.namespace, o))
  {
    OwnersMeaning(r, c, p.namespace, p.owners);
  }

  function NodePlatform(r: Settings, c: Cluster, p: Pod): Checked<NodeInfo> {
    var node := TrimSpace(p.node);
    if !r.checkNodePlatform || node == "" then Some(NodeInfo("", ""))
    else if GetNode(node) in c.faults then None
    else if node !in c.nodes then Some(NodeInfo("", ""))
    else Some(NodeInfo(TrimSpace(c.nodes[node].arch), TrimSpace(c.nodes[node].os)))
  }

  /** The platform passed on for a pod: what its node reports, trimmed, if nodes are checked and the
      node is there, and nothing otherwise. */
  ghost predicate RunsOn(r: Settings, c: Cluster, p: Pod, arch: string, os: string) {
    var node := TrimSpace(p.node);
    if r.checkNodePlatform && node != "" && node in c.nodes
    then arch == TrimSpace(c.nodes[node].arch) && os == TrimSpace(c.nodes[node].os)
    else arch == "" && os == ""
  }

  lemma NodeMeaning(r: Settings, c: Cluster, p: Pod)
    ensures match NodePlatform(r, c, p)
            case None => r.checkNodePlatform && GetNode(TrimSpace(p.node)) in c.faults
            case Some(info) => RunsOn(r, c, p, info.arch, info.os)
  {
  }

  predicate Active(p: Pod) { p.phase == "Pending" || p.phase == "Running" }

  // ---- What each object contributes ----

  predicate WorkloadEligible(r: Settings, k: Kind, w: Workload) {
    NsAllowed(r, w.namespace) && !Matches(r.skip(k), w.namespace, w.name)
  }

  function WorkloadCalls(w: Workload): seq<MirrorCall> {
    CallsFor(w.namespace, w.name, ImagesOf(AllContainers(w.spec)), NodeInfo("", ""))
  }

  predicate PodEligible(r: Settings, c: Cluster, p: Pod) {
    NsAllowed(r, p.namespace) && PodSkipped(r, c, p) == Some(false) && Active(p)
  }

  function PodCalls(r: Settings, c: Cluster, p: Pod): seq<MirrorCall> {
    var node := NodePlatform(r, c, p);
    var images := WithIDs(p.statuses, ImagesOf(AllContainers(p.spec)));
    if node.None? then [] else CallsFor(p.namespace, p.name, images, node.value)
  }

  datatype Item = WorkloadItem(w: Workload) | PodItem(p: Pod) {
    function Key(): (string, string) {
      match this
      case WorkloadItem(w) => (w.namespace, w.name)
      case PodItem(p) => (p.namespace, p.name)
    }
  }

  function Items(c: Cluster, k: Kind): seq<Item> {
    if k.Pods? then seq(|c.pods|, i requires 0 <= i < |c.pods| => PodItem(c.pods[i]))
    else
      var ws := c.workloads(k);
      seq(|ws|, i requires 0 <= i < |ws| => WorkloadItem(ws[i]))
  }

  predicate Eligible(r: Settings, c: Cluster, k: Kind, x: Item) {
    match x
    case WorkloadItem(w) => WorkloadEligible(r, k, w)
    case PodItem(p) => PodEligible(r, c, p)
  }

  function ItemCalls(r: Settings, c: Cluster, k: Kind, x: Item): seq<MirrorCall> {
    if !Eligible(r, c, k, x) then []
    else match x
      case WorkloadItem(w) => WorkloadCalls(w)
      case PodItem(p) => PodCalls(r, c, p)
  }

  // ---- The reconciler of one object ----

  function Find(xs: seq<Item>, key: (string, string)): Option<Item> {
    if xs == [] then None else if xs[0].Key() == key then Some(xs[0]) else Find(xs[1..], key)
  }

  /** The Mirror calls that the reconciler of kind `k` issues for a request. */
  function RequestCalls(r: Settings, c: Cluster, k: Kind, ns: string, name: string): seq<MirrorCall> {
    if !NsAllowed(r, ns) || Matches(r.skip(k), ns, name) || GetObject(k, ns, name) in c.faults then []
    else match Find(Items(c, k), (ns, name))
      case None => []
      case Some(x) =>
        match x
        case WorkloadItem(w) => if NsAllowed(r, w.namespace) then WorkloadCalls(w) else []
        case PodItem(p) => if PodSkipped(r, c, p) == Some(false) && Active(p) then PodCalls(r, c, p) else []
  }

  // ---- What is asked for ----

  /** `call` asks for the image of the container of that object, with the image ID that the statuses
      report for it and the given platform. */
  ghost predicate AsksFor(
      call: MirrorCall, ns: string, name: string, ct: Container, statuses: seq<Status>, arch: string, os: string) {
    && TrimSpace(ct.image) != "" && call.image == TrimSpace(ct.image)
    && call.meta.namespace == ns && call.meta.podName == name && call.meta.containerName == TrimSpace(ct.name)
    && call.meta.arch == arch && call.meta.os == os && call.meta.registry == ""
    && call.meta.imageID == match ReportedID(statuses, TrimSpace(ct.name)) case None => "" case Some(id) => id
  }

  /** `call` asks for a container image of the object. */
  ghost predicate Asks(
      call: MirrorCall, ns: string, name: string, spec: PodSpec, statuses: seq<Status>, arch: string, os: string) {
    exists ct :: (ct in spec.init || ct in spec.containers || ct in spec.ephemeral)
        && AsksFor(call, ns, name, ct, statuses, arch, os)
  }

  /** The call for the image of a container. */
  lemma CallMeaning(
      call: MirrorCall, ns: string, name: string, ct: Container, statuses: seq<Status>, node: NodeInfo)
    ensures AsksFor(call, ns, name, ct, statuses, node.arch, node.os) <==>
              && TrimSpace(ct.image) != ""
              && call == CallFor(ns, name, WithID(statuses, PodImage(TrimSpace(ct.image), TrimSpace(ct.name), "")),
                    node)
  {
  }

  lemma CallsMeaning(
      call: MirrorCall, ns: string, name: string, spec: PodSpec, statuses: seq<Status>, node: NodeInfo)
    ensures call in CallsFor(ns, name, WithIDs(statuses, ImagesOf(AllContainers(spec))), node) <==>
              Asks(call, ns, name, spec, statuses, node.arch, node.os)
  {
    var plain := ImagesOf(AllContainers(spec));
    CallsMembers(call, ns, name, plain, statuses, node);
    if img :| img in plain && call == CallFor(ns, name, WithID(statuses, img), node) {
      SpecMembers(spec, img);
      var ct :| (ct in spec.init || ct in spec.containers || ct in spec.ephemeral) &&
          TrimSpace(ct.image) != "" && img == PodImage(TrimSpace(ct.image), TrimSpace(ct.name), "");
      CallMeaning(call, ns, name, ct, statuses, node);
    }
    forall ct | (ct in spec.init || ct in spec.containers || ct in spec.ephemeral)
        && AsksFor(call, ns, name, ct, statuses, node.arch, node.os)
      ensures call in CallsFor(ns, name, WithIDs(statuses, plain), node)
    {
      CallMeaning(call, ns, name, ct, statuses, node);
      SpecMembers(spec, PodImage(TrimSpace(ct.image), TrimSpace(ct.name), ""));
    }
  }

  lemma CallsMembers(
      call: MirrorCall, ns: string, name: string, plain: seq<PodImage>, statuses: seq<Status>, node: NodeInfo)
    ensures call in CallsFor(ns, name, WithIDs(statuses, plain), node) <==>
              exists img :: img in plain && call == CallFor(ns, name, WithID(statuses, img), node)
  {
    var calls := CallsFor(ns, name, WithIDs(statuses, plain), node);
    assert forall i :: 0 <= i < |plain| ==> calls[i] == CallFor(ns, name, WithID(statuses, plain[i]), node);
    if img :| img in plain && call == CallFor(ns, name, WithID(statuses, img), node) {
      var i :| 0 <= i < |plain| && plain[i] == img;
      assert calls[i] == call;
    }
  }

  // ---- Bulk reconciliation ----

  function KindCalls(r: Settings, c: Cluster, k: Kind, xs: seq<Item>): seq<MirrorCall> {
    if xs == [] then []
    else
      var n := |xs| - 1;
      KindCalls(r, c, k, xs[..n]) + ItemCalls(r, c, k, xs[n])
  }

  function EligibleCount(r: Settings, c: Cluster, k: Kind, xs: seq<Item>): nat {
    if xs == [] then 0
    else
      var n := |xs| - 1;
      EligibleCount(r, c, k, xs[..n]) + (if Eligible(r, c, k, xs[n]) then 1 else 0)
  }

  /** A workload asks for its images, without image IDs and platform. */
  ghost predicate WorkloadAsks(r: Settings, k: Kind, w: Workload, call: MirrorCall) {
    && NsAllowed(r, w.namespace) && !Matches(r.skip(k), w.namespace, w.name)
    && Asks(call, w.namespace, w.name, w.spec, [], "", "")
  }

  /** A pod asks for its images while it is pending or running, with what its statuses and its node
      report. */
  ghost predicate PodAsks(r: Settings, c: Cluster, p: Pod, call: MirrorCall) {
    && NsAllowed(r, p.namespace) && !Matches(r.skip(Pods), p.namespace, p.name)
    && (forall o :: o in p.owners ==> !OwnerListed(r, c, p.namespace, o))
    && (p.phase == "Pending" || p.phase == "Running")
    && exists arch, os :: RunsOn(r, c, p, arch, os)
         && Asks(call, p.namespace, p.name, p.spec, p.statuses, arch, os)
  }

  ghost predicate ItemAsks(r: Settings, c: Cluster, k: Kind, x: Item, call: MirrorCall) {
    match x
    case WorkloadItem(w) => WorkloadAsks(r, k, w, call)
    case PodItem(p) => PodAsks(r, c, p, call)
  }

  lemma WorkloadMeaning(r: Settings, k: Kind, w: Workload, call: MirrorCall)
    ensures WorkloadEligible(r, k, w) && call in WorkloadCalls(w) <==> WorkloadAsks(r, k, w, call)
  {
    var plain := ImagesOf(AllContainers(w.spec));
    assert WithIDs([], plain) == plain;
    CallsMeaning(call, w.namespace, w.name, w.spec, [], NodeInfo("", ""));
  }

  lemma PodMeaning(r: Settings, c: Cluster, p: Pod, call: MirrorCall)
    requires c.faults == {}
    ensures PodEligible(r, c, p) && call in PodCalls(r, c, p) <==> PodAsks(r, c, p, call)
  {
    SkipMeaning(r, c, p);
    NodeMeaning(r, c, p);
    var node := NodePlatform(r, c, p).value;
    CallsMeaning(call, p.namespace, p.name, p.spec, p.statuses, node);
    if exists arch, os :: RunsOn(r, c, p, arch, os) && Asks(call, p.namespace, p.name, p.spec, p.statuses, arch, os) {
      var arch, os :| RunsOn(r, c, p, arch, os) && Asks(call, p.namespace, p.name, p.spec, p.statuses, arch, os);
      assert arch == node.arch && os == node.os;
    }
  }

  /** What an object contributes to a run whose reads succeed. */
  lemma ItemMeaning(r: Settings, c: Cluster, k: Kind, x: Item, call: MirrorCall)
    requires c.faults == {}
    ensures call in ItemCalls(r, c, k, x) <==> ItemAsks(r, c, k, x, call)
  {
    match x
    case WorkloadItem(w) => WorkloadMeaning(r, k, w, call);
    case PodItem(p) => PodMeaning(r, c, p, call);
  }

  lemma {:induction false} KindGathers(r: Settings, c: Cluster, k: Kind, xs: seq<Item>)
    ensures KindCalls(r, c, k, xs) == Gathered(xs, x => ItemCalls(r, c, k, x))
  {
    if xs != [] { KindGathers(r, c, k, xs[..|xs| - 1]); }
  }

  lemma KindMeaning(r: Settings, c: Cluster, k: Kind, xs: seq<Item>, call: MirrorCall)
    requires c.faults == {}
    ensures call in KindCalls(r, c, k, xs) <==> exists x :: x in xs && ItemAsks(r, c, k, x, call)
  {
    KindGathers(r, c, k, xs);
    GatheredMeaning(xs, x => ItemCalls(r, c, k, x), call);
    forall x ensures call in ItemCalls(r, c, k, x) <==> ItemAsks(r, c, k, x, call) { ItemMeaning(r, c, k, x, call); }
  }

  /** `call` is asked for by some object of kind `k`. */
  ghost predicate KindAsks(r: Settings, c: Cluster, k: Kind, call: MirrorCall) {
    if k.Pods? then exists p :: p in c.pods && PodAsks(r, c, p, call)
    else exists w :: w in c.workloads(k) && WorkloadAsks(r, k, w, call)
  }

  lemma ListMeaning(r: Settings, c: Cluster, k: Kind, call: MirrorCall)
    requires c.faults == {}
    ensures call in KindCalls(r, c, k, Items(c, k)) <==> KindAsks(r, c, k, call)
  {
    KindMeaning(r, c, k, Items(c, k), call);
    ItemsMeaning(c, k);
    assert k.Pods? ==> forall p :: p in c.pods ==> PodItem(p) in Items(c, k);
    assert !k.Pods? ==> forall w :: w in c.workloads(k) ==> WorkloadItem(w) in Items(c, k);
  }

  /** Every pod, or every workload of the kind, and nothing else. */
  lemma ItemsMeaning(c: Cluster, k: Kind)
    ensures forall x :: x in Items(c, k) <==>
              match x
              case PodItem(p) => k.Pods? && p in c.pods
              case WorkloadItem(w) => !k.Pods? && w in c.workloads(k)
  {
    var xs, ws := Items(c, k), c.workloads(k);
    if k.Pods? {
      assert forall i :: 0 <= i < |c.pods| ==> xs[i] == PodItem(c.pods[i]);
    } else {
      assert forall i :: 0 <= i < |ws| ==> xs[i] == WorkloadItem(ws[i]);
    }
  }

  lemma {:induction false} BulkGathers(r: Settings, c: Cluster, ks: seq<Kind>)
    ensures BulkCalls(r, c, ks) == Gathered(ks, k => KindCalls(r, c, k, Items(c, k)))
  {
    if ks != [] { BulkGathers(r, c, ks[..|ks| - 1]); }
  }

  /** On a snapshot that reads without failures a call is issued exactly when some object of a
      watched kind asks for it: an eligible object, one of its container images, and for pods the
      image ID and the platform that are reported. */
  lemma BulkMeaning(r: Settings, c: Cluster, ks: seq<Kind>, call: MirrorCall)
    requires c.faults == {}
    ensures call in BulkCalls(r, c, ks) <==> exists k :: k in ks && KindAsks(r, c, k, call)
  {
    BulkGathers(r, c, ks);
    GatheredMeaning(ks, k => KindCalls(r, c, k, Items(c, k)), call);
    forall k ensures call in KindCalls(r, c, k, Items(c, k)) <==> KindAsks(r, c, k, call) {
      ListMeaning(r, c, k, call);
    }
  }

  const ALL_KINDS: seq<Kind> := [Deployments, StatefulSets, DaemonSets, Jobs, CronJobs, Pods]

  function Watched(r: Settings): seq<Kind> { if r.watch == [] then ALL_KINDS else r.watch }

  lemma AllKinds(k: Kind)
    ensures k in ALL_KINDS
  {
    var at := match k
      case Deployments => 0
      case StatefulSets => 1
      case DaemonSets => 2
      case Jobs => 3
      case CronJobs => 4
      case Pods => 5;
    assert ALL_KINDS[at] == k;
  }

  /** All kinds are watched unless some are named. */
  lemma WatchedMeaning(r: Settings, c: Cluster)
    requires c.faults == {}
    ensures forall call :: call in BulkCalls(r, c, Watched(r)) <==>
              exists k :: (r.watch == [] || k in r.watch) && KindAsks(r, c, k, call)
  {
    forall call { BulkMeaning(r, c, Watched(r), call); }
    forall k ensures k in ALL_KINDS { AllKinds(k); }
  }

  function BulkCalls(r: Settings, c: Cluster, ks: seq<Kind>): seq<MirrorCall> {
    if ks == [] then []
    else
      var n := |ks| - 1;
      BulkCalls(r, c, ks[..n]) + KindCalls(r, c, ks[n], Items(c, ks[n]))
  }

  function BulkCount(r: Settings, c: Cluster, ks: seq<Kind>): nat {
    if ks == [] then 0
    else
      var n := |ks| - 1;
      BulkCount(r, c, ks[..n]) + EligibleCount(r, c, ks[n], Items(c, ks[n]))
  }

  lemma {:induction false} AnswersSplit(mirror: Oracle, hist: seq<MirrorCall>, a: seq<MirrorCall>, b: seq<MirrorCall>)
    ensures Answers(mirror, hist, a + b) == Answers(mirror, hist, a) + Answers(mirror, hist + a, b)
  {
    if b == [] {
      assert a + b == a;
    } else {
      var n, ab := |b| - 1, a + b;
      AnswersSplit(mirror, hist, a, b[..n]);
      assert ab[..|ab| - 1] == a + b[..n] && ab[|ab| - 1] == b[n];
      assert hist + (a + b[..n]) == hist + a + b[..n];
    }
  }

  lemma {:induction false} FailuresAdd(x: seq<Outcome>, y: seq<Outcome>)
    ensures Failures(x + y) == Failures(x) + Failures(y)
  {
    if y == [] {
      assert x + y == x;
    } else {
      var n, xy := |y| - 1, x + y;
      assert xy[..|xy| - 1] == x + y[..n] && xy[|xy| - 1] == y[n];
      FailuresAdd(x, y[..n]);
    }
  }

  lemma AnswersAppend(mirror: Oracle, hist: seq<MirrorCall>, a: seq<MirrorCall>, b: seq<MirrorCall>)
    ensures Failures(Answers(mirror, hist, a + b)) ==
            Failures(Answers(mirror, hist, a)) + Failures(Answers(mirror, hist + a, b))
  {
    AnswersSplit(mirror, hist, a, b);
    FailuresAdd(Answers(mirror, hist, a), Answers(mirror, hist + a, b));
  }

  lemma {:induction false} ReportNone(answers: seq<Outcome>)
    ensures Report(answers).None? <==> Failures(answers) == 0
  {
    if answers != [] {
      ReportNone(answers[..|answers| - 1]);
    }
  }

  lemma {:induction false} SkipNeedsFault(r: Settings, c: Cluster, ns: string, owners: seq<Owner>)
    requires OwnersSkipped(r, c, ns, owners).None?
    ensures c.faults != {}
  {
    if OwnerSkipped(r, c, ns, owners[0]).Some? {
      SkipNeedsFault(r, c, ns, owners[1..]);
    }
  }

  /** What happened to one object of a bulk run; `broken` when a read of the API failed. */
  datatype Visit = Visit(broken: bool, counted: bool, mirrored: nat, err: Outcome, asked: seq<MirrorCall>)

  ghost predicate Visited(r: Settings, c: Cluster, k: Kind, x: Item, mirror: Oracle, hist: seq<MirrorCall>, v: Visit) {
    && (v.broken ==> c.faults != {} && v.asked == [] && v.mirrored == 0)
    && (!v.broken ==> v.asked == ItemCalls(r, c, k, x) && v.counted == Eligible(r, c, k, x))
    && v.mirrored + Failures(Answers(mirror, hist, v.asked)) == |v.asked|
    && (!v.broken ==> (v.err.None? <==> Failures(Answers(mirror, hist, v.asked)) == 0))
  }

  method VisitWorkload(
      r: Settings, c: Cluster, k: Kind, w: Workload, mirror: Oracle, hist: seq<MirrorCall>) returns (v: Visit)
    ensures Visited(r, c, k, WorkloadItem(w), mirror, hist, v)
  {
    if !NsAllowed(r, w.namespace) || Matches(r.skip(k), w.namespace, w.name) {
      return Visit(false, false, 0, None, []);
    }
    var images := ImagesFromPodSpec(w.spec);
    var mirrored, err, asked := MirrorPodImages(mirror, hist, w.namespace, w.name, images, NodeInfo("", ""));
    ReportNone(Answers(mirror, hist, asked));
    return Visit(false, true, mirrored, err, asked);
  }

  method VisitPod(r: Settings, c: Cluster, p: Pod, mirror: Oracle, hist: seq<MirrorCall>) returns (v: Visit)
    ensures Visited(r, c, Pods, PodItem(p), mirror, hist, v)
  {
    if !NsAllowed(r, p.namespace) { return Visit(false, false, 0, None, []); }
    var skip := PodSkipped(r, c, p);
    if skip.None? {
      SkipNeedsFault(r, c, p.namespace, p.owners);
      return Visit(true, false, 0, None, []);
    }
    if skip.value || !Active(p) { return Visit(false, false, 0, None, []); }
    var node := NodePlatform(r, c, p);
    if node.None? { return Visit(true, false, 0, None, []); }
    var images := ImagesFromPod(p.spec, p.statuses);
    var mirrored, err, asked := MirrorPodImages(mirror, hist, p.namespace, p.name, images, node.value);
    ReportNone(Answers(mirror, hist, asked));
    return Visit(false, true, mirrored, err, asked);
  }

  method VisitItem(r: Settings, c: Cluster, k: Kind, x: Item, mirror: Oracle, hist: seq<MirrorCall>) returns (v: Visit)
    requires k.Pods? <==> x.PodItem?
    ensures Visited(r, c, k, x, mirror, hist, v)
  {
    match x {
      case WorkloadItem(w) => v := VisitWorkload(r, c, k, w, mirror, hist);
      case PodItem(p) => v := VisitPod(r, c, p, mirror, hist);
    }
  }

  /** The totals of a bulk run; `ok` unless a read of the API cut it short. */
  datatype Totals = Totals(ok: bool, workloads: nat, images: nat, errors: nat, asked: seq<MirrorCall>)

  ghost predicate Accounts(t: Totals, mirror: Oracle, hist: seq<MirrorCall>) {
    && t.images + Failures(Answers(mirror, hist, t.asked)) == |t.asked|
    && (t.errors == 0 <==> Failures(Answers(mirror, hist, t.asked)) == 0)
  }

  lemma AccountsAppend(t: Totals, v: Visit, mirror: Oracle, hist: seq<MirrorCall>)
    requires Accounts(t, mirror, hist)
    requires v.mirrored + Failures(Answers(mirror, hist + t.asked, v.asked)) == |v.asked|
    requires v.err.None? <==> Failures(Answers(mirror, hist + t.asked, v.asked)) == 0
    ensures Accounts(Totals(t.ok, t.workloads, t.images + v.mirrored, t.errors + (if v.err.Some? then 1 else 0),
            t.asked + v.asked), mirror, hist)
  {
    AnswersAppend(mirror, hist, t.asked, v.asked);
  }

  /** One more object after the totals `t0`. */
  method ForceItem(
      r: Settings, c: Cluster, k: Kind, x: Item, mirror: Oracle, hist: seq<MirrorCall>, t0: Totals) returns (t: Totals)
    requires t0.ok && Accounts(t0, mirror, hist) && (k.Pods? <==> x.PodItem?)
    ensures Accounts(t, mirror, hist)
    ensures t.ok ==>
              && t.asked == t0.asked + ItemCalls(r, c, k, x)
              && t.workloads == t0.workloads + (if Eligible(r, c, k, x) then 1 else 0)
    ensures !t.ok ==> c.faults != {} && t.asked == t0.asked && t.workloads == t0.workloads
  {
    var v := VisitItem(r, c, k, x, mirror, hist + t0.asked);
    if v.broken { return t0.(ok := false); }
    AccountsAppend(t0, v, mirror, hist);
    return Totals(true, t0.workloads + (if v.counted then 1 else 0), t0.images + v.mirrored,
        t0.errors + (if v.err.Some? then 1 else 0), t0.asked + v.asked);
  }

  lemma KindStep(r: Settings, c: Cluster, k: Kind, xs: seq<Item>, i: nat)
    requires i < |xs|
    ensures KindCalls(r, c, k, xs[..i + 1]) == KindCalls(r, c, k, xs[..i]) + ItemCalls(r, c, k, xs[i])
    ensures EligibleCount(r, c, k, xs[..i + 1]) ==
            EligibleCount(r, c, k, xs[..i]) + (if Eligible(r, c, k, xs[i]) then 1 else 0)
  {
    assert xs[..i + 1][..i] == xs[..i];
  }

  lemma Regroup(a: seq<MirrorCall>, b: seq<MirrorCall>, c: seq<MirrorCall>)
    ensures a + b + c == a + (b + c)
  {
  }

  lemma AskedStep(a: seq<MirrorCall>, r: Settings, c: Cluster, k: Kind, xs: seq<Item>, i: nat)
    requires i < |xs|
    ensures a + KindCalls(r, c, k, xs[..i]) + ItemCalls(r, c, k, xs[i]) == a + KindCalls(r, c, k, xs[..i + 1])
    ensures EligibleCount(r, c, k, xs[..i + 1]) ==
            EligibleCount(r, c, k, xs[..i]) + (if Eligible(r, c, k, xs[i]) then 1 else 0)
  {
    KindStep(r, c, k, xs, i);
    Regroup(a, KindCalls(r, c, k, xs[..i]), ItemCalls(r, c, k, xs[i]));
  }

  /** The totals after `n` of the objects `xs`. */
  ghost predicate Done(r: Settings, c: Cluster, k: Kind, xs: seq<Item>, n: nat, t0: Totals, t: Totals)
    requires n <= |xs|
  {
    && t.asked == t0.asked + KindCalls(r, c, k, xs[..n])
    && t.workloads == t0.workloads + EligibleCount(r, c, k, xs[..n])
  }

  lemma DoneStep(r: Settings, c: Cluster, k: Kind, xs: seq<Item>, n: nat, t0: Totals, t: Totals, next: Totals)
    requires n < |xs| && Done(r, c, k, xs, n, t0, t) && next.asked == t.asked + ItemCalls(r, c, k, xs[n])
    requires next.workloads == t.workloads + (if Eligible(r, c, k, xs[n]) then 1 else 0)
    ensures Done(r, c, k, xs, n + 1, t0, next)
  {
    AskedStep(t0.asked, r, c, k, xs, n);
  }

  /** The objects `xs` after the totals `t0`; `done` of them were visited. */
  method ForceItems(
      r: Settings, c: Cluster, k: Kind, xs: seq<Item>, mirror: Oracle, hist: seq<MirrorCall>,
      t0: Totals)
      returns (t: Totals, done: nat)
    requires t0.ok && Accounts(t0, mirror, hist)
    requires forall i :: 0 <= i < |xs| ==> (k.Pods? <==> xs[i].PodItem?)
    ensures Accounts(t, mirror, hist) && done <= |xs| && Done(r, c, k, xs, done, t0, t)
    ensures if t.ok then done == |xs| else c.faults != {}
  {
    t, done := t0, 0;
    while done < |xs|
      invariant done <= |xs| && t.ok && Accounts(t, mirror, hist) && Done(r, c, k, xs, done, t0, t)
    {
      var next := ForceItem(r, c, k, xs[done], mirror, hist, t);
      if !next.ok { return next, done; }
      DoneStep(r, c, k, xs, done, t0, t, next);
      t, done := next, done + 1;
    }
  }

  /** All objects of one kind after the totals `t0`; cut short, it has done a first part. */
  method ForceKind(
      r: Settings, c: Cluster, k: Kind, mirror: Oracle, hist: seq<MirrorCall>, t0: Totals)
      returns (t: Totals, done: nat)
    requires t0.ok && Accounts(t0, mirror, hist)
    ensures Accounts(t, mirror, hist) && done <= |Items(c, k)|
    ensures t.asked == t0.asked + KindCalls(r, c, k, Items(c, k)[..done])
    ensures t.workloads == t0.workloads + EligibleCount(r, c, k, Items(c, k)[..done])
    ensures if t.ok then done == |Items(c, k)| else c.faults != {}
  {
    if ListOf(k) in c.faults { return t0.(ok := false), 0; }
    t, done := ForceItems(r, c, k, Items(c, k), mirror, hist, t0);
  }

  lemma PrefixOf(a: seq<MirrorCall>, b: seq<MirrorCall>, whole: seq<MirrorCall>)
    requires a + b <= whole
    ensures a <= whole
  {
  }

  lemma {:induction false} KindPrefix(r: Settings, c: Cluster, k: Kind, xs: seq<Item>, n: nat)
    requires n <= |xs|
    ensures KindCalls(r, c, k, xs[..n]) <= KindCalls(r, c, k, xs)
    ensures EligibleCount(r, c, k, xs[..n]) <= EligibleCount(r, c, k, xs)
    decreases |xs| - n
  {
    if n < |xs| {
      KindStep(r, c, k, xs, n);
      KindPrefix(r, c, k, xs, n + 1);
      PrefixOf(KindCalls(r, c, k, xs[..n]), ItemCalls(r, c, k, xs[n]), KindCalls(r, c, k, xs));
    } else {
      assert xs[..n] == xs;
    }
  }

  lemma BulkStep(r: Settings, c: Cluster, ks: seq<Kind>, i: nat)
    requires i < |ks|
    ensures BulkCalls(r, c, ks[..i + 1]) == BulkCalls(r, c, ks[..i]) + KindCalls(r, c, ks[i], Items(c, ks[i]))
    ensures BulkCount(r, c, ks[..i + 1]) == BulkCount(r, c, ks[..i]) + EligibleCount(r, c, ks[i], Items(c, ks[i]))
  {
    assert ks[..i + 1][..i] == ks[..i];
  }

  lemma {:induction false} BulkPrefix(r: Settings, c: Cluster, ks: seq<Kind>, n: nat)
    requires n <= |ks|
    ensures BulkCalls(r, c, ks[..n]) <= BulkCalls(r, c, ks) && BulkCount(r, c, ks[..n]) <= BulkCount(r, c, ks)
    decreases |ks| - n
  {
    if n < |ks| {
      BulkStep(r, c, ks, n);
      BulkPrefix(r, c, ks, n + 1);
      PrefixOf(BulkCalls(r, c, ks[..n]), KindCalls(r, c, ks[n], Items(c, ks[n])), BulkCalls(r, c, ks));
    } else {
      assert ks[..n] == ks;
    }
  }

  lemma PrefixAfter(a: seq<MirrorCall>, b: seq<MirrorCall>, b': seq<MirrorCall>, whole: seq<MirrorCall>)
    requires b <= b' && a + b' <= whole
    ensures a + b <= whole
  {
  }

  lemma CutPrefix(r: Settings, c: Cluster, ks: seq<Kind>, i: nat, done: nat)
    requires i < |ks| && done <= |Items(c, ks[i])|
    ensures var xs := Items(c, ks[i])[..done];
            && BulkCalls(r, c, ks[..i]) + KindCalls(r, c, ks[i], xs) <= BulkCalls(r, c, ks)
            && BulkCount(r, c, ks[..i]) + EligibleCount(r, c, ks[i], xs) <= BulkCount(r, c, ks)
  {
    var xs := Items(c, ks[i]);
    KindPrefix(r, c, ks[i], xs, done);
    BulkStep(r, c, ks, i);
    BulkPrefix(r, c, ks, i + 1);
    PrefixAfter(BulkCalls(r, c, ks[..i]), KindCalls(r, c, ks[i], xs[..done]), KindCalls(r, c, ks[i], xs),
        BulkCalls(r, c, ks));
  }

  /** The kinds one after the other. */
  method ForceKinds(r: Settings, c: Cluster, ks: seq<Kind>, mirror: Oracle, hist: seq<MirrorCall>) returns (t: Totals)
    ensures Accounts(t, mirror, hist)
    ensures t.ok || c.faults != {}
    ensures t.asked <= BulkCalls(r, c, ks) && t.workloads <= BulkCount(r, c, ks)
    ensures t.ok ==> t.asked == BulkCalls(r, c, ks) && t.workloads == BulkCount(r, c, ks)
  {
    t := Totals(true, 0, 0, 0, []);
    for i := 0 to |ks|
      invariant t.ok && Accounts(t, mirror, hist)
      invariant t.asked == BulkCalls(r, c, ks[..i]) && t.workloads == BulkCount(r, c, ks[..i])
    {
      var done;
      t, done := ForceKind(r, c, ks[i], mirror, hist, t);
      if !t.ok {
        CutPrefix(r, c, ks, i, done);
        return;
      }
      BulkStep(r, c, ks, i);
      assert Items(c, ks[i])[..done] == Items(c, ks[i]);
    }
    assert ks[..|ks|] == ks;
  }

  /** Bulk reconciliation.  Unless a read of the API cuts it short, it asks for exactly the
      calls of the watched kinds in order, whatever Mirror answers, and cut short for a first
      part of them; it counts the eligible objects; and mirrored images plus failed calls make up
      all images.  On a snapshot that reads without failures these are the calls of the
      per-object reconcilers. */
  method ForceReconcile(r: Settings, c: Cluster, mirror: Oracle, hist: seq<MirrorCall>) returns (t: Totals)
    ensures t.ok || c.faults != {}
    ensures t.asked <= BulkCalls(r, c, Watched(r)) && t.workloads <= BulkCount(r, c, Watched(r))
    ensures t.ok ==> t.asked == BulkCalls(r, c, Watched(r)) && t.workloads == BulkCount(r, c, Watched(r))
    ensures t.images + Failures(Answers(mirror, hist, t.asked)) == |t.asked|
    ensures t.errors == 0 <==> Failures(Answers(mirror, hist, t.asked)) == 0
    ensures c.faults == {} && Consistent(c) ==> t.asked == Pointwise(r, c, Watched(r))
    ensures c.faults == {} ==>
              forall call :: call in t.asked <==>
                exists k :: (r.watch == [] || k in r.watch) && KindAsks(r, c, k, call)
  {
    if c.faults == {} { WatchedMeaning(r, c); }
    t := ForceKinds(r, c, Watched(r), mirror, hist);
    if c.faults == {} && Consistent(c) { BulkEqualsPointwise(r, c, Watched(r)); }
  }

  // ---- The reconcilers, one request at a time ----

  datatype Result = Result(requeueAfter: Option<int>, err: Outcome)

  function MirrorResultForError(err: Outcome, now: int): Result {
    if err.Some? && err.value.RetryError? && err.value.retryAt - now > 0
        then Result(Some(err.value.retryAt - now), None)
    else Result(None, err)
  }

  /** The request runs into a failed read of the API; a missing object is none. */
  predicate RequestFails(r: Settings, c: Cluster, k: Kind, ns: string, name: string) {
    && NsAllowed(r, ns) && !Matches(r.skip(k), ns, name)
    && (|| GetObject(k, ns, name) in c.faults
        || match Find(Items(c, k), (ns, name))
           case Some(PodItem(p)) =>
             var skip := PodSkipped(r, c, p);
             skip.None? || (skip == Some(false) && Active(p) && NodePlatform(r, c, p).None?)
           case _ => false)
  }

  /** The calls of a request and its result.  A failed read of the API, and nothing else, is
      reported as such, after no call and without a requeue. */
  method ReconcileRequest(
      r: Settings, c: Cluster, k: Kind, ns: string, name: string, mirror: Oracle, hist: seq<MirrorCall>, now: int)
      returns (apiFailed: bool, result: Result, asked: seq<MirrorCall>)
    ensures asked == RequestCalls(r, c, k, ns, name)
    ensures apiFailed == RequestFails(r, c, k, ns, name)
    ensures apiFailed ==> c.faults != {} && asked == [] && result == Result(None, None)
    ensures !apiFailed ==> result == MirrorResultForError(Report(Answers(mirror, hist, asked)), now)
    ensures c.faults == {} && UniqueKeys(Items(c, k)) ==>
              forall call :: call in asked <==> ObjectAsks(r, c, k, ns, name, call)
  {
    if c.faults == {} && UniqueKeys(Items(c, k)) {
      forall call { RequestMeaning(r, c, k, ns, name, call); }
    }
    apiFailed, result, asked := RequestObject(r, c, k, ns, name, mirror, hist, now);
  }

  method RequestObject(
      r: Settings, c: Cluster, k: Kind, ns: string, name: string, mirror: Oracle, hist: seq<MirrorCall>, now: int)
      returns (apiFailed: bool, result: Result, asked: seq<MirrorCall>)
    ensures asked == RequestCalls(r, c, k, ns, name)
    ensures apiFailed == RequestFails(r, c, k, ns, name)
    ensures apiFailed ==> c.faults != {} && asked == [] && result == Result(None, None)
    ensures !apiFailed ==> result == MirrorResultForError(Report(Answers(mirror, hist, asked)), now)
  {
    apiFailed, result, asked := false, Result(None, None), [];
    if !NsAllowed(r, ns) || Matches(r.skip(k), ns, name) { return; }
    if GetObject(k, ns, name) in c.faults { apiFailed := true; return; }
    match Find(Items(c, k), (ns, name)) {
      case None =>
      case Some(WorkloadItem(w)) =>
        if NsAllowed(r, w.namespace) {
          var images := ImagesFromPodSpec(w.spec);
          var mirrored, err;
          mirrored, err, asked := MirrorPodImages(mirror, hist, w.namespace, w.name, images, NodeInfo("", ""));
          result := MirrorResultForError(err, now);
        }
      case Some(PodItem(p)) => apiFailed, result, asked := RequestPod(r, c, p, mirror, hist, now);
    }
  }

  method RequestPod(r: Settings, c: Cluster, p: Pod, mirror: Oracle, hist: seq<MirrorCall>, now: int)
      returns (apiFailed: bool, result: Result, asked: seq<MirrorCall>)
    ensures var skip := PodSkipped(r, c, p);
            && asked == (if skip == Some(false) && Active(p) then PodCalls(r, c, p) else [])
            && apiFailed == (skip.None? || (skip == Some(false) && Active(p) && NodePlatform(r, c, p).None?))
    ensures apiFailed ==> c.faults != {} && asked == [] && result == Result(None, None)
    ensures !apiFailed ==> result == MirrorResultForError(Report(Answers(mirror, hist, asked)), now)
  {
    apiFailed, result, asked := false, Result(None, None), [];
    var skip := PodSkipped(r, c, p);
    if skip.None? {
      SkipNeedsFault(r, c, p.namespace, p.owners);
      apiFailed := true;
      return;
    }
    if skip.value || !Active(p) { return; }
    var node := NodePlatform(r, c, p);
    if node.None? { apiFailed := true; return; }
    var images := ImagesFromPod(p.spec, p.statuses);
    var mirrored, err;
    mirrored, err, asked := MirrorPodImages(mirror, hist, p.namespace, p.name, images, node.value);
    result := MirrorResultForError(err, now);
  }

  // ---- Bulk equals pointwise ----

  ghost predicate UniqueKeys(xs: seq<Item>) {
    forall i, j :: 0 <= i < j < |xs| ==> xs[i].Key() != xs[j].Key()
  }

  /** A snapshot names every object of a kind once. */
  ghost predicate Consistent(c: Cluster) { forall k :: UniqueKeys(Items(c, k)) }

  /** The calls that the reconcilers issue for the objects `xs` of kind `k`, one by one. */
  function PointCalls(r: Settings, c: Cluster, k: Kind, xs: seq<Item>): seq<MirrorCall> {
    if xs == [] then []
    else
      var n := |xs| - 1;
      PointCalls(r, c, k, xs[..n]) + RequestCalls(r, c, k, xs[n].Key().0, xs[n].Key().1)
  }

  function Pointwise(r: Settings, c: Cluster, ks: seq<Kind>): seq<MirrorCall> {
    if ks == [] then []
    else
      var n := |ks| - 1;
      Pointwise(r, c, ks[..n]) + PointCalls(r, c, ks[n], Items(c, ks[n]))
  }

  lemma {:induction false} FindByKey(xs: seq<Item>, i: nat)
    requires UniqueKeys(xs) && i < |xs|
    ensures Find(xs, xs[i].Key()) == Some(xs[i])
  {
    if i > 0 { FindByKey(xs[1..], i - 1); }
  }

  lemma RequestEqualsVisit(r: Settings, c: Cluster, k: Kind, i: nat)
    requires c.faults == {} && UniqueKeys(Items(c, k)) && i < |Items(c, k)|
    ensures var x := Items(c, k)[i]; RequestCalls(r, c, k, x.Key().0, x.Key().1) == ItemCalls(r, c, k, x)
  {
    FindByKey(Items(c, k), i);
  }

  lemma {:induction false} FindMeaning(xs: seq<Item>, key: (string, string))
    ensures match Find(xs, key)
            case None => forall i :: 0 <= i < |xs| ==> xs[i].Key() != key
            case Some(x) => exists i :: 0 <= i < |xs| && xs[i] == x && x.Key() == key
  {
    if xs != [] && xs[0].Key() != key {
      FindMeaning(xs[1..], key);
      assert xs == [xs[0]] + xs[1..];
    }
  }

  /** The object of that name asks for the call. */
  ghost predicate ObjectAsks(r: Settings, c: Cluster, k: Kind, ns: string, name: string, call: MirrorCall) {
    exists x :: x in Items(c, k) && x.Key() == (ns, name) && ItemAsks(r, c, k, x, call)
  }

  /** When reads succeed, a reconciler issues exactly the calls that the object of the request asks
      for. */
  lemma RequestMeaning(r: Settings, c: Cluster, k: Kind, ns: string, name: string, call: MirrorCall)
    requires c.faults == {} && UniqueKeys(Items(c, k))
    ensures call in RequestCalls(r, c, k, ns, name) <==> ObjectAsks(r, c, k, ns, name, call)
  {
    var xs := Items(c, k);
    FindMeaning(xs, (ns, name));
    var found := Find(xs, (ns, name));
    if found.Some? {
      var i :| 0 <= i < |xs| && xs[i] == found.value && found.value.Key() == (ns, name);
      RequestEqualsVisit(r, c, k, i);
      ItemMeaning(r, c, k, found.value, call);
      OnlyOne(xs, i);
    }
  }

  lemma OnlyOne(xs: seq<Item>, i: nat)
    requires UniqueKeys(xs) && i < |xs|
    ensures forall x :: x in xs && x.Key() == xs[i].Key() ==> x == xs[i]
  {
  }

  lemma {:induction false} KindEqualsPointwise(r: Settings, c: Cluster, k: Kind, n: nat)
    requires c.faults == {} && UniqueKeys(Items(c, k)) && n <= |Items(c, k)|
    ensures KindCalls(r, c, k, Items(c, k)[..n]) == PointCalls(r, c, k, Items(c, k)[..n])
  {
    if n > 0 {
      KindEqualsPointwise(r, c, k, n - 1);
      RequestEqualsVisit(r, c, k, n - 1);
      assert Items(c, k)[..n][..n - 1] == Items(c, k)[..n - 1];
    }
  }

  /** When reads succeed on one snapshot, the bulk run issues exactly the calls that the
      per-object reconcilers would issue for the listed objects, in list order. */
  lemma {:induction false} BulkEqualsPointwise(r: Settings, c: Cluster, ks: seq<Kind>)
    requires c.faults == {} && Consistent(c)
    ensures BulkCalls(r, c, ks) == Pointwise(r, c, ks)
  {
    if ks != [] {
      var n := |ks| - 1;
      BulkEqualsPointwise(r, c, ks[..n]);
      KindEqualsPointwise(r, c, ks[n], |Items(c, ks[n])|);
      assert Items(c, ks[n])[..|Items(c, ks[n])|] == Items(c, ks[n]);
    }
  }
}
