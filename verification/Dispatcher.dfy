/**
 The lifecycle dispatcher: each command record creates, replaces or deletes one object of the
 cluster, under a key made of the resource plural and a DNS name.
 */
module Dispatcher {
  import opened Wrappers
  import opened Names

  datatype Json =
    | Null
    | Text(text: string)
    | Number(number: real)
    | List(items: seq<Json>)
    | Object(fields: map<string, Json>)

  datatype LifecycleCommand = LifecycleCommand(id: string, kind: string, action: string, resource: Json, tenant: string)

  datatype Key = Key(plural: string, name: string)

  datatype ClusterObject = ClusterObject(kind: string, tenant: string, resourceId: string, spec: map<string, Json>)

  type Cluster = map<Key, ClusterObject>

  /** What a record asks of the cluster. */
  datatype Edit =
    | Malformed
    | Unsupported
    | Ignored
    | Put(key: Key, object_: ClusterObject)
    | Remove(key: Key)

  function Field(fields: map<string, Json>, name: string): Json {
    if name in fields then fields[name] else Null
  }

  function FieldsOf(j: Json): map<string, Json> {
    if j.Object? then j.fields else map[]
  }

  /** Numbers lose their fraction; anything else counts as zero. */
  function Integer(j: Json): Json {
    if !j.Number? then Number(0.0)
    else if j.number >= 0.0 then Number(j.number.Floor as real)
    else Number(-((-j.number).Floor as real))
  }

  function ToolRefs(j: Json): Json {
    if !j.List? then List([])
    else List(seq(|j.items|, i requires 0 <= i < |j.items| => Object(map["name" := j.items[i], "version" := Text("latest")])))
  }

  function Spec(kind: string, r: map<string, Json>): map<string, Json> {
    if kind == "pipeline_run" then
      map["pipelineRef" := Field(r, "name"), "parameters" := Object(map["project_id" := Field(r, "project_id")])]
    else if kind == "model" then
      map["modelName" := Field(r, "name"), "version" := Field(r, "version"), "targetStage" := Field(r, "stage")]
    else if kind == "agent" then
      map["version" := Field(r, "version"), "image" := Field(r, "image"), "graphModule" := Field(r, "graph_module"),
          "replicas" := Object(map["min" := Field(r, "replicas"), "max" := Field(r, "replicas")]),
          "llm" := Object(map["backend" := Field(r, "llm_backend")]), "tools" := ToolRefs(Field(r, "tools")),
          "trafficPolicy" := Object(map["canaryWeight" := Field(r, "canary_weight")])]
    else if kind == "tool" then
      map["version" := Field(r, "version"), "description" := Field(r, "description"), "tags" := Field(r, "tags"),
          "inputSchema" := Field(r, "input_schema")]
    else if kind == "connection" then
      map["type" := Field(r, "type"), "endpoint" := Field(r, "endpoint"),
          "secretRef" := Object(map["name" := Field(r, "secret_ref")])]
    else
      var compute, storage := FieldsOf(Field(r, "compute")), FieldsOf(Field(r, "storage"));
      map["subject" := Field(r, "subject"), "services" := Field(r, "services"), "disabled" := Field(r, "disabled"),
          "compute" := Object(map["vcpus" := Integer(Field(compute, "vcpus")), "memoryGB" := Integer(Field(compute, "memory_gb")),
                                  "gpus" := Integer(Field(compute, "gpus")), "gpuType" := Field(compute, "gpu_type"),
                                  "maxVMs" := Integer(Field(compute, "max_vms"))]),
          "storageGB" := Integer(Field(storage, "size_gb"))]
  }

  /** Plural and object kind of each lifecycle kind. */
  function Target(kind: string): Option<(string, string)> {
    if kind == "pipeline_run" then Some(("nexuspipelineruns", "NexusPipelineRun"))
    else if kind == "model" then Some(("nexusmodelpromotions", "NexusModelPromotion"))
    else if kind == "agent" then Some(("nexusagents", "NexusAgent"))
    else if kind == "tool" then Some(("nexustools", "NexusTool"))
    else if kind == "connection" then Some(("nexusconnections", "NexusConnection"))
    else if kind == "user_access" then Some(("nexusworkspaces", "NexusWorkspace"))
    else None
  }

  function ObjectName(c: LifecycleCommand, r: map<string, Json>): string {
    if c.kind == "user_access" then "workspace-" + c.id
    else if Field(r, "name").Text? && Field(r, "name").text != "" then Field(r, "name").text
    else c.id
  }

  /** The case mapping and the digest that object names are made with. */
  datatype Naming = Naming(lower: char -> char, digest: string -> string)

  function Interpret(n: Naming, record: Option<LifecycleCommand>): Edit {
    if record.None? || !(record.value.resource.Object? || record.value.resource.Null?) then Malformed
    else
      var c := record.value;
      var r := FieldsOf(c.resource);
      if Target(c.kind).None? then Unsupported
      else if c.kind == "model" && c.action != "model.promoted" then Ignored
      else
        var (plural, kind) := Target(c.kind).value;
        var key := Key(plural, DnsName(n.lower, n.digest, ObjectName(c, r), c.id));
        if c.kind == "user_access" && c.action == "access.deleted" then Remove(key)
        else Put(key, ClusterObject(kind, c.tenant, c.id, Spec(c.kind, r)))
  }

  function Applied(cluster: Cluster, e: Edit): Cluster {
    match e
    case Put(k, o) => cluster[k := o]
    case Remove(k) => cluster - {k}
    case _ => cluster
  }

  datatype ApiCall = GetCall | CreateCall | UpdateCall | DeleteCall

  /** How the cluster answers a call; a reply may be lost although the call took effect. */
  datatype ApiReply = Fine | Failed | Lost

  ghost predicate WellFormed(e: Edit) {
    !e.Malformed? && !e.Unsupported?
  }

  /** What a dispatch made of an edit: the whole edit, or nothing at all. */
  ghost predicate AllOrNothing(wanted: Edit, took: Edit) {
    took == wanted || took == Ignored
  }

  class Dispatcher {
    const naming: Naming
    var cluster: Cluster

    constructor (naming: Naming)
      ensures this.naming == naming && cluster == map[]
    {
      this.naming := naming;
      cluster := map[];
    }

    /** Deletes, or fetches and then creates or updates, each call as the cluster answers it. */
    method Dispatch(record: Option<LifecycleCommand>, api: ApiCall -> ApiReply) returns (ok: bool, ghost took: Edit)
      modifies this`cluster
      ensures AllOrNothing(Interpret(naming, record), took) && cluster == Applied(old(cluster), took)
      ensures ok ==> WellFormed(Interpret(naming, record)) && took == Interpret(naming, record)
      ensures !ok && (forall c :: !api(c).Lost?) ==> cluster == old(cluster)
      ensures WellFormed(Interpret(naming, record)) && (forall c :: api(c).Fine?) ==> ok
    {
      took := Ignored;
      match Interpret(naming, record) {
        case Malformed => return false, took;
        case Unsupported => return false, took;
        case Ignored => return true, took;
        case Remove(key) =>
          if api(DeleteCall).Failed? {
            return false, took;
          }
          took := Remove(key);
          if key in cluster {
            cluster := map k | k in cluster && k != key :: cluster[k];
          }
          assert cluster == old(cluster) - {key};
          return api(DeleteCall).Fine?, took;
        case Put(key, object_) =>
          if !api(GetCall).Fine? {
            return false, took;
          }
          var call := if key in cluster then UpdateCall else CreateCall;
          if api(call).Failed? {
            return false, took;
          }
          took := Put(key, object_);
          if key !in cluster {
            cluster := map[key := object_] + cluster;
          } else {
            cluster := cluster[key := object_];
          }
          return api(call).Fine?, took;
      }
    }

    /** The worker's loop: a record that fails is logged and passed over. */
    method DispatchAll(records: seq<Option<LifecycleCommand>>, api: (nat, ApiCall) -> ApiReply) returns (ghost took: seq<Edit>)
      modifies this`cluster
      ensures |took| == |records| && cluster == Delivered(old(cluster), took)
      ensures forall i :: 0 <= i < |records| ==> AllOrNothing(Interpret(naming, records[i]), took[i])
      ensures (forall i, c :: api(i, c).Fine?) ==>
                forall i :: 0 <= i < |records| && WellFormed(Interpret(naming, records[i])) ==> took[i] == Interpret(naming, records[i])
    {
      hide Interpret, AllOrNothing, WellFormed, Applied;
      took := [];
      for i := 0 to |records|
        invariant |took| == i && cluster == Delivered(old(cluster), took)
        invariant forall j :: 0 <= j < i ==> AllOrNothing(Interpret(naming, records[j]), took[j])
        invariant (forall k, c :: api(k, c).Fine?) ==>
                    forall j :: 0 <= j < i && WellFormed(Interpret(naming, records[j])) ==> took[j] == Interpret(naming, records[j])
      {
        ghost var before := took;
        var ok;
        ghost var edit;
        ok, edit := Dispatch(records[i], c => api(i, c));
        took := took + [edit];
        assert took[..|took| - 1] == before;
        assert Delivered(old(cluster), took) == Applied(Delivered(old(cluster), before), edit);
      }
    }
  }

  // ----- What each command asks for -----

  /** Each lifecycle kind with the plural and the kind of its cluster objects. */
  const KINDS: seq<(string, string, string)> :=
    [("pipeline_run", "nexuspipelineruns", "NexusPipelineRun"), ("model", "nexusmodelpromotions", "NexusModelPromotion"),
     ("agent", "nexusagents", "NexusAgent"), ("tool", "nexustools", "NexusTool"),
     ("connection", "nexusconnections", "NexusConnection"), ("user_access", "nexusworkspaces", "NexusWorkspace")]

  ghost predicate IsTarget(kind: string, plural: string, objectKind: string) {
    exists i :: 0 <= i < |KINDS| && KINDS[i] == (kind, plural, objectKind)
  }

  lemma TargetIs(kind: string)
    ensures Target(kind).Some? ==> IsTarget(kind, Target(kind).value.0, Target(kind).value.1)
    ensures Target(kind).Some? <==> kind in {"pipeline_run", "model", "agent", "tool", "connection", "user_access"}
  {
    if Target(kind).Some? {
      var i := if kind == "pipeline_run" then 0 else if kind == "model" then 1 else if kind == "agent" then 2
               else if kind == "tool" then 3 else if kind == "connection" then 4 else 5;
      assert KINDS[i] == (kind, Target(kind).value.0, Target(kind).value.1);
    }
  }

  /** The name before it is made a label: a workspace is named after its command, anything else after its resource, if that is named. */
  ghost predicate IsNamed(c: LifecycleCommand, name: string) {
    if c.kind == "user_access" then name == "workspace-" + c.id
    else if c.resource.Object? && "name" in c.resource.fields && c.resource.fields["name"].Text? && c.resource.fields["name"].text != ""
    then name == c.resource.fields["name"].text
    else name == c.id
  }

  /**
   What becomes of a command: models are written only on promotion, a workspace is removed when its
   access is deleted, and every other command puts one object that carries tenant and id.
   */
  lemma InterpretIs(n: Naming, c: LifecycleCommand)
    ensures var e := Interpret(n, Some(c));
            && (e.Malformed? <==> !c.resource.Object? && !c.resource.Null?)
            && (e.Unsupported? <==> !e.Malformed? && c.kind !in {"pipeline_run", "model", "agent", "tool", "connection", "user_access"})
            && (WellFormed(e) ==>
                  && (e.Ignored? <==> c.kind == "model" && c.action != "model.promoted")
                  && (e.Remove? <==> c.kind == "user_access" && c.action == "access.deleted"))
            && (e.Put? || e.Remove? ==>
                  exists name, objectKind :: IsNamed(c, name) && IsTarget(c.kind, e.key.plural, objectKind)
                    && e.key.name == DnsName(n.lower, n.digest, name, c.id)
                    && (e.Put? ==> e.object_.kind == objectKind))
            && (e.Put? ==> e.object_.tenant == c.tenant && e.object_.resourceId == c.id && e.object_.spec == Spec(c.kind, FieldsOf(c.resource)))
  {
    TargetIs(c.kind);
    var r, e := FieldsOf(c.resource), Interpret(n, Some(c));
    if e.Put? || e.Remove? {
      var name := ObjectName(c, r);
      assert IsNamed(c, name);
      hide Spec, IsTarget;
      assert IsTarget(c.kind, e.key.plural, Target(c.kind).value.1);
    }
    hide Spec, IsTarget, DnsName, Target;
  }

  /** No command: nothing to interpret. */
  lemma NothingIsMalformed(n: Naming)
    ensures Interpret(n, None).Malformed?
  {
  }

  /** The object's field `to` is the resource's field `from`, or null if that is missing. */
  ghost predicate Copies(spec: map<string, Json>, to: string, r: map<string, Json>, from: string) {
    to in spec && spec[to] == if from in r then r[from] else Null
  }

  /** The object's field `to` is an object of its own with these copies of the resource's fields. */
  ghost predicate CopiesInto(spec: map<string, Json>, to: string, r: map<string, Json>, inner: map<string, string>) {
    to in spec && spec[to].Object? && spec[to].fields.Keys == inner.Keys && forall k :: k in inner ==> Copies(spec[to].fields, k, r, inner[k])
  }

  /** Which resource field each object field comes from, kind by kind. */
  lemma SpecIs(kind: string, r: map<string, Json>)
    ensures var s := Spec(kind, r);
            && (kind == "pipeline_run" ==> Copies(s, "pipelineRef", r, "name") && CopiesInto(s, "parameters", r, map["project_id" := "project_id"]))
            && (kind == "model" ==> Copies(s, "modelName", r, "name") && Copies(s, "version", r, "version") && Copies(s, "targetStage", r, "stage"))
            && (kind == "agent" ==>
                  Copies(s, "version", r, "version") && Copies(s, "image", r, "image") && Copies(s, "graphModule", r, "graph_module"))
            && (kind == "tool" ==>
                  && Copies(s, "version", r, "version") && Copies(s, "description", r, "description")
                  && Copies(s, "tags", r, "tags") && Copies(s, "inputSchema", r, "input_schema"))
            && (kind == "connection" ==>
                  && Copies(s, "type", r, "type") && Copies(s, "endpoint", r, "endpoint")
                  && CopiesInto(s, "secretRef", r, map["name" := "secret_ref"]))
  {
  }

  lemma AgentSpecIs(r: map<string, Json>)
    ensures var s := Spec("agent", r);
            && CopiesInto(s, "replicas", r, map["min" := "replicas", "max" := "replicas"])
            && CopiesInto(s, "llm", r, map["backend" := "llm_backend"])
            && CopiesInto(s, "trafficPolicy", r, map["canaryWeight" := "canary_weight"])
  {
  }

  /** An agent's tools are listed by name, each in its latest version. */
  lemma AgentToolsAre(r: map<string, Json>)
    ensures var s := Spec("agent", r);
            && "tools" in s && s["tools"].List?
            && (!("tools" in r && r["tools"].List?) ==> s["tools"].items == [])
            && ("tools" in r && r["tools"].List? ==>
                  && |s["tools"].items| == |r["tools"].items|
                  && forall i :: 0 <= i < |r["tools"].items| ==>
                       s["tools"].items[i] == Object(map["name" := r["tools"].items[i], "version" := Text("latest")]))
  {
  }

  /** The object's field `to` is the number in the field `from`, cut toward zero, or zero if there is none. */
  ghost predicate Cuts(spec: map<string, Json>, to: string, from: map<string, Json>, name: string) {
    && to in spec && spec[to].Number?
    && spec[to].number == spec[to].number.Floor as real
    && (if name in from && from[name].Number?
        then var x := from[name].number;
             if x >= 0.0 then 0.0 <= spec[to].number <= x < spec[to].number + 1.0
             else spec[to].number - 1.0 < x <= spec[to].number <= 0.0
        else spec[to].number == 0.0)
  }

  lemma IntegerCuts(spec: map<string, Json>, to: string, from: map<string, Json>, name: string)
    requires to in spec && spec[to] == Integer(Field(from, name))
    ensures Cuts(spec, to, from, name)
  {
    var j := Field(from, name);
    if !j.Number? {
      assert spec[to].number == 0 as real;
    } else if j.number >= 0.0 {
      var f := j.number.Floor;
      assert spec[to].number == f as real;
    } else {
      var f := (-j.number).Floor;
      assert spec[to].number == (-f) as real;
    }
  }

  lemma WorkspaceSpecIs(r: map<string, Json>)
    ensures var s := Spec("user_access", r);
            var compute, storage := FieldsOf(Field(r, "compute")), FieldsOf(Field(r, "storage"));
            && Copies(s, "subject", r, "subject") && Copies(s, "services", r, "services") && Copies(s, "disabled", r, "disabled")
            && Cuts(s, "storageGB", storage, "size_gb")
            && "compute" in s && s["compute"].Object?
            && var c := s["compute"].fields;
            && Cuts(c, "vcpus", compute, "vcpus") && Cuts(c, "memoryGB", compute, "memory_gb")
            && Cuts(c, "gpus", compute, "gpus") && Cuts(c, "maxVMs", compute, "max_vms") && Copies(c, "gpuType", compute, "gpu_type")
  {
    var s := Spec("user_access", r);
    var compute, storage := FieldsOf(Field(r, "compute")), FieldsOf(Field(r, "storage"));
    var c := s["compute"].fields;
    hide Integer, Cuts;
    IntegerCuts(s, "storageGB", storage, "size_gb");
    IntegerCuts(c, "vcpus", compute, "vcpus");
    IntegerCuts(c, "memoryGB", compute, "memory_gb");
    IntegerCuts(c, "gpus", compute, "gpus");
    IntegerCuts(c, "maxVMs", compute, "max_vms");
  }

  // ----- Streams of edits -----

  function Delivered(cluster: Cluster, edits: seq<Edit>): Cluster {
    if edits == [] then cluster else Applied(Delivered(cluster, edits[..|edits| - 1]), edits[|edits| - 1])
  }

  predicate Touches(e: Edit, k: Key) {
    (e.Put? || e.Remove?) && e.key == k
  }

  /** The last edit for a key is at position `i`. */
  ghost predicate LastAt(edits: seq<Edit>, k: Key, i: nat) {
    i < |edits| && Touches(edits[i], k) && forall j :: i < j < |edits| ==> !Touches(edits[j], k)
  }

  /** Key `k` looks as edit `e` leaves it. */
  predicate Shows(cluster: Cluster, k: Key, e: Edit) {
    if e.Put? then k in cluster && cluster[k] == e.object_ else k !in cluster
  }

  /** The last edit for a key decides what is there, whatever came before or went to other keys. */
  lemma {:induction false} LastEditDecides(cluster: Cluster, edits: seq<Edit>, k: Key, i: nat)
    requires LastAt(edits, k, i)
    ensures Shows(Delivered(cluster, edits), k, edits[i])
    decreases |edits|
  {
    var n := |edits| - 1;
    if i < n {
      LastEditDecides(cluster, edits[..n], k, i);
      assert !Touches(edits[n], k);
    }
  }

  /** A key no edit touches keeps what it had. */
  lemma {:induction false} UntouchedKeeps(cluster: Cluster, edits: seq<Edit>, k: Key)
    requires forall j :: 0 <= j < |edits| ==> !Touches(edits[j], k)
    ensures k in Delivered(cluster, edits) <==> k in cluster
    ensures k in cluster ==> Delivered(cluster, edits)[k] == cluster[k]
    decreases |edits|
  {
    if edits != [] {
      var n := |edits| - 1;
      UntouchedKeeps(cluster, edits[..n], k);
      assert !Touches(edits[n], k);
    }
  }

  lemma {:induction false} LastExists(edits: seq<Edit>, k: Key) returns (i: nat)
    ensures i == |edits| ==> forall j :: 0 <= j < |edits| ==> !Touches(edits[j], k)
    ensures i < |edits| ==> LastAt(edits, k, i)
    ensures i <= |edits|
    decreases |edits|
  {
    if edits == [] {
      i := 0;
    } else {
      var n := |edits| - 1;
      if Touches(edits[n], k) {
        i := n;
      } else {
        var j := LastExists(edits[..n], k);
        i := if j == n then |edits| else j;
      }
    }
  }

  lemma {:induction false} DeliveredConcat(cluster: Cluster, a: seq<Edit>, b: seq<Edit>)
    ensures Delivered(cluster, a + b) == Delivered(Delivered(cluster, a), b)
    decreases |b|
  {
    if b == [] {
      assert a + b == a;
    } else {
      var n := |b| - 1;
      assert (a + b)[..|a + b| - 1] == a + b[..n];
      DeliveredConcat(cluster, a, b[..n]);
    }
  }

  /**
   Delivering edits again leaves a cluster as it is exactly when, for every key they touch, the
   last of them for that key is what the cluster already shows.
   */
  lemma RedeliveryHarmlessIff(cluster: Cluster, again: seq<Edit>)
    ensures Delivered(cluster, again) == cluster
       <==> forall k, i: nat :: LastAt(again, k, i) ==> Shows(cluster, k, again[i])
  {
    var after := Delivered(cluster, again);
    if forall k, i: nat :: LastAt(again, k, i) ==> Shows(cluster, k, again[i]) {
      forall k
        ensures (k in after <==> k in cluster) && (k in cluster ==> after[k] == cluster[k])
      {
        var i := LastExists(again, k);
        if i < |again| {
          LastEditDecides(cluster, again, k, i);
        } else {
          UntouchedKeeps(cluster, again, k);
        }
      }
      assert after == cluster;
    }
    forall k, i: nat | LastAt(again, k, i)
      ensures Shows(after, k, again[i])
    {
      LastEditDecides(cluster, again, k, i);
    }
  }

  /** Redelivering, in order, any suffix of what was already delivered changes nothing. */
  lemma SuffixRedelivery(cluster: Cluster, edits: seq<Edit>, from: nat)
    requires from <= |edits|
    ensures Delivered(cluster, edits + edits[from..]) == Delivered(cluster, edits)
  {
    var head, tail := edits[..from], edits[from..];
    assert edits == head + tail;
    DeliveredConcat(cluster, head, tail);
    DeliveredConcat(cluster, edits, tail);
    var now := Delivered(cluster, edits);
    forall k, i: nat | LastAt(tail, k, i)
      ensures Shows(now, k, tail[i])
    {
      LastEditDecides(Delivered(cluster, head), tail, k, i);
    }
    RedeliveryHarmlessIff(now, tail);
  }

  /** Out of order it can: an old version delivered once more replaces the current one. */
  lemma StaleRedelivery(key: Key, old_: ClusterObject, current: ClusterObject)
    requires old_ != current
    ensures Delivered(map[], [Put(key, old_), Put(key, current)] + [Put(key, old_)])
         != Delivered(map[], [Put(key, old_), Put(key, current)])
  {
    var edits, again := [Put(key, old_), Put(key, current)], [Put(key, old_)];
    DeliveredConcat(map[], edits, again);
    LastEditDecides(map[], edits, key, 1);
    assert LastAt(again, key, 0);
    RedeliveryHarmlessIff(Delivered(map[], edits), again);
  }

  /** The edits that a stream of records asks for. */
  function Interpreted(n: Naming, records: seq<Option<LifecycleCommand>>): (r: seq<Edit>)
    ensures |r| == |records|
  {
    seq(|records|, i requires 0 <= i < |records| => Interpret(n, records[i]))
  }

  /** For records: redelivering an already delivered suffix leaves the cluster unchanged. */
  lemma RecordsRedelivered(n: Naming, cluster: Cluster, records: seq<Option<LifecycleCommand>>, from: nat)
    requires from <= |records|
    ensures Delivered(cluster, Interpreted(n, records + records[from..])) == Delivered(cluster, Interpreted(n, records))
  {
    var edits := Interpreted(n, records);
    assert Interpreted(n, records + records[from..]) == edits + edits[from..];
    SuffixRedelivery(cluster, edits, from);
  }

  /** Every object the dispatcher writes carries a valid label as its name. */
  lemma KeysAreLabels(n: Naming, record: Option<LifecycleCommand>)
    requires Digests(n.digest)
    ensures Interpret(n, record).Put? || Interpret(n, record).Remove? ==> IsLabel(Interpret(n, record).key.name)
  {
    if record.Some? {
      var c := record.value;
      DnsNameIsLabel(n.lower, n.digest, ObjectName(c, FieldsOf(c.resource)), c.id);
    }
  }
}
