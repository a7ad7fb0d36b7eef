/**
 The workspace reconciler: it turns an access grant into a volume, a secret, a deployment and a
 service. Any of its writes may fail, which leaves the later ones to the next attempt.
 */
module Workspaces {
  import opened Wrappers

  datatype Grant = Grant(subject: string, vcpus: int, memoryGB: int, gpus: int, storageGB: int,
                         services: seq<string>, disabled: bool)

  datatype Container = Container(name: string, port: int, cpuMillis: int, memoryBytes: int, gpus: int)

  datatype Deployment = Deployment(replicas: int, containers: seq<Container>)

  /** The objects a workspace owns; an empty token stands for a secret that is not there yet. */
  datatype Children = Children(volume: Option<int>, token: string, deployment: Option<Deployment>, ports: Option<seq<int>>)

  datatype Status = Status(phase: string, workbench: bool, ide: bool)

  const NOTHING := Children(None, "", None, None)

  const GIB: int := 1024 * 1024 * 1024

  predicate ValidGrant(g: Grant) {
    g.subject != "" && g.vcpus >= 1 && g.memoryGB >= 1 && g.storageGB >= 1
  }

  function Wanted(g: Grant): int {
    g.storageGB * GIB
  }

  /** The services that get a container, in fixed order, whatever else the grant lists. */
  function Chosen(services: seq<string>): seq<string> {
    (if "workbench" in services then ["workbench"] else []) + if "ide" in services then ["ide"] else []
  }

  function PortOf(service: string): int {
    if service == "ide" then 8080 else 8888
  }

  function ContainerFor(g: Grant, service: string, share: int): Container
    requires share > 0
  {
    Container(service, PortOf(service), g.vcpus * 1000 / share, g.memoryGB * GIB / share,
              if service == "workbench" && g.gpus > 0 then g.gpus else 0)
  }

  function ContainersOf(g: Grant): (r: seq<Container>)
    ensures |r| == |Chosen(g.services)|
  {
    var services := Chosen(g.services);
    seq(|services|, i requires 0 <= i < |services| => ContainerFor(g, services[i], |services|))
  }

  function DeploymentOf(g: Grant): Deployment {
    Deployment(if g.disabled || ContainersOf(g) == [] then 0 else 1, ContainersOf(g))
  }

  /** The service has a port per container, and is deleted when there is none. */
  function PortsOf(g: Grant): Option<seq<int>> {
    if Chosen(g.services) == [] then None else Some(PortList(Chosen(g.services)))
  }

  function PortList(services: seq<string>): seq<int> {
    seq(|services|, i requires 0 <= i < |services| => PortOf(services[i]))
  }

  // ----- One attempt -----

  /** A volume only grows. */
  function NextVolume(volume: Option<int>, g: Grant): Option<int> {
    if volume.None? || volume.value < Wanted(g) then Some(Wanted(g)) else volume
  }

  /** What an attempt leaves when the first `done` of its writes go through. */
  function Reconciled(c: Children, g: Grant, drawn: string, done: nat): Children {
    if !ValidGrant(g) then c
    else
      Children(if done >= 1 then NextVolume(c.volume, g) else c.volume,
               if done >= 2 && c.token == "" then drawn else c.token,
               if done >= 3 then Some(DeploymentOf(g)) else c.deployment,
               if done >= 4 then PortsOf(g) else c.ports)
  }

  class Workspace {
    var children: Children
    var status: Status

    constructor ()
      ensures children == NOTHING
    {
      children, status := NOTHING, Status("", false, false);
    }

    /** Splits the grant among the containers of the assigned services. */
    method Containers(g: Grant) returns (result: seq<Container>)
      requires ValidGrant(g)
      ensures result == ContainersOf(g)
    {
      var services: seq<string> := [];
      if "workbench" in g.services {
        services := services + ["workbench"];
      }
      if "ide" in g.services {
        services := services + ["ide"];
      }
      result := [];
      if |services| == 0 {
        return;
      }
      var cpu, memory := g.vcpus * 1000 / |services|, g.memoryGB * GIB / |services|;
      for i := 0 to |services|
        invariant result == ContainersOf(g)[..i]
      {
        var port, gpus := 8888, 0;
        if services[i] == "ide" {
          port := 8080;
        }
        if services[i] == "workbench" && g.gpus > 0 {
          gpus := g.gpus;
        }
        result := result + [Container(services[i], port, cpu, memory, gpus)];
      }
    }

    method WorkspacePorts(services: seq<string>) returns (ports: seq<int>)
      ensures ports == PortList(Chosen(services))
    {
      ports := [];
      if "workbench" in services {
        ports := ports + [8888];
      }
      if "ide" in services {
        ports := ports + [8080];
      }
    }

    /**
     Writes volume, secret, deployment, service and status in turn, up to the first write that fails.
     A status write that fails because of a `conflict` is passed over.
     */
    method Reconcile(g: Grant, drawn: string, done: nat, conflict: bool) returns (ok: bool)
      modifies this
      ensures children == Reconciled(old(children), g, drawn, done)
      ensures ok <==> ValidGrant(g) && (done >= 5 || (done == 4 && conflict))
      ensures !ValidGrant(g) ==> status == old(status).(phase := "Failed")
      ensures ValidGrant(g) && done < 5 ==> status == old(status)
      ensures ValidGrant(g) && done >= 5 ==> status == Status(if g.disabled then "Suspended" else "Ready", "workbench" in g.services, "ide" in g.services)
    {
      if g.subject == "" || g.vcpus < 1 || g.memoryGB < 1 || g.storageGB < 1 {
        status := status.(phase := "Failed");
        return false;
      }
      if done < 1 {
        return false;
      }
      var requested := g.storageGB * 1024 * 1024 * 1024;
      if children.volume.None? || children.volume.value < requested {
        children := children.(volume := Some(requested));
      }
      if done < 2 {
        return false;
      }
      if children.token == "" {
        children := children.(token := drawn);
      }
      var containers := Containers(g);
      if done < 3 {
        return false;
      }
      var replicas := 1;
      if g.disabled || |containers| == 0 {
        replicas := 0;
      }
      children := children.(deployment := Some(Deployment(replicas, containers)));
      if done < 4 {
        return false;
      }
      if |containers| > 0 {
        var ports := WorkspacePorts(g.services);
        children := children.(ports := Some(ports));
      } else {
        children := children.(ports := None);
      }
      if done < 5 {
        return conflict;
      }
      status := status.(phase := if g.disabled then "Suspended" else "Ready");
      status := status.(workbench := "workbench" in g.services, ide := "ide" in g.services);
      return true;
    }
  }

  // ----- The split -----

  function CpuSum(cs: seq<Container>): int {
    if cs == [] then 0 else cs[0].cpuMillis + CpuSum(cs[1..])
  }

  function MemorySum(cs: seq<Container>): int {
    if cs == [] then 0 else cs[0].memoryBytes + MemorySum(cs[1..])
  }

  /** The containers together get exactly the granted processors and memory. */
  lemma SplitAddsUp(g: Grant)
    requires ContainersOf(g) != []
    ensures CpuSum(ContainersOf(g)) == g.vcpus * 1000
    ensures MemorySum(ContainersOf(g)) == g.memoryGB * GIB
  {
    var cs := ContainersOf(g);
    if |cs| == 1 {
      assert cs[1..] == [];
    } else {
      assert cs[1..] == [cs[1]] && [cs[1]][1..] == [];
      assert CpuSum([cs[1]]) == cs[1].cpuMillis && MemorySum([cs[1]]) == cs[1].memoryBytes;
      assert g.vcpus * 1000 / 2 == g.vcpus * 500 && g.memoryGB * GIB / 2 == g.memoryGB * (GIB / 2);
    }
  }

  /** The container of a service: its port, an equal share, and the graphics processors for the workbench alone. */
  ghost predicate Serves(c: Container, service: string, g: Grant, count: int) {
    && c.name == service && c.port == (if service == "workbench" then 8888 else 8080)
    && c.cpuMillis * count == 1000 * g.vcpus && c.memoryBytes * count == 1073741824 * g.memoryGB
    && c.gpus == if service == "workbench" && g.gpus > 0 then g.gpus else 0
  }

  /** Who gets a container, and of what kind: the workbench and the editor, if the grant names them, and nothing else. */
  lemma ContainersAre(g: Grant)
    ensures var cs := ContainersOf(g);
            if "workbench" in g.services && "ide" in g.services then
              |cs| == 2 && Serves(cs[0], "workbench", g, 2) && Serves(cs[1], "ide", g, 2)
            else if "workbench" in g.services then |cs| == 1 && Serves(cs[0], "workbench", g, 1)
            else if "ide" in g.services then |cs| == 1 && Serves(cs[0], "ide", g, 1)
            else cs == []
  {
    assert g.vcpus * 1000 / 2 == g.vcpus * 500 && g.memoryGB * GIB / 2 == g.memoryGB * (GIB / 2);
  }

  /** A disabled grant, or one without a service, runs nothing; any other runs one replica of its containers. */
  lemma DeploymentIs(g: Grant)
    ensures DeploymentOf(g).containers == ContainersOf(g)
    ensures DeploymentOf(g).replicas == if g.disabled || ("workbench" !in g.services && "ide" !in g.services) then 0 else 1
  {
  }

  /** The service opens the port of each container, and is gone when there is none. */
  lemma PortsAre(g: Grant)
    ensures PortsOf(g).None? <==> "workbench" !in g.services && "ide" !in g.services
    ensures PortsOf(g).Some? ==>
              && |PortsOf(g).value| == |ContainersOf(g)|
              && forall i :: 0 <= i < |ContainersOf(g)| ==> PortsOf(g).value[i] == ContainersOf(g)[i].port
  {
  }

  // ----- Every history of attempts -----

  datatype Attempt = Attempt(grant: Grant, drawn: string, done: nat)

  function After(h: seq<Attempt>): Children {
    if h == [] then NOTHING
    else
      var a := h[|h| - 1];
      Reconciled(After(h[..|h| - 1]), a.grant, a.drawn, a.done)
  }

  /** The attempt got through its first `k` writes. */
  predicate Took(a: Attempt, k: nat) {
    ValidGrant(a.grant) && a.done >= k
  }

  /** The volume is as large as the largest grant whose attempt got to it. */
  ghost predicate Maximum(h: seq<Attempt>, volume: Option<int>) {
    && (forall i :: 0 <= i < |h| && Took(h[i], 1) ==> volume.Some? && Wanted(h[i].grant) <= volume.value)
    && (volume.Some? ==> exists i :: 0 <= i < |h| && Took(h[i], 1) && volume.value == Wanted(h[i].grant))
  }

  lemma {:induction false} VolumeIsMaximum(h: seq<Attempt>)
    ensures Maximum(h, After(h).volume)
    decreases |h|
  {
    if h != [] {
      var n := |h| - 1;
      var short, last := h[..n], h[n];
      var before, after := After(short).volume, After(h).volume;
      VolumeIsMaximum(short);
      hide After, Wanted;
      assert forall i :: 0 <= i < n ==> short[i] == h[i];
      if before.Some? && before == after {
        var i :| 0 <= i < n && Took(short[i], 1) && before.value == Wanted(short[i].grant);
        assert Took(h[i], 1);
      }
    }
  }

  /** Attempt `i` is the last, or the first, to get through its first `k` writes. */
  ghost predicate IsLast(h: seq<Attempt>, k: nat, i: nat) {
    i < |h| && Took(h[i], k) && forall j :: i < j < |h| ==> !Took(h[j], k)
  }

  ghost predicate IsFirst(h: seq<Attempt>, k: nat, i: nat) {
    i < |h| && Took(h[i], k) && forall j :: 0 <= j < i ==> !Took(h[j], k)
  }

  /** The token is the one drawn by the first attempt that got to the secret, whatever was drawn later. */
  lemma {:induction false} TokenIsFirst(h: seq<Attempt>, i: nat)
    requires IsFirst(h, 2, i) && h[i].drawn != ""
    ensures After(h).token == h[i].drawn
    decreases |h|
  {
    var n := |h| - 1;
    if i < n {
      TokenIsFirst(h[..n], i);
    } else {
      NoTokenYet(h[..n]);
    }
  }

  lemma {:induction false} NoTokenYet(h: seq<Attempt>)
    requires forall j :: 0 <= j < |h| ==> !Took(h[j], 2)
    ensures After(h).token == ""
    decreases |h|
  {
    if h != [] {
      NoTokenYet(h[..|h| - 1]);
      assert !Took(h[|h| - 1], 2);
    }
  }

  /** Deployment and service are those of the last grant whose attempt got to them. */
  lemma {:induction false} LatestGrantRuns(h: seq<Attempt>, i: nat)
    ensures IsLast(h, 3, i) ==> After(h).deployment == Some(DeploymentOf(h[i].grant))
    ensures IsLast(h, 4, i) ==> After(h).ports == PortsOf(h[i].grant)
    decreases |h|
  {
    if h != [] {
      var n := |h| - 1;
      LatestGrantRuns(h[..n], i);
      assert forall k | IsLast(h, k, i) && i < n :: !Took(h[n], k) && IsLast(h[..n], k, i);
    }
  }

  /** Whatever happened before: once a disabled grant has got to the deployment, no replica runs. */
  lemma SuspendedRunsNothing(h: seq<Attempt>, i: nat)
    requires IsLast(h, 3, i) && h[i].grant.disabled
    ensures After(h).deployment.Some? && After(h).deployment.value.replicas == 0
  {
    LatestGrantRuns(h, i);
    DeploymentIs(h[i].grant);
  }

  /** Sizes are asked for in gibibytes. */
  lemma WantedIs(g: Grant)
    ensures Wanted(g) == 1073741824 * g.storageGB
  {
  }

  /** After any history, once an attempt has gone through, repeating it changes nothing, however far it gets. */
  lemma RepeatIsNoOp(h: seq<Attempt>, a: Attempt, drawn: string, done: nat)
    requires Took(a, 4) && a.drawn != ""
    ensures After(h + [a, Attempt(a.grant, drawn, done)]) == After(h + [a])
  {
    var twice := h + [a, Attempt(a.grant, drawn, done)];
    assert twice[..|twice| - 1] == h + [a] && (h + [a])[..|h|] == h;
  }
}
