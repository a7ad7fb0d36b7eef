/** The model registry: stages, promotion gates, deployments and rollbacks. */
module Models {
  import opened Wrappers

  datatype Gate = Passed | Failed

  datatype Model = Model(id: string, name: string, version: string, stage: string, previous: string, gate: Gate,
                         deployment: string, canaryWeight: int, endpoint: string)

  datatype ModelError = NotFound | Conflict | Incomplete | BadStage | GateNotPassed | BadWeight | NothingToRollBack

  datatype Operation =
    | Register(projectKnown: bool, name: string, version: string, artifactUri: string, accuracy: Option<real>, newId: string)
    | Promote(id: string, stage: string)
    | Deploy(id: string, weight: int)
    | SetEndpoint(id: string, endpoint: string, status: string)
    | Rollback(id: string)

  const TARGETS: set<string> := {"staging", "production", "archived"}

  // ----- Operations on values -----

  predicate SameVersion(m: Model, name: string, version: string) {
    m.name == name && m.version == version
  }

  function NewModel(op: Operation): Model
    requires op.Register?
  {
    var gate := if op.accuracy.Some? && op.accuracy.value < 0.8 then Failed else Passed;
    Model(op.newId, op.name, op.version, "candidate", "", gate, "not_deployed", 0, "")
  }

  /** What an operation other than a registration makes of the model it names. */
  function Changed(m: Model, op: Operation): Result<Model, ModelError>
    requires !op.Register?
  {
    match op
    case Promote(_, stage) =>
      if stage == "production" && m.gate.Failed? then Err(GateNotPassed) else Ok(m.(previous := m.stage, stage := stage))
    case Deploy(_, weight) =>
      if !m.gate.Passed? then Err(GateNotPassed)
      else Ok(m.(deployment := "deploying", canaryWeight := weight, endpoint := "/v1/models/" + m.name + ":predict"))
    case SetEndpoint(_, endpoint, status) => Ok(m.(endpoint := endpoint, deployment := status))
    case Rollback(_) =>
      if m.previous == "" then Err(NothingToRollBack)
      else Ok(m.(stage := m.previous, previous := m.stage, deployment := "rolled_back", canaryWeight := 0))
  }

  /** The position of the first model with that id, if there is one. */
  function Position(models: seq<Model>, id: string): (p: Option<nat>)
    ensures p.Some? ==> p.value < |models| && models[p.value].id == id
    ensures forall j :: 0 <= j < (if p.Some? then p.value else |models|) ==> models[j].id != id
  {
    if models == [] then None
    else if models[0].id == id then Some(0)
    else match Position(models[1..], id) case None => None case Some(i) => Some(i + 1)
  }

  ghost predicate Taken(models: seq<Model>, name: string, version: string) {
    exists i :: 0 <= i < |models| && SameVersion(models[i], name, version)
  }

  ghost function Answer(models: seq<Model>, op: Operation): Result<seq<Model>, ModelError> {
    if op.Register? then
      if !op.projectKnown then Err(NotFound)
      else if op.name == "" || op.version == "" || op.artifactUri == "" then Err(Incomplete)
      else if Taken(models, op.name, op.version) then Err(Conflict)
      else Ok([NewModel(op)] + models)
    else if op.Promote? && op.stage !in TARGETS then Err(BadStage)
    else if op.Deploy? && !(0 <= op.weight <= 100) then Err(BadWeight)
    else
      match Position(models, op.id)
      case None => Err(NotFound)
      case Some(i) =>
        match Changed(models[i], op)
        case Ok(m) => Ok(models[i := m])
        case Err(e) => Err(e)
  }

  ghost function Effect(models: seq<Model>, op: Operation): seq<Model> {
    match Answer(models, op) case Ok(next) => next case Err(_) => models
  }

  ghost function AfterAll(models: seq<Model>, ops: seq<Operation>): seq<Model> {
    if ops == [] then models else Effect(AfterAll(models, ops[..|ops| - 1]), ops[|ops| - 1])
  }

  /** The outcome of an operation that names a model: the list is rewritten as the operation says, and the answer tells how. */
  ghost predicate Updated(before: seq<Model>, after: seq<Model>, op: Operation, r: Result<Model, ModelError>)
    requires !op.Register?
  {
    && after == Effect(before, op)
    && match r
       case Ok(m) => Answer(before, op).Ok? && after == before[Position(before, op.id).value := m]
       case Err(e) => Answer(before, op) == Err(e)
  }

  /** The models as the store keeps them: a list that its methods update in place. */
  class Registry {
    var models: seq<Model>

    constructor ()
      ensures models == []
    {
      models := [];
    }

    method RegisterModel(op: Operation) returns (r: Result<Model, ModelError>)
      requires op.Register?
      modifies this
      ensures models == Effect(old(models), op)
      ensures r.Ok? <==> Answer(old(models), op).Ok?
      ensures match r case Ok(m) => models == [m] + old(models) case Err(e) => Answer(old(models), op) == Err(e)
    {
      if !op.projectKnown {
        return Err(NotFound);
      }
      if op.name == "" || op.version == "" || op.artifactUri == "" {
        return Err(Incomplete);
      }
      for i := 0 to |models|
        invariant forall j :: 0 <= j < i ==> !SameVersion(models[j], op.name, op.version)
      {
        if SameVersion(models[i], op.name, op.version) {
          return Err(Conflict);
        }
      }
      var gate := Passed;
      if op.accuracy.Some? && op.accuracy.value < 0.8 {
        gate := Failed;
      }
      var m := Model(op.newId, op.name, op.version, "candidate", "", gate, "not_deployed", 0, "");
      models := [m] + models;
      return Ok(m);
    }

    /** Walks the list up to the first model with that id. */
    method Locate(id: string) returns (i: nat)
      ensures if i < |models| then Position(models, id) == Some(i) else i == |models| && Position(models, id).None?
    {
      i := 0;
      while i < |models| && models[i].id != id
        invariant i <= |models| && forall j :: 0 <= j < i ==> models[j].id != id
      {
        i := i + 1;
      }
    }

    method PromoteModel(id: string, stage: string) returns (r: Result<Model, ModelError>)
      modifies this
      ensures Updated(old(models), models, Promote(id, stage), r)
    {
      if stage != "staging" && stage != "production" && stage != "archived" {
        return Err(BadStage);
      }
      var i := Locate(id);
      if i == |models| {
        return Err(NotFound);
      }
      if stage == "production" && models[i].gate == Failed {
        return Err(GateNotPassed);
      }
      models := models[i := models[i].(previous := models[i].stage)];
      models := models[i := models[i].(stage := stage)];
      return Ok(models[i]);
    }

    method DeployModel(id: string, weight: int) returns (r: Result<Model, ModelError>)
      modifies this
      ensures Updated(old(models), models, Deploy(id, weight), r)
    {
      if weight < 0 || weight > 100 {
        return Err(BadWeight);
      }
      var i := Locate(id);
      if i == |models| {
        return Err(NotFound);
      }
      if models[i].gate != Passed {
        return Err(GateNotPassed);
      }
      models := models[i := models[i].(deployment := "deploying", canaryWeight := weight)];
      models := models[i := models[i].(endpoint := "/v1/models/" + models[i].name + ":predict")];
      return Ok(models[i]);
    }

    method SetModelEndpoint(id: string, endpoint: string, status: string) returns (r: Result<Model, ModelError>)
      modifies this
      ensures Updated(old(models), models, SetEndpoint(id, endpoint, status), r)
    {
      var i := Locate(id);
      if i == |models| {
        return Err(NotFound);
      }
      models := models[i := models[i].(endpoint := endpoint)];
      models := models[i := models[i].(deployment := status)];
      return Ok(models[i]);
    }

    method RollbackModel(id: string) returns (r: Result<Model, ModelError>)
      modifies this
      ensures Updated(old(models), models, Rollback(id), r)
    {
      var i := Locate(id);
      if i == |models| {
        return Err(NotFound);
      }
      if models[i].previous == "" {
        return Err(NothingToRollBack);
      }
      models := models[i := models[i].(stage := models[i].previous, previous := models[i].stage)];
      models := models[i := models[i].(deployment := "rolled_back", canaryWeight := 0)];
      return Ok(models[i]);
    }
  }

  // ----- What each operation answers and changes -----

  /** The first model with that id is at `i`. */
  ghost predicate FirstAt(models: seq<Model>, id: string, i: nat) {
    i < |models| && models[i].id == id && forall j :: 0 <= j < i ==> models[j].id != id
  }

  /** Only the model at `i` differs, and keeps who it is and its gate. */
  ghost predicate OnlyModel(before: seq<Model>, after: seq<Model>, i: nat) {
    && i < |before| && |after| == |before|
    && (forall k :: 0 <= k < |before| && k != i ==> after[k] == before[k])
    && after[i].id == before[i].id && SameVersion(after[i], before[i].name, before[i].version) && after[i].gate == before[i].gate
  }

  lemma PositionIs(models: seq<Model>, id: string, i: nat)
    ensures Position(models, id) == Some(i) <==> FirstAt(models, id, i)
  {
    hide Position;
  }

  /** A registration is taken for a known project, a complete request and a new version; an accuracy below 0.8 fails the gate. */
  lemma RegisterEffect(models: seq<Model>, op: Operation)
    requires op.Register?
    ensures Answer(models, op).Ok? <==>
              && op.projectKnown && op.name != "" && op.version != "" && op.artifactUri != ""
              && forall i :: 0 <= i < |models| ==> models[i].name != op.name || models[i].version != op.version
    ensures Answer(models, op).Ok? ==>
              && |Effect(models, op)| == |models| + 1 && (forall i :: 0 <= i < |models| ==> Effect(models, op)[i + 1] == models[i])
              && var m := Effect(models, op)[0];
              && m.id == op.newId && m.name == op.name && m.version == op.version
              && m.stage == "candidate" && m.previous == "" && m.deployment == "not_deployed" && m.canaryWeight == 0 && m.endpoint == ""
              && (m.gate == Failed <==> op.accuracy.Some? && op.accuracy.value < 0.8)
  {
  }

  /** A promotion to one of three stages, to production only past the gate, remembers the stage it left. */
  lemma PromoteEffect(models: seq<Model>, id: string, stage: string, i: nat)
    requires FirstAt(models, id, i)
    ensures Answer(models, Promote(id, stage)).Ok? <==>
              stage in {"staging", "production", "archived"} && (stage == "production" ==> models[i].gate != Failed)
    ensures Answer(models, Promote(id, stage)).Ok? ==>
              var after := Effect(models, Promote(id, stage));
              && OnlyModel(models, after, i) && after[i].stage == stage && after[i].previous == models[i].stage
              && after[i].deployment == models[i].deployment && after[i].canaryWeight == models[i].canaryWeight && after[i].endpoint == models[i].endpoint
  {
    PositionIs(models, id, i);
    hide Position;
  }

  /** A deployment past the gate sets the weight, which is a percentage, and the prediction endpoint. */
  lemma DeployEffect(models: seq<Model>, id: string, weight: int, i: nat)
    requires FirstAt(models, id, i)
    ensures Answer(models, Deploy(id, weight)).Ok? <==> 0 <= weight <= 100 && models[i].gate == Passed
    ensures Answer(models, Deploy(id, weight)).Ok? ==>
              var after := Effect(models, Deploy(id, weight));
              && OnlyModel(models, after, i) && after[i].stage == models[i].stage && after[i].previous == models[i].previous
              && after[i].deployment == "deploying" && after[i].canaryWeight == weight
              && after[i].endpoint == "/v1/models/" + models[i].name + ":predict"
  {
    PositionIs(models, id, i);
    hide Position;
  }

  /** A rollback exchanges the stage with the one before, takes the weight away and can be rolled back in turn. */
  lemma RollbackEffect(models: seq<Model>, id: string, i: nat)
    requires FirstAt(models, id, i)
    ensures Answer(models, Rollback(id)).Ok? <==> models[i].previous != ""
    ensures Answer(models, Rollback(id)).Ok? ==>
              var after := Effect(models, Rollback(id));
              && OnlyModel(models, after, i) && after[i].stage == models[i].previous && after[i].previous == models[i].stage
              && after[i].deployment == "rolled_back" && after[i].canaryWeight == 0 && after[i].endpoint == models[i].endpoint
  {
    PositionIs(models, id, i);
    hide Position;
  }

  lemma SetEndpointEffect(models: seq<Model>, id: string, endpoint: string, status: string, i: nat)
    requires FirstAt(models, id, i)
    ensures Answer(models, SetEndpoint(id, endpoint, status)).Ok?
    ensures var after := Effect(models, SetEndpoint(id, endpoint, status));
            && OnlyModel(models, after, i) && after[i].endpoint == endpoint && after[i].deployment == status
            && after[i].stage == models[i].stage && after[i].previous == models[i].previous && after[i].canaryWeight == models[i].canaryWeight
  {
    PositionIs(models, id, i);
    hide Position;
  }

  /** Without such a model nothing happens. */
  lemma UnknownModel(models: seq<Model>, op: Operation)
    requires !op.Register? && forall i: nat :: !FirstAt(models, op.id, i)
    ensures Answer(models, op).Err? && Effect(models, op) == models
  {
    if Position(models, op.id).Some? {
      assert FirstAt(models, op.id, Position(models, op.id).value);
    }
  }

  // ----- Every history -----

  /** The stages a model with that gate can be in, and the stages a rollback can take it to. */
  predicate Reachable(gate: Gate, stage: string, previous: string) {
    || (stage == "candidate" && previous == "")
    || (&& stage in TARGETS + {"candidate"} && previous in TARGETS + {"candidate"}
        && !(stage == "candidate" && previous == "candidate")
        && (gate.Failed? ==> stage != "production" && previous != "production"))
  }

  ghost predicate ModelOk(m: Model) {
    && Reachable(m.gate, m.stage, m.previous)
    && 0 <= m.canaryWeight <= 100 && (m.gate.Failed? ==> m.canaryWeight == 0)
  }

  ghost predicate RegistryOk(models: seq<Model>) {
    && (forall i :: 0 <= i < |models| ==> ModelOk(models[i]))
    && (forall i, j :: 0 <= i < j < |models| ==> !SameVersion(models[j], models[i].name, models[i].version))
  }

  lemma ChangedOk(m: Model, op: Operation)
    requires ModelOk(m) && !op.Register? && (op.Promote? ==> op.stage in TARGETS) && (op.Deploy? ==> 0 <= op.weight <= 100)
    ensures Changed(m, op).Ok? ==> ModelOk(Changed(m, op).value) && SameVersion(Changed(m, op).value, m.name, m.version)
  {
  }

  lemma EffectOk(models: seq<Model>, op: Operation)
    requires RegistryOk(models)
    ensures RegistryOk(Effect(models, op))
  {
    if op.Register? {
      if Answer(models, op).Ok? {
        var m := NewModel(op);
        assert forall i :: 0 <= i < |models| ==> !SameVersion(models[i], m.name, m.version);
        assert ModelOk(m);
      }
    } else if Answer(models, op).Ok? {
      ChangedOk(models[Position(models, op.id).value], op);
      hide ModelOk, Changed;
    }
  }

  lemma {:induction false} HistoryOk(ops: seq<Operation>)
    ensures RegistryOk(AfterAll([], ops))
    decreases |ops|
  {
    if ops != [] {
      HistoryOk(ops[..|ops| - 1]);
      EffectOk(AfterAll([], ops[..|ops| - 1]), ops[|ops| - 1]);
    }
  }

  /** Where a model comes from: the registration of its version, whose accuracy decided its gate. */
  ghost predicate RegisteredBy(m: Model, op: Operation) {
    && op.Register? && op.newId == m.id && op.name == m.name && op.version == m.version
    && (m.gate == Failed <==> op.accuracy.Some? && op.accuracy.value < 0.8)
  }

  lemma OneStepBack(models: seq<Model>, op: Operation, i: nat)
    requires i < |Effect(models, op)|
    ensures var m := Effect(models, op)[i];
            RegisteredBy(m, op) || exists j :: 0 <= j < |models| && models[j].id == m.id && models[j].name == m.name
                                               && models[j].version == m.version && models[j].gate == m.gate
  {
  }

  lemma {:induction false} GateFollowsAccuracy(ops: seq<Operation>, i: nat) returns (k: nat)
    requires i < |AfterAll([], ops)|
    ensures k < |ops| && RegisteredBy(AfterAll([], ops)[i], ops[k])
    decreases |ops|
  {
    var n := |ops| - 1;
    var before := AfterAll([], ops[..n]);
    OneStepBack(before, ops[n], i);
    var m := AfterAll([], ops)[i];
    hide Effect;
    if RegisteredBy(m, ops[n]) {
      k := n;
    } else {
      var j :| 0 <= j < |before| && before[j].id == m.id && before[j].name == m.name && before[j].version == m.version && before[j].gate == m.gate;
      k := GateFollowsAccuracy(ops[..n], j);
    }
  }

  /**
   Over every history: each model goes back to a registration, and if that gave an accuracy below 0.8, production
   is neither its stage nor its rollback target.
   */
  lemma FailedGateNeverInProduction(ops: seq<Operation>, i: nat) returns (k: nat)
    requires i < |AfterAll([], ops)|
    ensures var m := AfterAll([], ops)[i];
            && k < |ops| && RegisteredBy(m, ops[k])
            && (ops[k].accuracy.Some? && ops[k].accuracy.value < 0.8 ==>
                  m.stage != "production" && m.previous != "production" && m.canaryWeight == 0)
  {
    k := GateFollowsAccuracy(ops, i);
    HistoryOk(ops);
    assert ModelOk(AfterAll([], ops)[i]);
    assert "candidate"[0] == 'c' && "production"[0] == 'p';
  }

  // ----- Which stages can be reached -----

  function Registration(gate: Gate): Operation {
    Register(true, "model", "1", "s3://artifact", if gate.Failed? then Some(0.0) else None, "mdl")
  }

  lemma Registered(gate: Gate) returns (m: Model)
    ensures AfterAll([], [Registration(gate)]) == [m]
    ensures m.id == "mdl" && m.gate == gate && m.stage == "candidate" && m.previous == ""
  {
    var op := Registration(gate);
    m := NewModel(op);
    assert [op][..0] == [] && AfterAll([], []) == [];
    assert Effect([], op) == [m];
  }

  /** One more operation on the only model. */
  lemma Moved(ops: seq<Operation>, m: Model, op: Operation, next: Model)
    requires AfterAll([], ops) == [m] && m.id == "mdl" == next.id
    requires (op.Promote? && op.stage in TARGETS) || op.Rollback?
    requires op.id == "mdl" && Changed(m, op) == Ok(next)
    ensures AfterAll([], ops + [op]) == [next]
  {
    assert Position([m], "mdl") == Some(0);
    assert (ops + [op])[..|ops|] == ops;
  }

  lemma Promoted(ops: seq<Operation>, m: Model, stage: string) returns (longer: seq<Operation>, next: Model)
    requires AfterAll([], ops) == [m] && m.id == "mdl"
    requires stage in TARGETS && (m.gate.Failed? ==> stage != "production")
    ensures AfterAll([], longer) == [next] && next == m.(previous := m.stage, stage := stage)
  {
    next := m.(previous := m.stage, stage := stage);
    longer := ops + [Promote("mdl", stage)];
    Moved(ops, m, Promote("mdl", stage), next);
  }

  /** At most two moves after its registration take a model to any reachable pair of stages. */
  lemma RouteLeads(gate: Gate, stage: string, previous: string) returns (ops: seq<Operation>, m: Model)
    requires Reachable(gate, stage, previous)
    ensures AfterAll([], ops) == [m] && m.gate == gate && m.stage == stage && m.previous == previous
  {
    ops := [Registration(gate)];
    m := Registered(gate);
    hide AfterAll, Registration;
    if previous != "" && stage == "candidate" {
      ops, m := Promoted(ops, m, previous);
      var back := m.(stage := "candidate", previous := previous, deployment := "rolled_back", canaryWeight := 0);
      Moved(ops, m, Rollback("mdl"), back);
      ops, m := ops + [Rollback("mdl")], back;
    } else if previous != "" {
      if previous != "candidate" {
        ops, m := Promoted(ops, m, previous);
      }
      ops, m := Promoted(ops, m, stage);
    }
  }

  /** A pair of stages occurs in some history exactly when it is reachable for the gate. */
  lemma ReachableIff(gate: Gate, stage: string, previous: string)
    ensures Reachable(gate, stage, previous)
       <==> exists ops: seq<Operation>, i: nat :: i < |AfterAll([], ops)| && AfterAll([], ops)[i].gate == gate
              && AfterAll([], ops)[i].stage == stage && AfterAll([], ops)[i].previous == previous
  {
    if Reachable(gate, stage, previous) {
      var ops, m := RouteLeads(gate, stage, previous);
      assert AfterAll([], ops)[0] == m;
    }
    forall ops: seq<Operation>, i: nat | i < |AfterAll([], ops)|
      ensures var m := AfterAll([], ops)[i]; Reachable(m.gate, m.stage, m.previous)
    {
      HistoryOk(ops);
      assert ModelOk(AfterAll([], ops)[i]);
    }
  }
}
