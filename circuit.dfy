/** The resources of a generated circuit: definitions of qubit and bit registers and single
    qubits and bits, the resources each definition makes (one per register index, or one),
    and the loop that defines resources until a target number is met. The random draws,
    the target and which kinds of definition the grammar allows are parameters. */
module Circuit {
  import opened Wrappers
  import opened Utils
  import opened Text
  import Coll
  import Grammar

  type Scope = Grammar.Scope

  /** `RK_QUBIT` and `RK_BIT`. */
  datatype ResourceKind = Qubit | Bit

  /** The kind that is not `rk`. */
  function Other(rk: ResourceKind): (o: ResourceKind)
    ensures o != rk
  {
    if rk == Qubit then Bit else Qubit
  }

  /** A definition: a register of `size` resources, or a single resource when `size` is
      `None`. */
  datatype ResourceDef = ResourceDef(name: string, size: Option<u32>, scope: Scope, kind: ResourceKind)

  /** The number of resources a definition makes. */
  function Accounts(d: ResourceDef): nat
  {
    if d.size.Some? then d.size.value as nat else 1
  }

  /** "qreg"/"creg" followed by the definition count. */
  function RegisterName(rk: ResourceKind, count: nat): string
  {
    (if rk == Qubit then "qreg" else "creg") + NatToString(count)
  }

  /** "qubit"/"bit" followed by the definition count. */
  function SingularName(rk: ResourceKind, count: nat): string
  {
    (if rk == Qubit then "qubit" else "bit") + NatToString(count)
  }

  /** The size `make_register_resource_definition` picks: a draw between 1 and the maximum
      when the maximum exceeds 1, else the maximum itself. */
  function RegisterSize(maxSize: u32, roll: nat): (size: u32)
    ensures maxSize > 1 ==> 1 <= size <= maxSize
    ensures maxSize <= 1 ==> size == maxSize
  {
    if maxSize > 1 then RandomUint(maxSize, 1, roll) else maxSize
  }

  /** A resource as a value: its definition's name, its index in a register (none for a
      single resource), scope and kind. */
  datatype ResourceValue = ResourceValue(name: string, index: Option<nat>, scope: Scope, kind: ResourceKind)

  /** The resources a definition makes, in order. */
  function ResourcesOf(d: ResourceDef): (rs: seq<ResourceValue>)
    ensures |rs| == Accounts(d)
  {
    if d.size.Some? then seq(d.size.value as nat, (i: nat) => ResourceValue(d.name, Some(i), d.scope, d.kind))
    else [ResourceValue(d.name, None, d.scope, d.kind)]
  }

  /** A definition makes resources carrying its name, scope and kind: a register one per
      index from 0 up to its size, a single definition one without an index. */
  lemma ResourcesOfShape(d: ResourceDef)
    ensures var rs := ResourcesOf(d);
            (forall i :: 0 <= i < |rs| ==> rs[i].name == d.name && rs[i].scope == d.scope && rs[i].kind == d.kind)
            && (d.size.Some? ==> forall i :: 0 <= i < |rs| ==> rs[i].index == Some(i))
            && (d.size.None? ==> rs == [ResourceValue(d.name, None, d.scope, d.kind)])
  {
  }

  /** The resources of several definitions, one definition after the other. */
  function FlatResources(defs: seq<ResourceDef>): seq<ResourceValue>
  {
    if defs == [] then [] else FlatResources(defs[..|defs| - 1]) + ResourcesOf(defs[|defs| - 1])
  }

  /** The number of resources several definitions make. */
  function TotalAccounts(defs: seq<ResourceDef>): nat
  {
    if defs == [] then 0 else TotalAccounts(defs[..|defs| - 1]) + Accounts(defs[|defs| - 1])
  }

  lemma {:induction false} FlatResourcesLength(defs: seq<ResourceDef>)
    ensures |FlatResources(defs)| == TotalAccounts(defs)
  {
    if defs != [] {
      FlatResourcesLength(defs[..|defs| - 1]);
    }
  }

  lemma {:induction false} TotalAccountsCons(d: ResourceDef, defs: seq<ResourceDef>)
    ensures TotalAccounts([d] + defs) == Accounts(d) + TotalAccounts(defs)
  {
    if defs != [] {
      var n := |defs| - 1;
      assert ([d] + defs)[..n + 1] == [d] + defs[..n];
      TotalAccountsCons(d, defs[..n]);
    } else {
      assert [d] + defs == [d];
      assert [d][..0] == [];
    }
  }

  class Resource {
    const name: string
    const index: Option<nat>
    const scope: Scope
    const kind: ResourceKind
    var used: bool

    /** A new resource is not used. */
    constructor (v: ResourceValue)
      ensures Value() == v && !used
    {
      name := v.name;
      index := v.index;
      scope := v.scope;
      kind := v.kind;
      used := false;
    }

    function Value(): ResourceValue
    {
      ResourceValue(name, index, scope, kind)
    }

    /** `reset`: not used. */
    method Reset()
      modifies this
      ensures !used
    {
      used := false;
    }
  }

  /** Selects the resources of a kind. */
  function OfKind(rk: ResourceKind): Resource -> bool
  {
    (x: Resource) => x.kind == rk
  }

  /** Selects the definitions of a kind. */
  function DefOfKind(rk: ResourceKind): ResourceDef -> bool
  {
    (d: ResourceDef) => d.kind == rk
  }

  /** The values of a list of resources, in order. */
  function Values(rs: seq<Resource>): seq<ResourceValue>
  {
    seq(|rs|, i requires 0 <= i < |rs| => rs[i].Value())
  }

  lemma ValuesAppend(a: seq<Resource>, b: seq<Resource>)
    ensures Values(a + b) == Values(a) + Values(b)
  {
  }

  /** `make_resources`, and the loop of `store_resource_def`: new unused resources, one per
      register index, or one for a single resource. */
  method MakeResources(d: ResourceDef) returns (rs: seq<Resource>)
    ensures Values(rs) == ResourcesOf(d)
    ensures forall r :: r in rs ==> fresh(r) && !r.used
  {
    if d.size.None? {
      var r := new Resource(ResourceValue(d.name, None, d.scope, d.kind));
      return [r];
    }
    rs := [];
    var i := 0;
    while i < d.size.value as nat
      invariant 0 <= i <= d.size.value as nat
      invariant Values(rs) == ResourcesOf(d)[..i]
      invariant forall r :: r in rs ==> fresh(r) && !r.used
    {
      var r := new Resource(ResourceValue(d.name, Some(i), d.scope, d.kind));
      ValuesAppend(rs, [r]);
      rs := rs + [r];
      assert ResourcesOf(d)[..i + 1] == ResourcesOf(d)[..i] + [ResourcesOf(d)[i]];
      i := i + 1;
    }
  }

  /** One draw of the definition loop: the coin choosing single or register when both are
      allowed, and the roll choosing a register's size. */
  datatype Draw = Draw(coin: nat, size: nat)

  /** The definition one round of the loop makes, number `count`, with `target` resources
      still to define. */
  function Pick(scope: Scope, rk: ResourceKind, target: u32, canRegister: bool, canSingular: bool, draw: Draw, count: nat): ResourceDef
  {
    var singular := if canRegister && canSingular then RandomUint(1, 0, draw.coin) != 0 else canSingular;
    if singular then ResourceDef(SingularName(rk, count), None, scope, rk)
    else ResourceDef(RegisterName(rk, count), Some(RegisterSize(target, draw.size)), scope, rk)
  }

  const NoDefinitionKind := "Resource def MUST have at least one register or singular resource definition"

  /** The definitions `make_resource_definitions` makes for a target, from definition number
      `count` on: while resources remain to be defined, a single resource or a register of
      at most the remaining number, as the grammar allows and the coin decides. */
  function Plan(scope: Scope, rk: ResourceKind, target: u32, canRegister: bool, canSingular: bool, draws: seq<Draw>, count: nat): Result<seq<ResourceDef>, string>
    requires count + target as nat <= |draws|
    decreases target
  {
    if target == 0 then Ok([])
    else if !canRegister && !canSingular then Err(NoDefinitionKind)
    else
      var d := Pick(scope, rk, target, canRegister, canSingular, draws[count], count);
      var rest := Plan(scope, rk, (target as nat - Accounts(d)) as u32, canRegister, canSingular, draws, count + 1);
      if rest.Err? then rest else Ok([d] + rest.value)
  }

  /** A definition of the loop's kind and scope, taking at least one resource, named after
      number `n`. */
  predicate Shaped(d: ResourceDef, rk: ResourceKind, scope: Scope, n: nat)
  {
    1 <= Accounts(d) && d.kind == rk && d.scope == scope
    && d.name == if d.size.Some? then RegisterName(rk, n) else SingularName(rk, n)
  }

  /** One round's definition takes at least one resource and at most what remains, has
      the loop's kind and scope, and is named after its number; when the grammar allows
      some kind of definition, the round makes one of a kind it allows. */
  lemma PickInBounds(scope: Scope, rk: ResourceKind, target: u32, canRegister: bool, canSingular: bool, draw: Draw, count: nat)
    requires target > 0
    ensures var d := Pick(scope, rk, target, canRegister, canSingular, draw, count);
            Accounts(d) <= target as nat && Shaped(d, rk, scope, count)
    ensures var d := Pick(scope, rk, target, canRegister, canSingular, draw, count);
            (canRegister || canSingular) ==> (d.size.None? ==> canSingular) && (d.size.Some? ==> canRegister)
  {
  }

  /** The definitions account for exactly the target: each takes at least one and at most
      what remains, so the remaining count reaches 0 without wrapping; there are at most as
      many definitions as resources. */
  lemma {:induction false} PlanMeetsTarget(scope: Scope, rk: ResourceKind, target: u32, canRegister: bool, canSingular: bool, draws: seq<Draw>, count: nat)
    requires count + target as nat <= |draws|
    requires Plan(scope, rk, target, canRegister, canSingular, draws, count).Ok?
    ensures var defs := Plan(scope, rk, target, canRegister, canSingular, draws, count).value;
            TotalAccounts(defs) == target as nat && |defs| <= target as nat
    decreases target
  {
    if target != 0 {
      var d, remaining, rest := PlanUnfold(scope, rk, target, canRegister, canSingular, draws, count);
      PlanMeetsTarget(scope, rk, remaining, canRegister, canSingular, draws, count + 1);
      TotalAccountsCons(d, rest);
    }
  }

  /** Every definition has the loop's kind and scope, accounts for at least one resource,
      and definition `k` is named after number `count + k`. */
  lemma {:induction false} PlanDefsShape(scope: Scope, rk: ResourceKind, target: u32, canRegister: bool, canSingular: bool, draws: seq<Draw>, count: nat)
    requires count + target as nat <= |draws|
    requires Plan(scope, rk, target, canRegister, canSingular, draws, count).Ok?
    ensures AllShaped(Plan(scope, rk, target, canRegister, canSingular, draws, count).value, rk, scope, count)
    decreases target
  {
    if target != 0 {
      var d, remaining, rest := PlanUnfold(scope, rk, target, canRegister, canSingular, draws, count);
      PlanDefsShape(scope, rk, remaining, canRegister, canSingular, draws, count + 1);
      ShapedShift(d, rest, rk, scope, count);
    }
  }

  /** A successful plan with something to define: its first definition, then a successful rest. */
  lemma PlanUnfold(scope: Scope, rk: ResourceKind, target: u32, canRegister: bool, canSingular: bool, draws: seq<Draw>, count: nat)
      returns (d: ResourceDef, remaining: u32, rest: seq<ResourceDef>)
    requires target > 0 && count + target as nat <= |draws|
    requires Plan(scope, rk, target, canRegister, canSingular, draws, count).Ok?
    ensures Shaped(d, rk, scope, count) && remaining < target && remaining as nat + Accounts(d) == target as nat
    ensures count + 1 + remaining as nat <= |draws|
    ensures Plan(scope, rk, remaining, canRegister, canSingular, draws, count + 1) == Ok(rest)
    ensures Plan(scope, rk, target, canRegister, canSingular, draws, count).value == [d] + rest
  {
    d := Pick(scope, rk, target, canRegister, canSingular, draws[count], count);
    PickInBounds(scope, rk, target, canRegister, canSingular, draws[count], count);
    remaining := target - Accounts(d) as u32;
    rest := Plan(scope, rk, remaining, canRegister, canSingular, draws, count + 1).value;
  }

  /** Definition `k` of `defs` has the loop's kind and scope, accounts for at least one
      resource, and is named after number `from + k`. */
  predicate AllShaped(defs: seq<ResourceDef>, rk: ResourceKind, scope: Scope, from: nat)
  {
    forall k :: 0 <= k < |defs| ==> Shaped(defs[k], rk, scope, from + k)
  }

  lemma ShapedShift(d: ResourceDef, rest: seq<ResourceDef>, rk: ResourceKind, scope: Scope, count: nat)
    requires Shaped(d, rk, scope, count)
    requires AllShaped(rest, rk, scope, count + 1)
    ensures AllShaped([d] + rest, rk, scope, count)
  {
    forall k | 1 <= k < |[d] + rest|
      ensures Shaped(([d] + rest)[k], rk, scope, count + k)
    {
      assert ([d] + rest)[k] == rest[k - 1];
      assert count + 1 + (k - 1) == count + k;
    }
  }

  /** The loop throws exactly when there is something to define and the grammar allows
      neither kind of definition; with nothing to define it makes none. */
  lemma PlanFails(scope: Scope, rk: ResourceKind, target: u32, canRegister: bool, canSingular: bool, draws: seq<Draw>, count: nat)
    requires count + target as nat <= |draws|
    ensures (Plan(scope, rk, target, canRegister, canSingular, draws, count).Err?) <==> (target > 0 && !canRegister && !canSingular)
    ensures target == 0 ==> Plan(scope, rk, target, canRegister, canSingular, draws, count) == Ok([])
  {
    if target > 0 && (canRegister || canSingular) {
      PlanNeverFails(scope, rk, target, canRegister, canSingular, draws, count);
    }
  }

  lemma {:induction false} PlanNeverFails(scope: Scope, rk: ResourceKind, target: u32, canRegister: bool, canSingular: bool, draws: seq<Draw>, count: nat)
    requires count + target as nat <= |draws| && (canRegister || canSingular)
    ensures Plan(scope, rk, target, canRegister, canSingular, draws, count).Ok?
    decreases target
  {
    if target != 0 {
      var d := Pick(scope, rk, target, canRegister, canSingular, draws[count], count);
      PlanNeverFails(scope, rk, (target as nat - Accounts(d)) as u32, canRegister, canSingular, draws, count + 1);
    }
  }

  /** With single definitions only, the target is met one resource at a time. */
  lemma {:induction false} SingularOnlyPlan(scope: Scope, rk: ResourceKind, target: u32, draws: seq<Draw>, count: nat)
    requires count + target as nat <= |draws|
    ensures var p := Plan(scope, rk, target, false, true, draws, count);
            p.Ok? && |p.value| == target as nat && forall k :: 0 <= k < |p.value| ==> p.value[k].size.None?
    decreases target
  {
    if target != 0 {
      SingularOnlyPlan(scope, rk, target - 1, draws, count + 1);
    }
  }

  /** With registers only, the first register takes between 1 and the whole target. */
  lemma RegisterOnlyFirst(scope: Scope, rk: ResourceKind, target: u32, draws: seq<Draw>)
    requires |draws| >= target as nat && target > 0
    ensures var p := Plan(scope, rk, target, true, false, draws, 0);
            p.Ok? && |p.value| >= 1 && p.value[0].size.Some?
            && 1 <= p.value[0].size.value <= target && p.value[0].name == RegisterName(rk, 0)
  {
    PlanNeverFails(scope, rk, target, true, false, draws, 0);
  }

  /** The result of the loop seen from an earlier point: the definitions made so far, then
      those still to come. */
  function Prepend(done: seq<ResourceDef>, rest: Result<seq<ResourceDef>, string>): Result<seq<ResourceDef>, string>
  {
    if rest.Err? then rest else Ok(done + rest.value)
  }

  /** One round of the loop: the definition it picks, then the rest of the loop. */
  lemma PlanStep(scope: Scope, rk: ResourceKind, target: u32, canRegister: bool, canSingular: bool, draws: seq<Draw>, i: nat, accounted: u32,
                 left: u32, j: nat)
    requires target > 0 && (canRegister || canSingular) && i + target as nat <= |draws|
    requires accounted as nat == Accounts(Pick(scope, rk, target, canRegister, canSingular, draws[i], i))
    requires left as int == target as int - accounted as int && j == i + 1
    ensures 1 <= accounted <= target && j + left as nat <= |draws|
    ensures Plan(scope, rk, target, canRegister, canSingular, draws, i)
              == Prepend([Pick(scope, rk, target, canRegister, canSingular, draws[i], i)],
                         Plan(scope, rk, left, canRegister, canSingular, draws, j))
  {
    PickInBounds(scope, rk, target, canRegister, canSingular, draws[i], i);
  }

  lemma PrependSnoc(done: seq<ResourceDef>, d: ResourceDef, rest: Result<seq<ResourceDef>, string>)
    ensures Prepend(done, Prepend([d], rest)) == Prepend(done + [d], rest)
  {
    if rest.Ok? {
      assert done + ([d] + rest.value) == done + [d] + rest.value;
    }
  }

  /** One round of the definition loop keeps its account: the whole loop is what was done,
      then the rest; the resources are those there were, then those of what was done. */
  lemma LoopStep(plan: Result<seq<ResourceDef>, string>, done: seq<ResourceDef>, d: ResourceDef, rest: Result<seq<ResourceDef>, string>,
                 before: seq<ResourceValue>, start: seq<ResourceValue>, after: seq<ResourceValue>,
                 defsBefore: seq<ResourceDef>, defsStart: seq<ResourceDef>, defsAfter: seq<ResourceDef>)
    requires plan == Prepend(done, Prepend([d], rest))
    requires before == start + FlatResources(done) && after == before + ResourcesOf(d)
    requires defsBefore == defsStart + done && defsAfter == defsBefore + [d]
    ensures plan == Prepend(done + [d], rest)
    ensures after == start + FlatResources(done + [d])
    ensures defsAfter == defsStart + (done + [d])
  {
    PrependSnoc(done, d, rest);
    FlatResourcesSnoc(done, d);
    Regroup(start, FlatResources(done), ResourcesOf(d));
    Regroup(defsStart, done, [d]);
  }

  lemma Regroup<T>(a: seq<T>, b: seq<T>, c: seq<T>)
    ensures a + b + c == a + (b + c)
  {
  }

  lemma FlatResourcesSnoc(defs: seq<ResourceDef>, d: ResourceDef)
    ensures FlatResources(defs + [d]) == FlatResources(defs) + ResourcesOf(d)
  {
    assert (defs + [d])[..|defs|] == defs;
  }

  class Circuit {
    const owner: string
    var qubits: seq<Resource>
    var bits: seq<Resource>
    var qubitDefs: seq<ResourceDef>
    var bitDefs: seq<ResourceDef>
    var resources: seq<Resource>
    var resourceDefs: seq<ResourceDef>

    /** `Circuit(owner, is_subroutine)`: no definitions and no resources. */
    constructor (owner: string)
      ensures this.owner == owner
      ensures qubits == [] && bits == [] && qubitDefs == [] && bitDefs == []
      ensures resources == [] && resourceDefs == []
    {
      this.owner := owner;
      qubits := [];
      bits := [];
      qubitDefs := [];
      bitDefs := [];
      resources := [];
      resourceDefs := [];
    }

    /** `owned_by(other)`. */
    predicate OwnedBy(other: string)
    {
      other == owner
    }

    /** The definitions of a kind, as the definition loop keeps them. */
    function DefsOf(rk: ResourceKind): seq<ResourceDef>
      reads this
    {
      if rk == Qubit then qubitDefs else bitDefs
    }

    /** The resources of a kind, as the definition loop keeps them. */
    function ResourcesOfKind(rk: ResourceKind): seq<Resource>
      reads this
    {
      if rk == Qubit then qubits else bits
    }

    /** `def.make_resources(...)` then the push onto the definitions of its kind. */
    method StoreDefinition(d: ResourceDef)
      modifies this
      ensures DefsOf(d.kind) == old(DefsOf(d.kind)) + [d]
      ensures Values(ResourcesOfKind(d.kind)) == Values(old(ResourcesOfKind(d.kind))) + ResourcesOf(d)
      ensures DefsOf(Other(d.kind)) == old(DefsOf(Other(d.kind))) && ResourcesOfKind(Other(d.kind)) == old(ResourcesOfKind(Other(d.kind)))
      ensures resources == old(resources) && resourceDefs == old(resourceDefs)
    {
      var rs := MakeResources(d);
      if d.kind == Qubit {
        ValuesAppend(qubits, rs);
        qubits := qubits + rs;
        qubitDefs := qubitDefs + [d];
      } else {
        ValuesAppend(bits, rs);
        bits := bits + rs;
        bitDefs := bitDefs + [d];
      }
    }

    /** `make_register_resource_definition(scope, rk, max_size, current_num_definitions)`:
        defines a register named after the count, of a size drawn up to `max_size`, and
        returns the size; the count grows by one. */
    method MakeRegisterResourceDefinition(scope: Scope, rk: ResourceKind, maxSize: u32, count: nat, roll: nat) returns (size: u32, countOut: nat)
      modifies this
      ensures size == RegisterSize(maxSize, roll) && countOut == count + 1
      ensures DefsOf(rk) == old(DefsOf(rk)) + [ResourceDef(RegisterName(rk, count), Some(size), scope, rk)]
      ensures Values(ResourcesOfKind(rk)) == Values(old(ResourcesOfKind(rk))) + ResourcesOf(ResourceDef(RegisterName(rk, count), Some(size), scope, rk))
      ensures DefsOf(Other(rk)) == old(DefsOf(Other(rk))) && ResourcesOfKind(Other(rk)) == old(ResourcesOfKind(Other(rk)))
      ensures resources == old(resources) && resourceDefs == old(resourceDefs)
    {
      size := RegisterSize(maxSize, roll);
      StoreDefinition(ResourceDef(RegisterName(rk, count), Some(size), scope, rk));
      countOut := count + 1;
    }

    /** `make_singular_resource_definition(scope, rk, total_definitions)`: defines a single
        resource named after the count and returns 1; the count grows by one. */
    method MakeSingularResourceDefinition(scope: Scope, rk: ResourceKind, count: nat) returns (accounted: u32, countOut: nat)
      modifies this
      ensures accounted == 1 && countOut == count + 1
      ensures DefsOf(rk) == old(DefsOf(rk)) + [ResourceDef(SingularName(rk, count), None, scope, rk)]
      ensures Values(ResourcesOfKind(rk)) == Values(old(ResourcesOfKind(rk))) + ResourcesOf(ResourceDef(SingularName(rk, count), None, scope, rk))
      ensures DefsOf(Other(rk)) == old(DefsOf(Other(rk))) && ResourcesOfKind(Other(rk)) == old(ResourcesOfKind(Other(rk)))
      ensures resources == old(resources) && resourceDefs == old(resourceDefs)
    {
      StoreDefinition(ResourceDef(SingularName(rk, count), None, scope, rk));
      accounted := 1;
      countOut := count + 1;
    }

    /** One round of `make_resource_definitions`: a single resource or a register, as the
        grammar allows and the coin decides; returns how many resources it defined. */
    method DefineOne(scope: Scope, rk: ResourceKind, remaining: u32, canRegister: bool, canSingular: bool, draw: Draw, count: nat) returns (accounted: u32, countOut: nat)
      requires remaining > 0 && (canRegister || canSingular)
      modifies this
      ensures var d := Pick(scope, rk, remaining, canRegister, canSingular, draw, count);
              accounted as nat == Accounts(d) && 1 <= accounted <= remaining && countOut == count + 1
              && DefsOf(rk) == old(DefsOf(rk)) + [d]
              && Values(ResourcesOfKind(rk)) == Values(old(ResourcesOfKind(rk))) + ResourcesOf(d)
      ensures DefsOf(Other(rk)) == old(DefsOf(Other(rk))) && ResourcesOfKind(Other(rk)) == old(ResourcesOfKind(Other(rk)))
      ensures resources == old(resources) && resourceDefs == old(resourceDefs)
    {
      var singular: bool;
      if canRegister && canSingular {
        singular := RandomUint(1, 0, draw.coin) != 0;
      } else {
        singular := canSingular;
      }
      if singular {
        accounted, countOut := MakeSingularResourceDefinition(scope, rk, count);
      } else {
        accounted, countOut := MakeRegisterResourceDefinition(scope, rk, remaining, count, draw.size);
      }
    }

    /** `make_resource_definitions(scope, rk, control)` for the target `target`, with the
        grammar allowing registers and single definitions as given: defines resources until
        the target is met and returns the number of definitions, or throws when the grammar
        allows neither kind. */
    method MakeResourceDefinitions(scope: Scope, rk: ResourceKind, target: u32, canRegister: bool, canSingular: bool, draws: seq<Draw>) returns (r: Result<nat, string>)
      requires |draws| >= target as nat
      modifies this
      ensures var plan := Plan(scope, rk, target, canRegister, canSingular, draws, 0);
              (plan.Err? ==> r == Err(plan.error) && DefsOf(rk) == old(DefsOf(rk)) && Values(ResourcesOfKind(rk)) == Values(old(ResourcesOfKind(rk))))
              && (plan.Ok? ==> r == Ok(|plan.value|)
                               && DefsOf(rk) == old(DefsOf(rk)) + plan.value
                               && Values(ResourcesOfKind(rk)) == Values(old(ResourcesOfKind(rk))) + FlatResources(plan.value))
      ensures DefsOf(Other(rk)) == old(DefsOf(Other(rk))) && ResourcesOfKind(Other(rk)) == old(ResourcesOfKind(Other(rk)))
      ensures resources == old(resources) && resourceDefs == old(resourceDefs)
    {
      var remaining := target;
      var count: nat := 0;
      ghost var done: seq<ResourceDef> := [];
      ghost var start := Values(ResourcesOfKind(rk));
      ghost var plan := Plan(scope, rk, target, canRegister, canSingular, draws, 0);
      ghost var rest := plan;
      if plan.Ok? {
        assert [] + plan.value == plan.value;
      }
      while remaining > 0
        invariant count == |done| && |draws| - count >= remaining as nat
        invariant rest == Plan(scope, rk, remaining, canRegister, canSingular, draws, count)
        invariant plan == Prepend(done, rest)
        invariant canRegister || canSingular || count == 0
        invariant DefsOf(rk) == old(DefsOf(rk)) + done
        invariant Values(ResourcesOfKind(rk)) == start + FlatResources(done)
        invariant DefsOf(Other(rk)) == old(DefsOf(Other(rk))) && ResourcesOfKind(Other(rk)) == old(ResourcesOfKind(Other(rk)))
        invariant resources == old(resources) && resourceDefs == old(resourceDefs)
        decreases remaining
      {
        if !canRegister && !canSingular {
          assert done == [] && old(DefsOf(rk)) + done == old(DefsOf(rk)) && start + FlatResources(done) == start;
          return Err(NoDefinitionKind);
        }
        var i := count;
        ghost var d := Pick(scope, rk, remaining, canRegister, canSingular, draws[i], i);
        ghost var before := Values(ResourcesOfKind(rk));
        ghost var defsBefore := DefsOf(rk);
        var accounted: u32;
        accounted, count := DefineOne(scope, rk, remaining, canRegister, canSingular, draws[i], count);
        var left := remaining - accounted;
        PlanStep(scope, rk, remaining, canRegister, canSingular, draws, i, accounted, left, count);
        remaining := left;
        rest := Plan(scope, rk, remaining, canRegister, canSingular, draws, count);
        LoopStep(plan, done, d, rest, before, start, Values(ResourcesOfKind(rk)), defsBefore, old(DefsOf(rk)), DefsOf(rk));
        done := done + [d];
      }
      assert rest == Ok([]);
      assert done + [] == done;
      return Ok(count);
    }

    /** `store_resource_def(def)`: the definition's resources go last among the resources
        (for a register, one per index from 0), then the definition goes last among the
        definitions; the resources of a kind grow by exactly those new resources. */
    method StoreResourceDef(def: ResourceDef)
      modifies this
      ensures resourceDefs == old(resourceDefs) + [def]
      ensures |resources| == |old(resources)| + Accounts(def) && resources[..|old(resources)|] == old(resources)
      ensures Values(resources[|old(resources)|..]) == ResourcesOf(def)
      ensures GetColl(def.kind) == old(GetColl(def.kind)) + resources[|old(resources)|..]
      ensures forall rk :: rk != def.kind ==> GetColl(rk) == old(GetColl(rk))
      ensures qubits == old(qubits) && bits == old(bits) && qubitDefs == old(qubitDefs) && bitDefs == old(bitDefs)
    {
      var rs := MakeResources(def);
      StoredKinds(resources, rs, def);
      assert (resources + rs)[|resources|..] == rs;
      resources := resources + rs;
      resourceDefs := resourceDefs + [def];
    }

    /** `reset`: every resource is unused again. */
    method Reset()
      modifies resources
      ensures forall r :: r in resources ==> !r.used
    {
      var i := 0;
      while i < |resources|
        invariant 0 <= i <= |resources|
        invariant forall j :: 0 <= j < i ==> !resources[j].used
      {
        resources[i].Reset();
        i := i + 1;
      }
    }

    /** `get_coll<Resource>(rk)`. */
    function GetColl(rk: ResourceKind): seq<Resource>
      reads this
    {
      Coll.Filter(resources, OfKind(rk))
    }

    /** `get_coll<Resource_def>(rk)`. */
    function GetDefColl(rk: ResourceKind): seq<ResourceDef>
      reads this
    {
      Coll.Filter(resourceDefs, DefOfKind(rk))
    }
  }

  /** Appending a definition's resources adds exactly them to the resources of its kind and
      nothing to the other kind's. */
  lemma StoredKinds(prev: seq<Resource>, rs: seq<Resource>, def: ResourceDef)
    requires Values(rs) == ResourcesOf(def)
    ensures Coll.Filter(prev + rs, OfKind(def.kind)) == Coll.Filter(prev, OfKind(def.kind)) + rs
    ensures forall rk :: rk != def.kind ==> Coll.Filter(prev + rs, OfKind(rk)) == Coll.Filter(prev, OfKind(rk))
  {
    ResourcesOfShape(def);
    assert forall k :: 0 <= k < |rs| ==> Values(rs)[k] == rs[k].Value();
    assert forall k :: 0 <= k < |rs| ==> rs[k].kind == def.kind;
    Coll.FilterAppend(prev, rs, OfKind(def.kind));
    Coll.FilterAllOrNone(rs, OfKind(def.kind));
    var other := if def.kind == Qubit then Bit else Qubit;
    Coll.FilterAppend(prev, rs, OfKind(other));
    Coll.FilterAllOrNone(rs, OfKind(other));
    assert Coll.Filter(prev, OfKind(other)) + [] == Coll.Filter(prev, OfKind(other));
  }

  /** `get_coll(rk)` holds exactly the elements of the kind, in their order: the elements
      of a prefix come before those of what follows. */
  lemma GetCollOfKind(c: Circuit, rk: ResourceKind, n: nat)
    requires n <= |c.resources|
    ensures forall x :: x in c.GetColl(rk) <==> x in c.resources && x.kind == rk
    ensures c.GetColl(rk) == Coll.Filter(c.resources[..n], OfKind(rk))
                             + Coll.Filter(c.resources[n..], OfKind(rk))
  {
    Coll.FilterMembers(c.resources, OfKind(rk));
    assert c.resources == c.resources[..n] + c.resources[n..];
    Coll.FilterAppend(c.resources[..n], c.resources[n..], OfKind(rk));
  }

  /** The same for the definitions. */
  lemma GetDefCollOfKind(c: Circuit, rk: ResourceKind)
    ensures forall d :: d in c.GetDefColl(rk) <==> d in c.resourceDefs && d.kind == rk
  {
    Coll.FilterMembers(c.resourceDefs, DefOfKind(rk));
  }
}
