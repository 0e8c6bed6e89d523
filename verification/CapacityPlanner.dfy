/** First-fit-decreasing placement of assets on trusted disks, with pins. */
module CapacityPlanner {
  import opened Wrappers

  datatype Disk = Disk(id: int, trusted: bool, capacityGb: int, usableCapacityGb: Option<int>, reservedCapacityGb: int)

  datatype Asset = Asset(id: int, sizeGb: int, enabled: bool, ignored: bool)

  datatype Assignment = Assignment(vmId: int, diskId: int, pinned: bool)

  /** The failing dictionary update of a pin to a disk that is not planned. */
  datatype KeyError = KeyError

  datatype DiskPlanningSummary = DiskPlanningSummary(
    diskId: int, availableCapacityGb: int, totalPlannedGb: int, plannedCount: nat, unplannedCount: nat, fitsAll: bool)

  datatype PlanningOverview = PlanningOverview(
    trustedDiskCount: nat, plannableCount: nat, plannedCount: int, coveragePercent: real)

  function AvailableCapacity(disk: Disk): (gb: int)
    ensures gb >= 0
  {
    var base := if disk.usableCapacityGb.Some? then disk.usableCapacityGb.value else disk.capacityGb;
    if base - disk.reservedCapacityGb > 0 then base - disk.reservedCapacityGb else 0
  }

  function Trusted(disks: seq<Disk>): (r: seq<Disk>)
    ensures forall d :: d in r <==> d in disks && d.trusted
    ensures DistinctIds(disks) ==> DistinctIds(r)
    ensures |r| <= |disks|
  {
    if disks == [] then [] else (if disks[0].trusted then [disks[0]] else []) + Trusted(disks[1..])
  }

  function Plannable(inventory: seq<Asset>): seq<Asset> {
    if inventory == [] then []
    else (if inventory[0].enabled && !inventory[0].ignored then [inventory[0]] else []) + Plannable(inventory[1..])
  }

  /** Pins by asset; a later assignment of the same asset overrides an earlier one. */
  function Pins(assignments: seq<Assignment>): map<int, int> {
    if assignments == [] then map[]
    else
      var rest, last := Pins(assignments[..|assignments| - 1]), assignments[|assignments| - 1];
      if last.pinned then rest[last.vmId := last.diskId] else rest
  }

  predicate DistinctIds(disks: seq<Disk>) {
    forall i, j :: 0 <= i < j < |disks| ==> disks[i].id != disks[j].id
  }

  // ----- sorting -----

  function Insert(a: Asset, sorted: seq<Asset>): seq<Asset> {
    if sorted == [] || sorted[0].sizeGb <= a.sizeGb then [a] + sorted
    else [sorted[0]] + Insert(a, sorted[1..])
  }

  /** `sorted(..., key=size, reverse=True)`: descending, equal sizes in their original order. */
  function SortDescending(assets: seq<Asset>): seq<Asset> {
    if assets == [] then [] else Insert(assets[0], SortDescending(assets[1..]))
  }

  ghost predicate Descending(assets: seq<Asset>) {
    forall i, j :: 0 <= i < j < |assets| ==> assets[i].sizeGb >= assets[j].sizeGb
  }

  function OfSize(assets: seq<Asset>, size: int): seq<Asset> {
    if assets == [] then []
    else (if assets[0].sizeGb == size then [assets[0]] else []) + OfSize(assets[1..], size)
  }

  lemma {:induction false} InsertPermutes(a: Asset, sorted: seq<Asset>)
    ensures multiset(Insert(a, sorted)) == multiset{a} + multiset(sorted)
  {
    if sorted == [] || sorted[0].sizeGb <= a.sizeGb {
    } else {
      InsertPermutes(a, sorted[1..]);
      assert sorted == [sorted[0]] + sorted[1..];
    }
  }

  lemma {:induction false} InsertSorts(a: Asset, sorted: seq<Asset>)
    requires Descending(sorted)
    ensures Descending(Insert(a, sorted))
    ensures |Insert(a, sorted)| == |sorted| + 1
    ensures Insert(a, sorted)[0].sizeGb == a.sizeGb || (sorted != [] && Insert(a, sorted)[0] == sorted[0])
  {
    if sorted == [] || sorted[0].sizeGb <= a.sizeGb {
    } else {
      var tail := sorted[1..];
      InsertSorts(a, tail);
      var rest := Insert(a, tail);
      hide Insert;
      assert rest[0].sizeGb <= sorted[0].sizeGb;
      forall i | 0 <= i < |rest| ensures rest[i].sizeGb <= sorted[0].sizeGb {
        assert rest[i].sizeGb <= rest[0].sizeGb;
      }
    }
  }

  lemma OfSizeCons(head: Asset, tail: seq<Asset>, size: int)
    ensures OfSize([head] + tail, size)
         == if head.sizeGb == size then [head] + OfSize(tail, size) else OfSize(tail, size)
  {
    assert ([head] + tail)[1..] == tail;
    assert [] + OfSize(tail, size) == OfSize(tail, size);
  }

  lemma {:induction false} InsertIsStable(a: Asset, sorted: seq<Asset>, size: int)
    ensures OfSize(Insert(a, sorted), size)
         == if a.sizeGb == size then [a] + OfSize(sorted, size) else OfSize(sorted, size)
  {
    if sorted == [] || sorted[0].sizeGb <= a.sizeGb {
      OfSizeCons(a, sorted, size);
    } else {
      var head, tail := sorted[0], sorted[1..];
      InsertIsStable(a, tail, size);
      var rest := Insert(a, tail);
      OfSizeCons(head, rest, size);
      OfSizeCons(head, tail, size);
      assert sorted == [head] + tail;
      hide OfSize;
    }
  }

  /** The sort is a stable descending permutation. */
  lemma {:induction false} SortIsStable(assets: seq<Asset>, size: int)
    ensures Descending(SortDescending(assets))
    ensures multiset(SortDescending(assets)) == multiset(assets)
    ensures OfSize(SortDescending(assets), size) == OfSize(assets, size)
  {
    if assets != [] {
      var rest := SortDescending(assets[1..]);
      SortIsStable(assets[1..], size);
      InsertPermutes(assets[0], rest);
      InsertSorts(assets[0], rest);
      InsertIsStable(assets[0], rest, size);
      OfSizeCons(assets[0], assets[1..], size);
      assert assets == [assets[0]] + assets[1..];
    }
  }

  // ----- placement -----

  function Ids(disks: seq<Disk>): (ids: set<int>)
    ensures forall d :: d in disks ==> d.id in ids
  {
    if disks == [] then {} else Ids(disks[..|disks| - 1]) + {disks[|disks| - 1].id}
  }

  lemma {:induction false} IdsOnly(disks: seq<Disk>, id: int)
    requires id in Ids(disks)
    ensures exists d :: d in disks && d.id == id
  {
    if disks[|disks| - 1].id == id {
    } else {
      IdsOnly(disks[..|disks| - 1], id);
    }
  }

  datatype Plan = Plan(free: map<int, int>, planned: map<int, seq<Asset>>, unplanned: seq<Asset>) {
    predicate Covers(disks: seq<Disk>) {
      free.Keys == planned.Keys == Ids(disks)
    }
  }

  function Empty(disks: seq<Disk>): (p: Plan)
    requires DistinctIds(disks)
    ensures p.Covers(disks) && p.unplanned == []
    ensures forall d :: d in disks ==> p.free[d.id] == AvailableCapacity(d) && p.planned[d.id] == []
  {
    if disks == [] then Plan(map[], map[], [])
    else
      var p, last := Empty(disks[..|disks| - 1]), disks[|disks| - 1];
      Plan(p.free[last.id := AvailableCapacity(last)], p.planned[last.id := []], [])
  }

  function PutOn(p: Plan, id: int, a: Asset): Plan
    requires id in p.free && id in p.planned
  {
    p.(free := p.free[id := p.free[id] - a.sizeGb], planned := p.planned[id := p.planned[id] + [a]])
  }

  function PutAside(p: Plan, a: Asset): Plan {
    p.(unplanned := p.unplanned + [a])
  }

  /** The first disk in scan order with room. */
  function FirstFit(disks: seq<Disk>, free: map<int, int>, size: int): (r: Option<int>)
    requires forall d :: d in disks ==> d.id in free
    ensures r.Some? ==> r.value in free && free[r.value] >= size
    ensures r.None? ==> forall d :: d in disks ==> free[d.id] < size
  {
    if disks == [] then None
    else if free[disks[0].id] >= size then Some(disks[0].id)
    else FirstFit(disks[1..], free, size)
  }

  /** No earlier disk in scan order had room. */
  lemma {:induction false} FirstFitIsFirst(disks: seq<Disk>, free: map<int, int>, size: int) returns (i: nat)
    requires forall d :: d in disks ==> d.id in free
    requires FirstFit(disks, free, size).Some?
    ensures i < |disks| && disks[i].id == FirstFit(disks, free, size).value && free[disks[i].id] >= size
    ensures forall j :: 0 <= j < i ==> free[disks[j].id] < size
  {
    if free[disks[0].id] >= size {
      i := 0;
    } else {
      i := FirstFitIsFirst(disks[1..], free, size);
      i := i + 1;
    }
  }

  lemma {:induction false} NoFit(disks: seq<Disk>, free: map<int, int>, size: int)
    requires forall d :: d in disks ==> d.id in free && free[d.id] < size
    ensures FirstFit(disks, free, size) == None
  {
    if disks != [] {
      assert disks[0] in disks;
      NoFit(disks[1..], free, size);
    }
  }

  function Place(disks: seq<Disk>, pins: map<int, int>, p: Plan, a: Asset): (r: Result<Plan, KeyError>)
    requires p.Covers(disks)
    ensures r.Ok? ==> r.value.Covers(disks)
  {
    if a.id in pins then
      var id := pins[a.id];
      var remaining := if id in p.free then p.free[id] else -1;
      if remaining < a.sizeGb then Ok(PutAside(p, a))
      else if id in p.free then Ok(PutOn(p, id, a))
      else Err(KeyError)
    else
      match FirstFit(disks, p.free, a.sizeGb)
      case Some(id) => Ok(PutOn(p, id, a))
      case None => Ok(PutAside(p, a))
  }

  /** The plan for a list of assets in the order given. */
  function PlanAll(disks: seq<Disk>, pins: map<int, int>, assets: seq<Asset>): (r: Result<Plan, KeyError>)
    requires DistinctIds(disks)
    ensures r.Ok? ==> r.value.Covers(disks)
  {
    if assets == [] then Ok(Empty(disks))
    else
      match PlanAll(disks, pins, assets[..|assets| - 1])
      case Err(e) => Err(e)
      case Ok(p) => Place(disks, pins, p, assets[|assets| - 1])
  }

  function SumSizes(assets: seq<Asset>): int {
    if assets == [] then 0 else SumSizes(assets[..|assets| - 1]) + assets[|assets| - 1].sizeGb
  }

  function Summary(p: Plan, d: Disk): DiskPlanningSummary
    requires d.id in p.free && d.id in p.planned
  {
    DiskPlanningSummary(
      d.id, p.free[d.id], SumSizes(p.planned[d.id]), |p.planned[d.id]|, |p.unplanned|, p.unplanned == [])
  }

  /** How one asset changes a plan: put aside, or put on one disk with room for it. */
  ghost predicate StepsTo(disks: seq<Disk>, pins: map<int, int>, p: Plan, a: Asset, q: Plan, target: Option<int>) {
    match target
    case None =>
      q == PutAside(p, a)
      && forall d :: d in disks && a.id !in pins && d.id in p.free ==> p.free[d.id] < a.sizeGb
    case Some(id) =>
      && id in p.free && id in p.planned && p.free[id] >= a.sizeGb && q == PutOn(p, id, a)
      && (a.id in pins ==> pins[a.id] == id)
  }

  lemma LastStep(disks: seq<Disk>, pins: map<int, int>, assets: seq<Asset>) returns (p: Plan, q: Plan,
                 target: Option<int>)
    requires DistinctIds(disks) && assets != [] && PlanAll(disks, pins, assets).Ok?
    ensures PlanAll(disks, pins, assets[..|assets| - 1]) == Ok(p) && PlanAll(disks, pins, assets) == Ok(q)
    ensures p.Covers(disks) && q.Covers(disks)
    ensures StepsTo(disks, pins, p, assets[|assets| - 1], q, target)
  {
    var a := assets[|assets| - 1];
    p, q := PlanAll(disks, pins, assets[..|assets| - 1]).value, PlanAll(disks, pins, assets).value;
    target := if a.id in pins
              then (if pins[a.id] in p.free && p.free[pins[a.id]] >= a.sizeGb then Some(pins[a.id]) else None)
              else FirstFit(disks, p.free, a.sizeGb);
  }

  lemma SumPut(assets: seq<Asset>, a: Asset)
    ensures SumSizes(assets + [a]) == SumSizes(assets) + a.sizeGb
  {
    assert (assets + [a])[..|assets|] == assets;
  }

  // ----- the three service functions -----

  /** One turn of the planning loop. */
  method PlaceAsset(disks: seq<Disk>, pins: map<int, int>, p: Plan, vm: Asset) returns (r: Result<Plan, KeyError>)
    requires p.Covers(disks)
    ensures r == Place(disks, pins, p, vm)
  {
    var free, planned, unplanned := p.free, p.planned, p.unplanned;
    if vm.id in pins {
      var id := pins[vm.id];
      var remaining := if id in free then free[id] else -1;
      if remaining >= vm.sizeGb {
        if id !in free {
          return Err(KeyError);
        }
        free := free[id := free[id] - vm.sizeGb];
        planned := planned[id := planned[id] + [vm]];
      } else {
        unplanned := unplanned + [vm];
      }
      return Ok(Plan(free, planned, unplanned));
    }
    for i := 0 to |disks|
      invariant forall j :: 0 <= j < i ==> free[disks[j].id] < vm.sizeGb
    {
      var id := disks[i].id;
      if free[id] >= vm.sizeGb {
        FirstFitAt(disks, free, vm.sizeGb, i);
        return Ok(Plan(free[id := free[id] - vm.sizeGb], planned[id := planned[id] + [vm]], unplanned));
      }
    }
    NoFit(disks, free, vm.sizeGb);
    return Ok(Plan(free, planned, unplanned + [vm]));
  }

  /** One turn of the separate loop that tracks capacities and leftovers only. */
  method PlaceCapacity(disks: seq<Disk>, pins: map<int, int>, ghost p: Plan, capacity: map<int, int>, vm: Asset)
    returns (r: Result<(map<int, int>, bool), KeyError>)
    requires p.Covers(disks) && capacity == p.free
    ensures match Place(disks, pins, p, vm)
            case Err(e) => r == Err(e)
            case Ok(q) => r.Ok? && r.value.0 == q.free && q.unplanned == p.unplanned + (if r.value.1 then [] else [vm])
  {
    if vm.id in pins {
      var id := pins[vm.id];
      var remaining := if id in capacity then capacity[id] else -1;
      if remaining >= vm.sizeGb {
        if id !in capacity {
          return Err(KeyError);
        }
        return Ok((capacity[id := capacity[id] - vm.sizeGb], true));
      }
      return Ok((capacity, false));
    }
    var i := 0;
    while i < |disks|
      invariant 0 <= i <= |disks|
      invariant forall j :: 0 <= j < i ==> capacity[disks[j].id] < vm.sizeGb
    {
      var id := disks[i].id;
      if capacity[id] >= vm.sizeGb {
        FirstFitAt(disks, capacity, vm.sizeGb, i);
        return Ok((capacity[id := capacity[id] - vm.sizeGb], true));
      }
      i := i + 1;
    }
    NoFit(disks, capacity, vm.sizeGb);
    return Ok((capacity, false));
  }

  method PlanLoop(disks: seq<Disk>, pins: map<int, int>, order: seq<Asset>) returns (r: Result<Plan, KeyError>)
    requires DistinctIds(disks)
    ensures r == PlanAll(disks, pins, order)
  {
    hide AvailableCapacity, Ids;
    var plan := Empty(disks);
    for n := 0 to |order|
      invariant PlanAll(disks, pins, order[..n]) == Ok(plan)
    {
      assert order[..n + 1][..n] == order[..n];
      var next := PlaceAsset(disks, pins, plan, order[n]);
      if next.Err? {
        ErrorIsFinal(disks, pins, order, n + 1);
        return next;
      }
      plan := next.value;
    }
    assert order[..|order|] == order;
    return Ok(plan);
  }

  method GetDiskPlanning(disks: seq<Disk>, inventory: seq<Asset>, assignments: seq<Assignment>)
    returns (r: Result<seq<DiskPlanningSummary>, KeyError>)
    requires DistinctIds(disks)
    ensures var trusted := Trusted(disks);
            match PlanAll(trusted, Pins(assignments), SortDescending(Plannable(inventory)))
            case Err(e) => r == Err(e)
            case Ok(p) => r.Ok? && |r.value| == |trusted|
                          && forall i :: 0 <= i < |trusted| ==> r.value[i] == Summary(p, trusted[i])
  {
    var trusted := Trusted(disks);
    var planned := PlanLoop(trusted, Pins(assignments), SortDescending(Plannable(inventory)));
    if planned.Err? {
      return Err(planned.error);
    }
    var summaries := Summarize(planned.value, trusted);
    hide PlanAll;
    return Ok(summaries);
  }

  method Summarize(plan: Plan, disks: seq<Disk>) returns (summaries: seq<DiskPlanningSummary>)
    requires plan.Covers(disks)
    ensures |summaries| == |disks| && forall i :: 0 <= i < |disks| ==> summaries[i] == Summary(plan, disks[i])
  {
    summaries := [];
    for i := 0 to |disks|
      invariant |summaries| == i
      invariant forall j :: 0 <= j < i ==> summaries[j] == Summary(plan, disks[j])
    {
      var id := disks[i].id;
      summaries := summaries + [DiskPlanningSummary(
        id, plan.free[id], SumSizes(plan.planned[id]), |plan.planned[id]|, |plan.unplanned|, |plan.unplanned| == 0)];
    }
  }

  method CapacityLoop(disks: seq<Disk>, pins: map<int, int>, order: seq<Asset>) returns (r: Result<seq<Asset>,
                      KeyError>)
    requires DistinctIds(disks)
    ensures match PlanAll(disks, pins, order)
            case Err(e) => r == Err(e)
            case Ok(p) => r == Ok(p.unplanned)
  {
    hide AvailableCapacity, Ids;
    var capacity, unplanned := Empty(disks).free, [];
    ghost var plan := Empty(disks);
    for n := 0 to |order|
      invariant PlanAll(disks, pins, order[..n]) == Ok(plan)
      invariant capacity == plan.free && unplanned == plan.unplanned
    {
      assert order[..n + 1][..n] == order[..n];
      var next := PlaceCapacity(disks, pins, plan, capacity, order[n]);
      assert PlanAll(disks, pins, order[..n + 1]) == Place(disks, pins, plan, order[n]);
      hide Place;
      if next.Err? {
        ErrorIsFinal(disks, pins, order, n + 1);
        return Err(next.error);
      }
      plan := Place(disks, pins, plan, order[n]).value;
      capacity := next.value.0;
      if !next.value.1 {
        unplanned := unplanned + [order[n]];
      }
    }
    assert order[..|order|] == order;
    return Ok(unplanned);
  }

  /** The separate loop that keeps no plan, only capacities. */
  method GetUnplannedAssets(disks: seq<Disk>, inventory: seq<Asset>, assignments: seq<Assignment>)
    returns (r: Result<seq<Asset>, KeyError>)
    requires DistinctIds(disks)
    ensures match PlanAll(Trusted(disks), Pins(assignments), SortDescending(Plannable(inventory)))
            case Err(e) => r == Err(e)
            case Ok(p) => r == Ok(p.unplanned)
  {
    r := CapacityLoop(Trusted(disks), Pins(assignments), SortDescending(Plannable(inventory)));
  }

  /** The share of the assets that is planned, before it is rounded for display. */
  function Coverage(planned: int, plannable: nat): real {
    if plannable == 0 then 0.0 else planned as real / plannable as real * 100.0
  }

  method GetPlanningOverview(disks: seq<Disk>, inventory: seq<Asset>, assignments: seq<Assignment>)
    returns (r: Result<PlanningOverview, KeyError>)
    requires DistinctIds(disks)
    ensures var trusted := Trusted(disks);
            match PlanAll(trusted, Pins(assignments), SortDescending(Plannable(inventory)))
            case Err(e) => r == Err(e)
            case Ok(p) => r == Ok(PlanningOverview(|trusted|, |Plannable(inventory)|, CountPlanned(p, trusted),
                                                   Coverage(CountPlanned(p, trusted), |Plannable(inventory)|)))
  {
    var unplanned := GetUnplannedAssets(disks, inventory, assignments);
    match unplanned {
      case Err(e) => return Err(e);
      case Ok(assets) =>
        ghost var trusted, order := Trusted(disks), SortDescending(Plannable(inventory));
        SortIsStable(Plannable(inventory), 0);
        assert |multiset(order)| == |multiset(Plannable(inventory))|;
        Conservation(trusted, Pins(assignments), order);
        var plannable := Plannable(inventory);
        var planned := |plannable| - |assets|;
        return Ok(PlanningOverview(|Trusted(disks)|, |plannable|, planned, Coverage(planned, |plannable|)));
    }
  }

  // ----- lemmas -----

  lemma {:induction false} ErrorIsFinal(disks: seq<Disk>, pins: map<int, int>, assets: seq<Asset>, n: nat)
    requires DistinctIds(disks) && n <= |assets| && PlanAll(disks, pins, assets[..n]).Err?
    ensures PlanAll(disks, pins, assets) == Err(KeyError)
    decreases |assets|
  {
    if n == |assets| {
      assert assets[..n] == assets;
      match PlanAll(disks, pins, assets).error {
        case KeyError =>
      }
    } else {
      assert assets[..|assets| - 1][..n] == assets[..n];
      ErrorIsFinal(disks, pins, assets[..|assets| - 1], n);
      match PlanAll(disks, pins, assets[..|assets| - 1]).error {
        case KeyError =>
      }
    }
  }

  lemma {:induction false} FirstFitAt(disks: seq<Disk>, free: map<int, int>, size: int, i: nat)
    requires forall d :: d in disks ==> d.id in free
    requires i < |disks| && free[disks[i].id] >= size
    requires forall j :: 0 <= j < i ==> free[disks[j].id] < size
    ensures FirstFit(disks, free, size) == Some(disks[i].id)
  {
    if i > 0 {
      assert free[disks[0].id] < size;
      FirstFitAt(disks[1..], free, size, i - 1);
    }
  }

  /** Planning fails exactly when some asset of negative size is pinned to a disk that is not trusted. */
  lemma {:induction false} FailsIff(disks: seq<Disk>, pins: map<int, int>, assets: seq<Asset>)
    requires DistinctIds(disks)
    ensures PlanAll(disks, pins, assets).Err? <==>
            exists a :: a in assets && a.sizeGb < 0 && a.id in pins && forall d :: d in disks ==> d.id != pins[a.id]
  {
    if assets != [] {
      var before, last := assets[..|assets| - 1], assets[|assets| - 1];
      FailsIff(disks, pins, before);
      assert assets == before + [last];
      if PlanAll(disks, pins, before).Ok? {
        var p := PlanAll(disks, pins, before).value;
        if last.id in pins && pins[last.id] in p.free {
          IdsOnly(disks, pins[last.id]);
        }
      }
    }
  }

  /** Sizes are never negative where assets come from, so planning an inventory never fails. */
  lemma InventoriesPlan(disks: seq<Disk>, pins: map<int, int>, assets: seq<Asset>)
    requires DistinctIds(disks) && NonNegative(assets)
    ensures PlanAll(disks, pins, assets).Ok?
  {
    FailsIff(disks, pins, assets);
  }

  ghost function Flat(planned: map<int, seq<Asset>>, disks: seq<Disk>): multiset<Asset>
    requires forall d :: d in disks ==> d.id in planned
  {
    if disks == [] then multiset{}
    else Flat(planned, disks[..|disks| - 1]) + multiset(planned[disks[|disks| - 1].id])
  }

  ghost function CountPlanned(p: Plan, disks: seq<Disk>): int
    requires forall d :: d in disks ==> d.id in p.planned
  {
    |Flat(p.planned, disks)|
  }

  lemma {:induction false} FlatElsewhere(planned: map<int, seq<Asset>>, disks: seq<Disk>, id: int, assets: seq<Asset>)
    requires forall d :: d in disks ==> d.id in planned && d.id != id
    ensures Flat(planned[id := assets], disks) == Flat(planned, disks)
  {
    if disks != [] {
      FlatElsewhere(planned, disks[..|disks| - 1], id, assets);
    }
  }

  lemma {:induction false} FlatPut(planned: map<int, seq<Asset>>, disks: seq<Disk>, id: int, a: Asset)
    requires DistinctIds(disks) && forall d :: d in disks ==> d.id in planned
    requires id in planned
    ensures Flat(planned[id := planned[id] + [a]], disks)
         == Flat(planned, disks) + (if exists d :: d in disks && d.id == id then multiset{a} else multiset{})
  {
    if exists d :: d in disks && d.id == id {
      var before, last := disks[..|disks| - 1], disks[|disks| - 1];
      assert disks == before + [last];
      if last.id == id {
        FlatElsewhere(planned, before, id, planned[id] + [a]);
      } else {
        FlatPut(planned, before, id, a);
      }
    } else {
      FlatElsewhere(planned, disks, id, planned[id] + [a]);
    }
  }

  lemma {:induction false} FlatEmpty(planned: map<int, seq<Asset>>, disks: seq<Disk>)
    requires forall d :: d in disks ==> d.id in planned && planned[d.id] == []
    ensures Flat(planned, disks) == multiset{}
  {
    if disks != [] {
      FlatEmpty(planned, disks[..|disks| - 1]);
    }
  }

  lemma {:induction false} CapacityConserved(disks: seq<Disk>, pins: map<int, int>, assets: seq<Asset>)
    requires DistinctIds(disks) && PlanAll(disks, pins, assets).Ok?
    ensures var p := PlanAll(disks, pins, assets).value;
            forall d :: d in disks ==>
              p.free[d.id] >= 0 && SumSizes(p.planned[d.id]) + p.free[d.id] == AvailableCapacity(d)
  {
    if assets != [] {
      var p, q, target := LastStep(disks, pins, assets);
      CapacityConserved(disks, pins, assets[..|assets| - 1]);
      hide PlanAll, AvailableCapacity, Ids;
      if target.Some? {
        SumPut(p.planned[target.value], assets[|assets| - 1]);
      }
      hide SumSizes;
    }
  }

  lemma {:induction false} AssetsConserved(disks: seq<Disk>, pins: map<int, int>, assets: seq<Asset>)
    requires DistinctIds(disks) && PlanAll(disks, pins, assets).Ok?
    ensures var p := PlanAll(disks, pins, assets).value;
            Flat(p.planned, disks) + multiset(p.unplanned) == multiset(assets)
  {
    if assets == [] {
      FlatEmpty(Empty(disks).planned, disks);
    } else {
      var before, a := assets[..|assets| - 1], assets[|assets| - 1];
      var p, q, target := LastStep(disks, pins, assets);
      assert multiset(assets) == multiset(before) + multiset{a} by {
        hide *;
        assert assets == before + [a];
      }
      hide PlanAll, StepsTo, Flat, DistinctIds;
      AssetsConserved(disks, pins, before);
      FlatStep(disks, pins, p, a, q, target);
    }
  }

  lemma FlatStep(disks: seq<Disk>, pins: map<int, int>, p: Plan, a: Asset, q: Plan, target: Option<int>)
    requires DistinctIds(disks) && p.Covers(disks) && q.Covers(disks) && StepsTo(disks, pins, p, a, q, target)
    ensures Flat(q.planned, disks) + multiset(q.unplanned)
         == Flat(p.planned, disks) + multiset(p.unplanned) + multiset{a}
  {
    if target.Some? {
      IdsOnly(disks, target.value);
      FlatPut(p.planned, disks, target.value, a);
    }
    hide Flat, Ids;
  }

  lemma {:induction false} PinsRespected(disks: seq<Disk>, pins: map<int, int>, assets: seq<Asset>)
    requires DistinctIds(disks) && PlanAll(disks, pins, assets).Ok?
    ensures var p := PlanAll(disks, pins, assets).value;
            forall d, a :: d in disks && a in p.planned[d.id] && a.id in pins ==> pins[a.id] == d.id
  {
    if assets != [] {
      var p, q, target := LastStep(disks, pins, assets);
      PinsRespected(disks, pins, assets[..|assets| - 1]);
      hide PlanAll, AvailableCapacity, Ids;
    }
  }

  /**
   Whatever the sizes and pins: each disk's planned sizes and remaining capacity add up to its
   available capacity, the remainder is never negative, every asset is on one disk or unplanned,
   and a pinned asset is on no disk but its own.
   */
  lemma {:induction false} Conservation(disks: seq<Disk>, pins: map<int, int>, assets: seq<Asset>)
    requires DistinctIds(disks) && PlanAll(disks, pins, assets).Ok?
    ensures var p := PlanAll(disks, pins, assets).value;
            && (forall d :: d in disks ==>
                  p.free[d.id] >= 0 && SumSizes(p.planned[d.id]) + p.free[d.id] == AvailableCapacity(d))
            && Flat(p.planned, disks) + multiset(p.unplanned) == multiset(assets)
            && (forall d, a :: d in disks && a in p.planned[d.id] && a.id in pins ==> pins[a.id] == d.id)
  {
    CapacityConserved(disks, pins, assets);
    AssetsConserved(disks, pins, assets);
    PinsRespected(disks, pins, assets);
    hide *;
  }

  /** The coverage lies between none and all, and is full exactly when nothing is left over. */
  lemma CoverageIsFullIff(disks: seq<Disk>, pins: map<int, int>, assets: seq<Asset>)
    requires DistinctIds(disks) && PlanAll(disks, pins, assets).Ok? && assets != []
    ensures var p := PlanAll(disks, pins, assets).value;
            var coverage := Coverage(CountPlanned(p, disks), |assets|);
            0.0 <= coverage <= 100.0 && (coverage == 100.0 <==> p.unplanned == [])
  {
    var p := PlanAll(disks, pins, assets).value;
    Conservation(disks, pins, assets);
    assert CountPlanned(p, disks) + |p.unplanned| == |assets| by {
      assert |Flat(p.planned, disks) + multiset(p.unplanned)| == |multiset(assets)|;
    }
    hide PlanAll;
    ShareOfWhole(CountPlanned(p, disks) as real, |assets| as real);
  }

  lemma ShareOfWhole(part: real, whole: real)
    requires 0.0 <= part <= whole && whole > 0.0
    ensures 0.0 <= part / whole * 100.0 <= 100.0 && (part / whole * 100.0 == 100.0 <==> part == whole)
  {
    assert part == part / whole * whole;
  }

  /** The plan on the earlier disks is the same and the leftovers are some of the old ones. */
  ghost predicate Extends(disks: seq<Disk>, p: Plan, q: Plan)
    requires p.Covers(disks) && p.free.Keys <= q.free.Keys && q.free.Keys == q.planned.Keys
  {
    && (forall id :: id in p.free ==> q.free[id] == p.free[id] && q.planned[id] == p.planned[id])
    && multiset(q.unplanned) <= multiset(p.unplanned)
  }

  lemma AppendingStep(disks: seq<Disk>, extra: Disk, pins: map<int, int>, p: Plan, q: Plan, a: Asset)
    requires p.Covers(disks) && q.Covers(disks + [extra]) && extra.id !in p.free
    requires p.free.Keys <= q.free.Keys && Extends(disks, p, q)
    requires q.free.Keys == p.free.Keys + {extra.id}
    requires Place(disks, pins, p, a).Ok?
    ensures Place(disks + [extra], pins, q, a).Ok?
    ensures var p', q' := Place(disks, pins, p, a).value, Place(disks + [extra], pins, q, a).value;
            p'.free.Keys <= q'.free.Keys && Extends(disks, p', q')
  {
    hide AvailableCapacity, Ids;
    var id: Option<int>, id': Option<int>;
    if a.id in pins {
      var room := pins[a.id] in p.free && p.free[pins[a.id]] >= a.sizeGb;
      var room' := pins[a.id] in q.free && q.free[pins[a.id]] >= a.sizeGb;
      id, id' := if room then Some(pins[a.id]) else None, if room' then Some(pins[a.id]) else None;
    } else {
      AppendingFits(disks, extra, p.free, q.free, a.sizeGb);
      id, id' := FirstFit(disks, p.free, a.sizeGb), FirstFit(disks + [extra], q.free, a.sizeGb);
    }
    hide FirstFit;
    assert Place(disks, pins, p, a).value == if id.Some? then PutOn(p, id.value, a) else PutAside(p, a);
    assert Place(disks + [extra], pins, q, a).value == if id'.Some? then PutOn(q, id'.value, a) else PutAside(q, a);
    hide Place;
    AppendingPut(disks, extra, p, q, a, id, id');
  }

  lemma AppendingPut(disks: seq<Disk>, extra: Disk, p: Plan, q: Plan, a: Asset, id: Option<int>, id': Option<int>)
    requires p.Covers(disks) && extra.id !in p.free && q.free.Keys == q.planned.Keys == p.free.Keys + {extra.id}
    requires Extends(disks, p, q)
    requires id.Some? ==> id.value in p.free && id' == id
    requires id.None? ==> id' == None || id' == Some(extra.id)
    ensures var p' := if id.Some? then PutOn(p, id.value, a) else PutAside(p, a);
            var q' := if id'.Some? then PutOn(q, id'.value, a) else PutAside(q, a);
            && p'.Covers(disks) && p'.free.Keys <= q'.free.Keys && q'.free.Keys == q'.planned.Keys
            && Extends(disks, p', q')
  {
    hide Ids, AvailableCapacity;
  }

  lemma AppendingFits(disks: seq<Disk>, extra: Disk, free: map<int, int>, more: map<int, int>, size: int)
    requires forall d :: d in disks ==> d.id in free && d.id in more && free[d.id] == more[d.id]
    requires extra.id in more
    ensures FirstFit(disks + [extra], more, size)
         == if FirstFit(disks, free, size).Some? then FirstFit(disks, free, size)
            else if more[extra.id] >= size then Some(extra.id) else None
  {
    var all := disks + [extra];
    match FirstFit(disks, free, size) {
      case Some(id) =>
        var i := FirstFitIsFirst(disks, free, size);
        forall j | 0 <= j < i ensures more[all[j].id] < size { assert all[j] == disks[j]; }
        FirstFitAt(all, more, size, i);
      case None =>
        forall j | 0 <= j < |disks| ensures more[all[j].id] < size { assert all[j] == disks[j]; }
        if more[extra.id] >= size {
          FirstFitAt(all, more, size, |disks|);
        } else {
          NoFit(all, more, size);
        }
    }
  }

  /** Appending one disk to the scan order changes nothing on the earlier ones and only shrinks the rest. */
  lemma {:induction false} AppendingADisk(disks: seq<Disk>, extra: Disk, pins: map<int, int>, assets: seq<Asset>)
    requires DistinctIds(disks + [extra]) && DistinctIds(disks) && PlanAll(disks, pins, assets).Ok?
    ensures PlanAll(disks + [extra], pins, assets).Ok?
    ensures var p, q := PlanAll(disks, pins, assets).value, PlanAll(disks + [extra], pins, assets).value;
            p.free.Keys <= q.free.Keys && Extends(disks, p, q)
  {
    var more := disks + [extra];
    assert more[..|disks|] == disks;
    forall i | 0 <= i < |disks| ensures disks[i].id != extra.id {
      assert more[i] == disks[i] && more[|disks|] == extra;
    }
    if extra.id in Ids(disks) {
      IdsOnly(disks, extra.id);
    }
    if assets == [] {
      EmptyExtends(disks, extra);
    } else {
      var before, a := assets[..|assets| - 1], assets[|assets| - 1];
      AppendingADisk(disks, extra, pins, before);
      AppendingStep(disks, extra, pins, PlanAll(disks, pins, before).value, PlanAll(more, pins, before).value, a);
      hide Place, Ids, AvailableCapacity;
    }
  }

  lemma EmptyExtends(disks: seq<Disk>, extra: Disk)
    requires DistinctIds(disks) && DistinctIds(disks + [extra]) && extra.id !in Ids(disks)
    ensures Empty(disks).free.Keys <= Empty(disks + [extra]).free.Keys
    ensures Extends(disks, Empty(disks), Empty(disks + [extra]))
  {
    assert (disks + [extra])[..|disks|] == disks;
  }

  ghost predicate NonNegative(assets: seq<Asset>) {
    forall a :: a in assets ==> a.sizeGb >= 0
  }

  lemma {:induction false} SumCovers(assets: seq<Asset>, size: int)
    requires forall a :: a in assets ==> a.sizeGb >= size
    requires size >= 0
    ensures SumSizes(assets) >= 0
    ensures assets != [] ==> SumSizes(assets) >= size
  {
    if assets != [] {
      SumCovers(assets[..|assets| - 1], size);
    }
  }

  lemma {:induction false} PlannedComesFromAssets(disks: seq<Disk>, pins: map<int, int>, assets: seq<Asset>)
    requires DistinctIds(disks) && PlanAll(disks, pins, assets).Ok?
    ensures var p := PlanAll(disks, pins, assets).value;
            && (forall d, a :: d in disks && a in p.planned[d.id] ==> a in assets)
            && (forall a :: a in p.unplanned ==> a in assets)
  {
    if assets != [] {
      var before, a := assets[..|assets| - 1], assets[|assets| - 1];
      var p, q, target := LastStep(disks, pins, assets);
      hide PlanAll;
      PlannedComesFromAssets(disks, pins, before);
      assert assets == before + [a];
    }
  }

  /**
   First-fit decreasing never wastes much: when an unpinned asset of size s is left over, every disk
   has less than s free, and every disk that could have held it is more than half full.
   */
  lemma {:induction false} LeftoverMeansHalfFull(disks: seq<Disk>, pins: map<int, int>, assets: seq<Asset>)
    requires DistinctIds(disks) && PlanAll(disks, pins, assets).Ok?
    requires Descending(assets) && NonNegative(assets)
    ensures var p := PlanAll(disks, pins, assets).value;
            forall d, a :: d in disks && a in p.unplanned && a.id !in pins ==>
              p.free[d.id] < a.sizeGb
              && (AvailableCapacity(d) >= a.sizeGb ==> 2 * SumSizes(p.planned[d.id]) > AvailableCapacity(d))
  {
    if assets != [] {
      var before, x := assets[..|assets| - 1], assets[|assets| - 1];
      LeftoverMeansHalfFull(disks, pins, before);
      CapacityConserved(disks, pins, before);
      CapacityConserved(disks, pins, assets);
      PlannedComesFromAssets(disks, pins, before);
      var p, q, target := LastStep(disks, pins, assets);
      assert forall b :: b in before ==> b.sizeGb >= x.sizeGb;
      assert x in assets;
      hide PlanAll, SumSizes, Ids, AvailableCapacity, Descending;
      forall d, a | d in disks && a in q.unplanned && a.id !in pins
        ensures q.free[d.id] < a.sizeGb
        ensures AvailableCapacity(d) >= a.sizeGb ==> 2 * SumSizes(q.planned[d.id]) > AvailableCapacity(d)
      {
        HalfFullStep(disks, pins, p, x, q, target, d, a);
      }
    }
  }

  lemma HalfFullStep(disks: seq<Disk>, pins: map<int, int>, p: Plan, x: Asset, q: Plan, target: Option<int>, d: Disk,
                     a: Asset)
    requires p.Covers(disks) && q.Covers(disks) && StepsTo(disks, pins, p, x, q, target)
    requires d in disks && a in q.unplanned && a.id !in pins && x.sizeGb >= 0
    requires SumSizes(p.planned[d.id]) + p.free[d.id] == AvailableCapacity(d)
    requires SumSizes(q.planned[d.id]) + q.free[d.id] == AvailableCapacity(d)
    requires forall b :: b in p.planned[d.id] ==> b.sizeGb >= x.sizeGb
    requires a in p.unplanned ==>
      p.free[d.id] < a.sizeGb
      && (AvailableCapacity(d) >= a.sizeGb ==> 2 * SumSizes(p.planned[d.id]) > AvailableCapacity(d))
    ensures q.free[d.id] < a.sizeGb
    ensures AvailableCapacity(d) >= a.sizeGb ==> 2 * SumSizes(q.planned[d.id]) > AvailableCapacity(d)
  {
    assert q.free[d.id] <= p.free[d.id];
    if a !in p.unplanned {
      assert a == x && target.None?;
      SumCovers(p.planned[d.id], x.sizeGb);
      SumEmpty();
    }
  }

  lemma SumEmpty()
    ensures SumSizes([]) == 0
  {
  }

  function TotalAvailable(disks: seq<Disk>): int {
    if disks == [] then 0 else TotalAvailable(disks[..|disks| - 1]) + AvailableCapacity(disks[|disks| - 1])
  }

  ghost function TotalPlanned(p: Plan, disks: seq<Disk>): int
    requires forall d :: d in disks ==> d.id in p.planned
  {
    if disks == [] then 0
    else TotalPlanned(p, disks[..|disks| - 1]) + SumSizes(p.planned[disks[|disks| - 1].id])
  }

  lemma {:induction false} TotalPut(p: Plan, disks: seq<Disk>, id: int, a: Asset)
    requires DistinctIds(disks) && id in p.free && p.free.Keys == p.planned.Keys
    requires forall d :: d in disks ==> d.id in p.planned
    ensures TotalPlanned(PutOn(p, id, a), disks)
         == TotalPlanned(p, disks) + (if exists d :: d in disks && d.id == id then a.sizeGb else 0)
  {
    if disks != [] {
      var before, last := disks[..|disks| - 1], disks[|disks| - 1];
      TotalPut(p, before, id, a);
      assert disks == before + [last];
      if last.id == id {
        assert forall d :: d in before ==> d.id != id;
        assert (p.planned[id] + [a])[..|p.planned[id]|] == p.planned[id];
      }
    }
  }

  lemma {:induction false} TotalEmpty(p: Plan, disks: seq<Disk>)
    requires forall d :: d in disks ==> d.id in p.planned && p.planned[d.id] == []
    ensures TotalPlanned(p, disks) == 0
  {
    if disks != [] {
      TotalEmpty(p, disks[..|disks| - 1]);
    }
  }

  lemma {:induction false} TotalsAddUp(disks: seq<Disk>, pins: map<int, int>, assets: seq<Asset>)
    requires DistinctIds(disks) && PlanAll(disks, pins, assets).Ok?
    ensures var p := PlanAll(disks, pins, assets).value;
            TotalPlanned(p, disks) + SumSizes(p.unplanned) == SumSizes(assets)
  {
    if assets == [] {
      TotalEmpty(Empty(disks), disks);
    } else {
      var before, a := assets[..|assets| - 1], assets[|assets| - 1];
      TotalsAddUp(disks, pins, before);
      var p, q, target := LastStep(disks, pins, assets);
      hide PlanAll, TotalPlanned;
      if target.Some? {
        IdsOnly(disks, target.value);
        TotalPut(p, disks, target.value, a);
      } else {
        SumPut(p.unplanned, a);
        TotalSame(p, q, disks);
      }
    }
  }

  lemma {:induction false} TotalSame(p: Plan, q: Plan, disks: seq<Disk>)
    requires forall d :: d in disks ==> d.id in p.planned
    requires p.planned == q.planned
    ensures TotalPlanned(p, disks) == TotalPlanned(q, disks)
  {
    if disks != [] {
      TotalSame(p, q, disks[..|disks| - 1]);
    }
  }

  lemma {:induction false} HalfFullTotals(p: Plan, disks: seq<Disk>)
    requires forall d :: d in disks ==> d.id in p.planned && 2 * SumSizes(p.planned[d.id]) > AvailableCapacity(d)
    ensures 2 * TotalPlanned(p, disks) >= TotalAvailable(disks) + |disks|
  {
    if disks != [] {
      HalfFullTotals(p, disks[..|disks| - 1]);
    }
  }

  /** An unpinned asset stays unplanned although every disk could hold the largest one: all disks are over half full. */
  lemma LeftoverFillsAll(disks: seq<Disk>, pins: map<int, int>, assets: seq<Asset>)
    requires DistinctIds(disks) && Descending(assets) && NonNegative(assets) && PlanAll(disks, pins, assets).Ok?
    requires forall a :: a in assets ==> a.id !in pins
    requires forall d, a :: d in disks && a in assets ==> a.sizeGb <= AvailableCapacity(d)
    requires PlanAll(disks, pins, assets).value.unplanned != []
    ensures var p := PlanAll(disks, pins, assets).value;
            forall d :: d in disks ==> d.id in p.planned && 2 * SumSizes(p.planned[d.id]) > AvailableCapacity(d)
  {
    var p := PlanAll(disks, pins, assets).value;
    PlannedComesFromAssets(disks, pins, assets);
    LeftoverMeansHalfFull(disks, pins, assets);
    hide PlanAll, DistinctIds, Descending, NonNegative, SumSizes, AvailableCapacity;
    assert p.unplanned[0] in p.unplanned;
  }

  lemma LeftoverOverflows(disks: seq<Disk>, pins: map<int, int>, assets: seq<Asset>)
    requires DistinctIds(disks) && disks != [] && NonNegative(assets) && PlanAll(disks, pins, assets).Ok?
    requires var p := PlanAll(disks, pins, assets).value;
             forall d :: d in disks ==> d.id in p.planned && 2 * SumSizes(p.planned[d.id]) > AvailableCapacity(d)
    ensures 2 * SumSizes(assets) > TotalAvailable(disks)
  {
    var p := PlanAll(disks, pins, assets).value;
    HalfFullTotals(p, disks);
    TotalsAddUp(disks, pins, assets);
    PlannedComesFromAssets(disks, pins, assets);
    hide PlanAll, DistinctIds, SumSizes, TotalPlanned, TotalAvailable, AvailableCapacity;
    SumCovers(p.unplanned, 0);
  }

  /** With no pins and a disk for the largest asset, anything up to half the total capacity fits. */
  lemma HalfTheCapacityFits(disks: seq<Disk>, pins: map<int, int>, assets: seq<Asset>)
    requires DistinctIds(disks) && disks != [] && Descending(assets) && NonNegative(assets)
    requires forall a :: a in assets ==> a.id !in pins
    requires forall d, a :: d in disks && a in assets ==> a.sizeGb <= AvailableCapacity(d)
    requires 2 * SumSizes(assets) <= TotalAvailable(disks)
    ensures PlanAll(disks, pins, assets).Ok? && PlanAll(disks, pins, assets).value.unplanned == []
  {
    FailsIff(disks, pins, assets);
    hide PlanAll, DistinctIds, SumSizes, TotalAvailable, AvailableCapacity, Descending;
    if PlanAll(disks, pins, assets).value.unplanned != [] {
      LeftoverFillsAll(disks, pins, assets);
      LeftoverOverflows(disks, pins, assets);
    }
  }

  // ----- what the answers mean -----

  /** An asset counts exactly if it is enabled and not ignored. */
  lemma {:induction false} PlannableExact(inventory: seq<Asset>, a: Asset)
    ensures multiset(Plannable(inventory))[a] == if a.enabled && !a.ignored then multiset(inventory)[a] else 0
  {
    if inventory != [] {
      PlannableExact(inventory[1..], a);
      assert inventory == [inventory[0]] + inventory[1..];
    }
  }

  lemma Concatenated<T>(a: seq<T>, b: seq<T>, c: seq<T>)
    ensures a + (b + c) == (a + b) + c
  {
  }

  lemma TrustedOne(disk: Disk)
    ensures Trusted([disk]) == if disk.trusted then [disk] else []
  {
    hide DistinctIds;
    assert [disk][1..] == [] && Trusted([]) == [];
  }

  /** The trusted disks of a list keep its order: those of two lists in a row are the ones of each. */
  lemma {:induction false} TrustedInOrder(a: seq<Disk>, b: seq<Disk>)
    ensures Trusted(a + b) == Trusted(a) + Trusted(b)
  {
    hide DistinctIds;
    if a == [] {
      assert a + b == b;
    } else {
      TrustedInOrder(a[1..], b);
      assert (a + b)[0] == a[0] && (a + b)[1..] == a[1..] + b;
      var head: seq<Disk> := if a[0].trusted then [a[0]] else [];
      assert Trusted(a + b) == head + Trusted(a[1..] + b) && Trusted(a) == head + Trusted(a[1..]);
      Concatenated(head, Trusted(a[1..]), Trusted(b));
      hide Trusted;
    }
  }

  /** Assignment `i` is the last one that pins the asset. */
  ghost predicate LastPin(assignments: seq<Assignment>, vm: int, i: nat) {
    && i < |assignments| && assignments[i].pinned && assignments[i].vmId == vm
    && forall j :: i < j < |assignments| && assignments[j].pinned ==> assignments[j].vmId != vm
  }

  /** An asset is pinned to a disk exactly if the last assignment that pins it says so. */
  lemma {:induction false} PinsExact(assignments: seq<Assignment>, vm: int)
    ensures vm in Pins(assignments) <==> exists i: nat :: LastPin(assignments, vm, i)
    ensures forall i: nat :: LastPin(assignments, vm, i) ==>
              vm in Pins(assignments) && Pins(assignments)[vm] == assignments[i].diskId
  {
    if assignments != [] {
      var before, last := assignments[..|assignments| - 1], assignments[|assignments| - 1];
      PinsExact(before, vm);
      var n := |before|;
      if last.pinned && last.vmId == vm {
        assert LastPin(assignments, vm, n);
        forall i: nat | LastPin(assignments, vm, i) ensures i == n {
          assert assignments[n].pinned;
        }
      } else {
        forall i: nat ensures LastPin(assignments, vm, i) <==> LastPin(before, vm, i) {
          assert i < n ==> assignments[i] == before[i];
          assert assignments[n] == last;
          if LastPin(before, vm, i) {
            forall j | i < j < |assignments| && assignments[j].pinned ensures assignments[j].vmId != vm {
              assert j < n ==> assignments[j] == before[j];
            }
          }
        }
      }
    }
  }

  /** The disk in scan order that takes the asset: the first with room. */
  predicate TakesFirst(disks: seq<Disk>, free: map<int, int>, size: int, i: nat)
    requires forall d :: d in disks ==> d.id in free
  {
    i < |disks| && free[disks[i].id] >= size && forall j :: 0 <= j < i ==> free[disks[j].id] < size
  }

  /**
   Where one asset goes: a pinned one on its disk if that is planned and has room, an unpinned one on the first disk
   with room, and any other on none; the answer is an error exactly for a negative size pinned elsewhere.
   */
  lemma PlaceAnswer(disks: seq<Disk>, pins: map<int, int>, p: Plan, a: Asset)
    requires p.Covers(disks)
    ensures var r := Place(disks, pins, p, a);
            if a.id in pins then
              if exists d :: d in disks && d.id == pins[a.id]
              then r == Ok(if p.free[pins[a.id]] >= a.sizeGb then PutOn(p, pins[a.id], a) else PutAside(p, a))
              else r == if a.sizeGb < 0 then Err(KeyError) else Ok(PutAside(p, a))
            else if i: nat :| TakesFirst(disks, p.free, a.sizeGb, i) then r == Ok(PutOn(p, disks[i].id, a))
            else r == Ok(PutAside(p, a))
  {
    if a.id in pins {
      if pins[a.id] in p.free {
        IdsOnly(disks, pins[a.id]);
      }
    } else {
      if FirstFit(disks, p.free, a.sizeGb).Some? {
        var i := FirstFitIsFirst(disks, p.free, a.sizeGb);
        assert TakesFirst(disks, p.free, a.sizeGb, i);
      }
      forall i: nat | TakesFirst(disks, p.free, a.sizeGb, i)
        ensures FirstFit(disks, p.free, a.sizeGb) == Some(disks[i].id)
      {
        FirstFitAt(disks, p.free, a.sizeGb, i);
      }
    }
    hide FirstFit, Ids;
  }

  /** What can be planned on a disk: its usable capacity, or the whole if none is given, without the reserve. */
  function Room(disk: Disk): int {
    var all := match disk.usableCapacityGb case Some(usable) => usable case None => disk.capacityGb;
    if all <= disk.reservedCapacityGb then 0 else all - disk.reservedCapacityGb
  }

  /** The summary of a disk on which these assets were placed. */
  ghost predicate Tells(summary: DiskPlanningSummary, disk: Disk, placed: seq<Asset>, left: seq<Asset>) {
    && summary.diskId == disk.id
    && summary.plannedCount == |placed| && summary.totalPlannedGb == SumSizes(placed)
    && 0 <= summary.availableCapacityGb == Room(disk) - SumSizes(placed)
    && summary.unplannedCount == |left| && (summary.fitsAll <==> left == [])
  }

  lemma SummaryTells(p: Plan, disk: Disk)
    requires disk.id in p.free && disk.id in p.planned && p.free[disk.id] >= 0
    requires SumSizes(p.planned[disk.id]) + p.free[disk.id] == AvailableCapacity(disk)
    ensures Tells(Summary(p, disk), disk, p.planned[disk.id], p.unplanned)
  {
    hide SumSizes;
  }

  ghost function Together(groups: seq<seq<Asset>>): multiset<Asset> {
    if groups == [] then multiset{} else Together(groups[..|groups| - 1]) + multiset(groups[|groups| - 1])
  }

  lemma {:induction false} FlatIsTogether(planned: map<int, seq<Asset>>, disks: seq<Disk>, groups: seq<seq<Asset>>)
    requires |groups| == |disks|
    requires forall i :: 0 <= i < |disks| ==> disks[i].id in planned && groups[i] == planned[disks[i].id]
    ensures Flat(planned, disks) == Together(groups)
  {
    if disks != [] {
      FlatIsTogether(planned, disks[..|disks| - 1], groups[..|groups| - 1]);
    }
  }

  /**
   The summaries tell, disk by disk, what was placed and what room is left; together with what is left over, the
   placed assets are exactly those that are enabled and not ignored.
   */
  lemma SummariesTell(disks: seq<Disk>, inventory: seq<Asset>, assignments: seq<Assignment>,
                      summaries: seq<DiskPlanningSummary>) returns (placed: seq<seq<Asset>>, left: seq<Asset>)
    requires DistinctIds(disks)
    requires PlanAll(Trusted(disks), Pins(assignments), SortDescending(Plannable(inventory))).Ok?
    requires var trusted := Trusted(disks);
             var p := PlanAll(trusted, Pins(assignments), SortDescending(Plannable(inventory))).value;
             && |summaries| == |trusted|
             && forall i :: 0 <= i < |trusted| ==> summaries[i] == Summary(p, trusted[i])
    ensures var trusted := Trusted(disks);
            && |placed| == |trusted|
            && (forall i :: 0 <= i < |trusted| ==> Tells(summaries[i], trusted[i], placed[i], left))
            && Together(placed) + multiset(left) == multiset(Plannable(inventory))
  {
    var trusted, order := Trusted(disks), SortDescending(Plannable(inventory));
    var p := PlanAll(trusted, Pins(assignments), order).value;
    Conservation(trusted, Pins(assignments), order);
    SortIsStable(Plannable(inventory), 0);
    hide PlanAll, SortDescending, Plannable, Pins, SumSizes, DistinctIds, Trusted, Ids, AvailableCapacity, Tells;
    placed, left := seq(|trusted|, i requires 0 <= i < |trusted| => p.planned[trusted[i].id]), p.unplanned;
    FlatIsTogether(p.planned, trusted, placed);
    forall i | 0 <= i < |trusted| ensures Tells(summaries[i], trusted[i], placed[i], left) {
      assert trusted[i] in trusted;
      SummaryTells(p, trusted[i]);
    }
  }

  /** The coverage is the planned share in percent, and none if there is nothing to plan. */
  lemma CoverageIsShare(planned: int, plannable: nat)
    ensures plannable > 0 ==> Coverage(planned, plannable) * plannable as real == planned as real * 100.0
    ensures plannable == 0 ==> Coverage(planned, plannable) == 0.0
  {
  }
}
