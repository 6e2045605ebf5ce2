/**
 * The server record, the payloads that create and update it, and the pure
 * record-level effects of creating, partially updating and renewing a server.
 */
module Records {
  import opened Common
  import opened Tables

  /**
   * The free-form `specs` column. Each key is optional: `None` stands for a key
   * that is absent (or holds null).
   */
  datatype Specs = Specs(
    vcpu: Option<int>,
    ramGb: Option<int>,
    storageGb: Option<int>,
    bandwidthGb: Option<int>,
    os: Option<string>,
    addonIds: Option<seq<int>>,
    serviceIds: Option<seq<int>>)

  /** One row of the servers table; `Option` marks a nullable column. */
  datatype Server = Server(
    id: nat,
    userId: int,
    orderId: Option<int>,
    serverName: string,
    hostname: Option<string>,
    ipAddress: Option<string>,
    serverStatus: string,
    serverType: Option<string>,
    vcpu: Option<int>,
    ramGb: int,
    storageGb: int,
    bandwidthGb: Option<int>,
    operatingSystem: string,
    planId: Option<int>,
    planName: Option<string>,
    monthlyCost: Option<int>,
    billingCycle: Option<string>,
    createdDate: Option<Instant>,
    expiryDate: Option<Instant>,
    specs: Option<Specs>,
    notes: Option<string>,
    createdAt: Instant,
    updatedAt: Option<Instant>)

  /** A hosting plan of the catalog, as far as creation reads it. */
  datatype HostingPlan = HostingPlan(id: int, name: string)

  /** The creation payload. */
  datatype ServerCreate = ServerCreate(
    serverName: string,
    hostname: Option<string>,
    serverType: Option<string>,
    operatingSystem: string,
    vcpu: Option<int>,
    ramGb: int,
    storageGb: int,
    bandwidthGb: Option<int>,
    planId: int,
    monthlyCost: Option<int>,
    billingCycle: Option<string>,
    addonIds: Option<seq<int>>,
    serviceIds: Option<seq<int>>)

  /** The specs document stored at creation; missing id lists become empty lists. */
  function CreationSpecs(data: ServerCreate): Specs {
    Specs(data.vcpu, Some(data.ramGb), Some(data.storageGb), data.bandwidthGb,
          Some(data.operatingSystem), Some(data.addonIds.GetOr([])), Some(data.serviceIds.GetOr([])))
  }

  /**
   * The row `create_user_server` inserts: id `id` from the table's sequence, the
   * plan's name, status active, expiry `now` plus the cycle's offset. The database
   * fills `created_at` and `created_date` with the insertion instant.
   */
  function NewServer(id: nat, userId: int, data: ServerCreate, orderId: Option<int>,
                     now: Instant, plan: HostingPlan): (s: Server)
    ensures s.id == id && s.userId == userId && s.serverStatus == "active"
    ensures s.expiryDate.Some? && s.expiryDate.value >= now + Days(30)
  {
    Server(id, userId, orderId, data.serverName, data.hostname, None, "active", data.serverType,
           data.vcpu, data.ramGb, data.storageGb, data.bandwidthGb, data.operatingSystem,
           Some(data.planId), Some(plan.name), data.monthlyCost, Some(CycleOrDefault(data.billingCycle)),
           Some(now), Some(now + Days(ExpiryOffsetDays(data.billingCycle))),
           Some(CreationSpecs(data)), None, now, None)
  }

  /** What a freshly created record holds. */
  lemma NewServerFields(id: nat, userId: int, data: ServerCreate, orderId: Option<int>,
                        now: Instant, plan: HostingPlan)
    ensures var s := NewServer(id, userId, data, orderId, now, plan);
      && s.id == id && s.userId == userId && s.orderId == orderId
      && s.serverStatus == "active" && KnownStatus(s.serverStatus)
      && s.planId == Some(data.planId) && s.planName == Some(plan.name)
      && s.billingCycle.Some? && s.billingCycle.value != ""
      && (data.billingCycle.None? || data.billingCycle == Some("") ==> s.billingCycle == Some("monthly"))
      && (data.billingCycle.Some? && data.billingCycle.value != "" ==> s.billingCycle == data.billingCycle)
      && s.expiryDate.Some? && s.expiryDate.value - now == Days(ExpiryOffsetDays(data.billingCycle))
      && s.expiryDate.value - now >= Days(30)
      && s.specs.Some? && s.specs.value.addonIds.Some? && s.specs.value.serviceIds.Some?
      && (data.addonIds.None? ==> s.specs.value.addonIds == Some([]))
      && (data.addonIds.Some? ==> s.specs.value.addonIds == data.addonIds)
      && (data.serviceIds.None? ==> s.specs.value.serviceIds == Some([]))
      && (data.serviceIds.Some? ==> s.specs.value.serviceIds == data.serviceIds)
      && s.serverName == data.serverName && s.hostname == data.hostname && s.serverType == data.serverType
      && s.vcpu == data.vcpu && s.ramGb == data.ramGb && s.storageGb == data.storageGb
      && s.bandwidthGb == data.bandwidthGb && s.operatingSystem == data.operatingSystem
      && s.monthlyCost == data.monthlyCost && s.ipAddress.None? && s.notes.None?
      && s.createdAt == now
  {
  }

  /** A creation with an annual cycle expires 365 days after `now`. */
  lemma NewServerAnnualExpiry(id: nat, userId: int, data: ServerCreate, orderId: Option<int>,
                              now: Instant, plan: HostingPlan)
    requires data.billingCycle == Some("annually")
    ensures NewServer(id, userId, data, orderId, now, plan).expiryDate == Some(now + Days(365))
  {
    assert Lower("annually") == "annually";
  }

  // ---------------------------------------------------------------------
  // Partial update: `for field, value in update_data.items(): setattr(...)`
  // ---------------------------------------------------------------------

  /** The columns an update payload may set. Identity, owner and the timestamps are not among them. */
  datatype Field =
    | OrderIdField | ServerNameField | HostnameField | IpAddressField | ServerStatusField
    | ServerTypeField | VcpuField | RamGbField | StorageGbField | BandwidthGbField
    | OperatingSystemField | PlanIdField | PlanNameField | MonthlyCostField | BillingCycleField
    | CreatedDateField | ExpiryDateField | SpecsField | NotesField

  /** One `(field, value)` item of `update_data`: the column and the value `setattr` writes. */
  datatype Assignment =
    | SetOrderId(orderId: Option<int>)
    | SetServerName(serverName: string)
    | SetHostname(hostname: Option<string>)
    | SetIpAddress(ipAddress: Option<string>)
    | SetServerStatus(serverStatus: string)
    | SetServerType(serverType: Option<string>)
    | SetVcpu(vcpu: Option<int>)
    | SetRamGb(ramGb: int)
    | SetStorageGb(storageGb: int)
    | SetBandwidthGb(bandwidthGb: Option<int>)
    | SetOperatingSystem(operatingSystem: string)
    | SetPlanId(planId: Option<int>)
    | SetPlanName(planName: Option<string>)
    | SetMonthlyCost(monthlyCost: Option<int>)
    | SetBillingCycle(billingCycle: Option<string>)
    | SetCreatedDate(createdDate: Option<Instant>)
    | SetExpiryDate(expiryDate: Option<Instant>)
    | SetSpecs(specs: Option<Specs>)
    | SetNotes(notes: Option<string>)

  /** The column an item writes. */
  function FieldOf(a: Assignment): Field {
    match a
    case SetOrderId(_) => OrderIdField
    case SetServerName(_) => ServerNameField
    case SetHostname(_) => HostnameField
    case SetIpAddress(_) => IpAddressField
    case SetServerStatus(_) => ServerStatusField
    case SetServerType(_) => ServerTypeField
    case SetVcpu(_) => VcpuField
    case SetRamGb(_) => RamGbField
    case SetStorageGb(_) => StorageGbField
    case SetBandwidthGb(_) => BandwidthGbField
    case SetOperatingSystem(_) => OperatingSystemField
    case SetPlanId(_) => PlanIdField
    case SetPlanName(_) => PlanNameField
    case SetMonthlyCost(_) => MonthlyCostField
    case SetBillingCycle(_) => BillingCycleField
    case SetCreatedDate(_) => CreatedDateField
    case SetExpiryDate(_) => ExpiryDateField
    case SetSpecs(_) => SpecsField
    case SetNotes(_) => NotesField
  }

  /** The current value of column `f` of `s`, written as the item that would set it. */
  function Project(s: Server, f: Field): (a: Assignment)
    ensures FieldOf(a) == f
  {
    match f
    case OrderIdField => SetOrderId(s.orderId)
    case ServerNameField => SetServerName(s.serverName)
    case HostnameField => SetHostname(s.hostname)
    case IpAddressField => SetIpAddress(s.ipAddress)
    case ServerStatusField => SetServerStatus(s.serverStatus)
    case ServerTypeField => SetServerType(s.serverType)
    case VcpuField => SetVcpu(s.vcpu)
    case RamGbField => SetRamGb(s.ramGb)
    case StorageGbField => SetStorageGb(s.storageGb)
    case BandwidthGbField => SetBandwidthGb(s.bandwidthGb)
    case OperatingSystemField => SetOperatingSystem(s.operatingSystem)
    case PlanIdField => SetPlanId(s.planId)
    case PlanNameField => SetPlanName(s.planName)
    case MonthlyCostField => SetMonthlyCost(s.monthlyCost)
    case BillingCycleField => SetBillingCycle(s.billingCycle)
    case CreatedDateField => SetCreatedDate(s.createdDate)
    case ExpiryDateField => SetExpiryDate(s.expiryDate)
    case SpecsField => SetSpecs(s.specs)
    case NotesField => SetNotes(s.notes)
  }

  /** `setattr(server, field, value)` for one item. */
  function SetAttr(s: Server, a: Assignment): (r: Server)
    ensures SameIdentity(r, s)
    ensures FieldOf(a) != ServerStatusField ==> r.serverStatus == s.serverStatus
  {
    match a
    case SetOrderId(v) => s.(orderId := v)
    case SetServerName(v) => s.(serverName := v)
    case SetHostname(v) => s.(hostname := v)
    case SetIpAddress(v) => s.(ipAddress := v)
    case SetServerStatus(v) => s.(serverStatus := v)
    case SetServerType(v) => s.(serverType := v)
    case SetVcpu(v) => s.(vcpu := v)
    case SetRamGb(v) => s.(ramGb := v)
    case SetStorageGb(v) => s.(storageGb := v)
    case SetBandwidthGb(v) => s.(bandwidthGb := v)
    case SetOperatingSystem(v) => s.(operatingSystem := v)
    case SetPlanId(v) => s.(planId := v)
    case SetPlanName(v) => s.(planName := v)
    case SetMonthlyCost(v) => s.(monthlyCost := v)
    case SetBillingCycle(v) => s.(billingCycle := v)
    case SetCreatedDate(v) => s.(createdDate := v)
    case SetExpiryDate(v) => s.(expiryDate := v)
    case SetSpecs(v) => s.(specs := v)
    case SetNotes(v) => s.(notes := v)
  }

  /** The columns no payload can reach. */
  predicate SameIdentity(s: Server, t: Server) {
    s.id == t.id && s.userId == t.userId && s.createdAt == t.createdAt && s.updatedAt == t.updatedAt
  }

  /** The items of `p` written in order, each by `SetAttr`. */
  function ApplyUpdate(s: Server, p: seq<Assignment>): (r: Server)
    ensures SameIdentity(r, s)
    decreases |p|
  {
    if p == [] then s else SetAttr(ApplyUpdate(s, p[..|p| - 1]), p[|p| - 1])
  }

  /** The last item of `p` that writes column `f`, if any. */
  function LastFor(p: seq<Assignment>, f: Field): (r: Option<Assignment>)
    decreases |p|
  {
    if p == [] then None
    else if FieldOf(p[|p| - 1]) == f then Some(p[|p| - 1])
    else LastFor(p[..|p| - 1], f)
  }

  /** A dictionary has each key once: no column is written twice. */
  predicate DistinctFields(p: seq<Assignment>) {
    forall i, j :: 0 <= i < j < |p| ==> FieldOf(p[i]) != FieldOf(p[j])
  }

  /** One `setattr` writes its own column and leaves every other column and the identity alone. */
  lemma SetAttrFrame(s: Server, a: Assignment, f: Field)
    ensures SameIdentity(SetAttr(s, a), s)
    ensures Project(SetAttr(s, a), f) == if f == FieldOf(a) then a else Project(s, f)
  {
  }

  /** Agreeing views fix the order, naming, network, status and sizing columns. */
  lemma ProjectDeterminesHosting(s: Server, t: Server)
    requires forall f :: Project(s, f) == Project(t, f)
    ensures s.orderId == t.orderId && s.serverName == t.serverName && s.hostname == t.hostname && s.ipAddress == t.ipAddress && s.serverStatus == t.serverStatus && s.serverType == t.serverType && s.vcpu == t.vcpu && s.ramGb == t.ramGb && s.storageGb == t.storageGb && s.bandwidthGb == t.bandwidthGb
  {
    assert Project(s, OrderIdField) == Project(t, OrderIdField);
    assert Project(s, ServerNameField) == Project(t, ServerNameField);
    assert Project(s, HostnameField) == Project(t, HostnameField);
    assert Project(s, IpAddressField) == Project(t, IpAddressField);
    assert Project(s, ServerStatusField) == Project(t, ServerStatusField);
    assert Project(s, ServerTypeField) == Project(t, ServerTypeField);
    assert Project(s, VcpuField) == Project(t, VcpuField);
    assert Project(s, RamGbField) == Project(t, RamGbField);
    assert Project(s, StorageGbField) == Project(t, StorageGbField);
    assert Project(s, BandwidthGbField) == Project(t, BandwidthGbField);
  }

  /** Agreeing views fix the OS, plan, billing, date, specs and notes columns. */
  lemma ProjectDeterminesBilling(s: Server, t: Server)
    requires forall f :: Project(s, f) == Project(t, f)
    ensures s.operatingSystem == t.operatingSystem && s.planId == t.planId && s.planName == t.planName && s.monthlyCost == t.monthlyCost && s.billingCycle == t.billingCycle && s.createdDate == t.createdDate && s.expiryDate == t.expiryDate && s.specs == t.specs && s.notes == t.notes
  {
    assert Project(s, OperatingSystemField) == Project(t, OperatingSystemField);
    assert Project(s, PlanIdField) == Project(t, PlanIdField);
    assert Project(s, PlanNameField) == Project(t, PlanNameField);
    assert Project(s, MonthlyCostField) == Project(t, MonthlyCostField);
    assert Project(s, BillingCycleField) == Project(t, BillingCycleField);
    assert Project(s, CreatedDateField) == Project(t, CreatedDateField);
    assert Project(s, ExpiryDateField) == Project(t, ExpiryDateField);
    assert Project(s, SpecsField) == Project(t, SpecsField);
    assert Project(s, NotesField) == Project(t, NotesField);
  }

  /** Two records that agree on the identity columns and on every settable column are equal. */
  lemma ProjectDetermines(s: Server, t: Server)
    requires SameIdentity(s, t)
    requires forall f :: Project(s, f) == Project(t, f)
    ensures s == t
  {
    ProjectDeterminesHosting(s, t);
    ProjectDeterminesBilling(s, t);
  }

  /** After a payload, each column holds the last value written to it, or its old value if none was. */
  lemma {:induction false} ApplyUpdateColumns(s: Server, p: seq<Assignment>, f: Field)
    ensures SameIdentity(ApplyUpdate(s, p), s)
    ensures Project(ApplyUpdate(s, p), f) == LastFor(p, f).GetOr(Project(s, f))
    decreases |p|
  {
    if p != [] {
      ApplyUpdateColumns(s, p[..|p| - 1], f);
      SetAttrFrame(ApplyUpdate(s, p[..|p| - 1]), p[|p| - 1], f);
    }
  }

  /** In a payload with distinct columns, the item for a column is the last (and only) one for it. */
  lemma {:induction false} LastForDistinct(p: seq<Assignment>, k: nat)
    requires DistinctFields(p) && k < |p|
    ensures LastFor(p, FieldOf(p[k])) == Some(p[k])
    decreases |p|
  {
    if k < |p| - 1 {
      assert FieldOf(p[k]) != FieldOf(p[|p| - 1]);
      assert p[..|p| - 1][k] == p[k];
      LastForDistinct(p[..|p| - 1], k);
    }
  }

  /** A column that no item names has no last item. */
  lemma {:induction false} LastForAbsent(p: seq<Assignment>, f: Field)
    requires forall i :: 0 <= i < |p| ==> FieldOf(p[i]) != f
    ensures LastFor(p, f) == None
    decreases |p|
  {
    if p != [] {
      LastForAbsent(p[..|p| - 1], f);
    }
  }

  /**
   * `update_data` writes the columns it names: with each column named once, a
   * named column takes the payload's value and the identity is untouched.
   */
  lemma UpdateSetsNamedColumns(s: Server, p: seq<Assignment>)
    requires DistinctFields(p)
    ensures SameIdentity(ApplyUpdate(s, p), s)
    ensures forall k :: 0 <= k < |p| ==> Project(ApplyUpdate(s, p), FieldOf(p[k])) == p[k]
  {
    ApplyUpdateColumns(s, p, ServerNameField);
    forall k | 0 <= k < |p|
      ensures Project(ApplyUpdate(s, p), FieldOf(p[k])) == p[k]
    {
      ApplyUpdateColumns(s, p, FieldOf(p[k]));
      LastForDistinct(p, k);
    }
  }

  /** `update_data` touches nothing else: a column the payload does not name keeps its value. */
  lemma UpdateKeepsOtherColumns(s: Server, p: seq<Assignment>, f: Field)
    requires forall k :: 0 <= k < |p| ==> FieldOf(p[k]) != f
    ensures Project(ApplyUpdate(s, p), f) == Project(s, f)
  {
    ApplyUpdateColumns(s, p, f);
    LastForAbsent(p, f);
  }

  /** A payload that sets no status keeps the record's status. */
  lemma UpdateKeepsStatus(s: Server, p: seq<Assignment>)
    requires forall k :: 0 <= k < |p| ==> FieldOf(p[k]) != ServerStatusField
    ensures ApplyUpdate(s, p).serverStatus == s.serverStatus
  {
    ApplyUpdateColumns(s, p, ServerStatusField);
    LastForAbsent(p, ServerStatusField);
  }

  // ---------------------------------------------------------------------
  // Renewal
  // ---------------------------------------------------------------------

  /** `renew_server`'s effect on a record: expiry (or `now` when unset) plus 30 days per month. */
  function Renewed(s: Server, months: int, now: Instant): (r: Server)
    ensures SameIdentity(r, s) && r.serverStatus == s.serverStatus
    ensures r.expiryDate.Some?
    ensures months >= 0 && s.expiryDate.Some? ==> r.expiryDate.value >= s.expiryDate.value
  {
    s.(expiryDate := Some(s.expiryDate.GetOr(now) + Days(30 * months)))
  }

  /** Renewal moves the expiry by exactly 30 days per month, from the old expiry or from `now`, and changes nothing else. */
  lemma RenewedExpiry(s: Server, months: int, now: Instant)
    ensures var r := Renewed(s, months, now);
      && r.expiryDate.Some?
      && (s.expiryDate.Some? ==> r.expiryDate.value - s.expiryDate.value == Days(30 * months))
      && (s.expiryDate.None? ==> r.expiryDate.value - now == Days(30 * months))
      && r == s.(expiryDate := r.expiryDate)
  {
  }

  /** Renewing for three months adds exactly 90 days to a set expiry. */
  lemma RenewThreeMonths(s: Server, now: Instant)
    requires s.expiryDate.Some?
    ensures Renewed(s, 3, now).expiryDate == Some(s.expiryDate.value + Days(90))
  {
  }

  /** Two renewals add up: `a` months then `b` months is `a + b` months, once an expiry is set. */
  lemma RenewedAdditive(s: Server, a: int, b: int, now: Instant, later: Instant)
    ensures Renewed(Renewed(s, a, now), b, later) == Renewed(s, a + b, now)
  {
    assert Days(30 * a) + Days(30 * b) == Days(30 * (a + b));
  }
}
