/**
 * What the user-facing reads return: a server row enriched with the addon and
 * service catalog entries named in its specs, with defaults for falsy columns,
 * and the short summary of the "recent servers" list.
 */
module Views {
  import opened Common
  import opened Tables
  import opened Records

  /** An addon or service catalog row, as far as `to_dict` exposes it here. */
  datatype CatalogItem = CatalogItem(id: int, name: string)

  /** `select(Item).where(Item.id.in_(ids))`: the catalog rows whose id is listed, in table order. */
  function Matching(table: seq<CatalogItem>, ids: seq<int>): (r: seq<CatalogItem>)
    ensures |r| <= |table|
    ensures forall i :: 0 <= i < |r| ==> r[i] in table && r[i].id in ids
    decreases |table|
  {
    if table == [] then []
    else Matching(table[..|table| - 1], ids)
         + (if table[|table| - 1].id in ids then [table[|table| - 1]] else [])
  }

  /** The lookup returns each matching catalog row and nothing else, never more rows than the table has. */
  lemma {:induction false} MatchingMembers(table: seq<CatalogItem>, ids: seq<int>)
    ensures |Matching(table, ids)| <= |table|
    ensures forall x :: x in Matching(table, ids) <==> x in table && x.id in ids
    decreases |table|
  {
    if table != [] {
      var init := table[..|table| - 1];
      MatchingMembers(init, ids);
      assert table == init + [table[|table| - 1]];
    }
  }

  /** An empty id list matches nothing. */
  lemma {:induction false} MatchingNoIds(table: seq<CatalogItem>)
    ensures Matching(table, []) == []
    decreases |table|
  {
    if table != [] {
      MatchingNoIds(table[..|table| - 1]);
    }
  }

  /**
   * `get_addons_from_ids` and `get_services_from_ids`: an empty id list returns
   * an empty list at once; otherwise the matching rows are appended one by one.
   */
  method FetchCatalogItems(table: seq<CatalogItem>, ids: seq<int>) returns (r: seq<CatalogItem>)
    ensures r == Matching(table, ids)
    ensures forall x :: x in r <==> x in table && x.id in ids
    ensures ids == [] ==> r == []
  {
    if ids == [] {
      MatchingNoIds(table);
      MatchingMembers(table, ids);
      return [];
    }
    r := [];
    for i := 0 to |table|
      invariant r == Matching(table[..i], ids)
    {
      assert table[..i + 1][..i] == table[..i];
      if table[i].id in ids {
        r := r + [table[i]];
      }
    }
    assert table[..|table|] == table;
    MatchingMembers(table, ids);
  }

  /** The addon ids a row's specs name: `specs.get('addon_ids', [])`, nothing when specs is null. */
  function SpecAddonIds(s: Server): seq<int> {
    if s.specs.None? then [] else s.specs.value.addonIds.GetOr([])
  }

  /** The service ids a row's specs name. */
  function SpecServiceIds(s: Server): seq<int> {
    if s.specs.None? then [] else s.specs.value.serviceIds.GetOr([])
  }

  /** A server row as the user views return it, with the addon and service details attached. */
  datatype EnrichedServer = EnrichedServer(
    id: nat,
    userId: int,
    orderId: Option<int>,
    serverName: string,
    hostname: string,
    ipAddress: Option<string>,
    serverStatus: string,
    serverType: string,
    vcpu: int,
    ramGb: int,
    storageGb: int,
    bandwidthGb: int,
    operatingSystem: string,
    planId: int,
    planName: string,
    monthlyCost: int,
    billingCycle: string,
    createdDate: Option<Instant>,
    expiryDate: Option<Instant>,
    specs: Option<Specs>,
    notes: Option<string>,
    createdAt: Instant,
    updatedAt: Option<Instant>,
    addons: seq<CatalogItem>,
    services: seq<CatalogItem>)

  /** The `server_dict` literal: every `x or default` column filled in. */
  function Enrich(s: Server, addons: seq<CatalogItem>, services: seq<CatalogItem>): (e: EnrichedServer)
    ensures e.id == s.id && e.userId == s.userId && e.addons == addons && e.services == services
    ensures e.serverType != "" && e.vcpu != 0 && e.bandwidthGb != 0 && e.billingCycle != ""
  {
    EnrichedServer(
      s.id, s.userId, s.orderId, s.serverName, StrOr(s.hostname, ""), s.ipAddress, s.serverStatus,
      StrOr(s.serverType, "vps"), IntOr(s.vcpu, 1), s.ramGb, s.storageGb, IntOr(s.bandwidthGb, 1000),
      s.operatingSystem, IntOr(s.planId, 0), StrOr(s.planName, ""), IntOr(s.monthlyCost, 0),
      StrOr(s.billingCycle, "monthly"), s.createdDate, s.expiryDate, s.specs, s.notes,
      s.createdAt, s.updatedAt, addons, services)
  }

  /** The addon details fetched for a row: only when specs is set and names at least one id. */
  function AddonDetails(s: Server, addonTable: seq<CatalogItem>): seq<CatalogItem> {
    if s.specs.None? then []
    else var ids := s.specs.value.addonIds.GetOr([]);
         if ids == [] then [] else Matching(addonTable, ids)
  }

  /** The service details fetched for a row. */
  function ServiceDetails(s: Server, serviceTable: seq<CatalogItem>): seq<CatalogItem> {
    if s.specs.None? then []
    else var ids := s.specs.value.serviceIds.GetOr([]);
         if ids == [] then [] else Matching(serviceTable, ids)
  }

  /** The enriched dict of one row against the two catalogs. */
  function View(s: Server, addonTable: seq<CatalogItem>, serviceTable: seq<CatalogItem>): EnrichedServer {
    Enrich(s, AddonDetails(s, addonTable), ServiceDetails(s, serviceTable))
  }

  /** The guards before each lookup change no result: the details are the lookup of the ids the specs name. */
  lemma DetailsAreLookups(s: Server, addonTable: seq<CatalogItem>, serviceTable: seq<CatalogItem>)
    ensures AddonDetails(s, addonTable) == Matching(addonTable, SpecAddonIds(s))
    ensures ServiceDetails(s, serviceTable) == Matching(serviceTable, SpecServiceIds(s))
  {
    MatchingNoIds(addonTable);
    MatchingNoIds(serviceTable);
  }

  /**
   * Default filling, column by column: a falsy stored value (null, 0 or "")
   * shows as the default, a truthy one as stored; identity, status and
   * timestamps pass through.
   */
  lemma EnrichDefaults(s: Server, addons: seq<CatalogItem>, services: seq<CatalogItem>)
    ensures var e := Enrich(s, addons, services);
      && e.id == s.id && e.userId == s.userId && e.orderId == s.orderId && e.serverName == s.serverName
      && e.ipAddress == s.ipAddress && e.serverStatus == s.serverStatus
      && e.ramGb == s.ramGb && e.storageGb == s.storageGb && e.operatingSystem == s.operatingSystem
      && e.createdDate == s.createdDate && e.expiryDate == s.expiryDate && e.specs == s.specs
      && e.notes == s.notes && e.createdAt == s.createdAt && e.updatedAt == s.updatedAt
      && (s.hostname.None? ==> e.hostname == "")
      && (s.hostname.Some? ==> e.hostname == s.hostname.value)
      && (s.serverType.None? || s.serverType == Some("") ==> e.serverType == "vps")
      && (s.serverType.Some? && s.serverType.value != "" ==> e.serverType == s.serverType.value)
      && (s.vcpu.None? || s.vcpu == Some(0) ==> e.vcpu == 1)
      && (s.vcpu.Some? && s.vcpu.value != 0 ==> e.vcpu == s.vcpu.value)
      && (s.bandwidthGb.None? || s.bandwidthGb == Some(0) ==> e.bandwidthGb == 1000)
      && (s.bandwidthGb.Some? && s.bandwidthGb.value != 0 ==> e.bandwidthGb == s.bandwidthGb.value)
      && (s.planId.None? || s.planId == Some(0) ==> e.planId == 0)
      && (s.planId.Some? ==> e.planId == s.planId.value)
      && (s.planName.None? ==> e.planName == "")
      && (s.planName.Some? ==> e.planName == s.planName.value)
      && (s.monthlyCost.None? || s.monthlyCost == Some(0) ==> e.monthlyCost == 0)
      && (s.monthlyCost.Some? ==> e.monthlyCost == s.monthlyCost.value)
      && (s.billingCycle.None? || s.billingCycle == Some("") ==> e.billingCycle == "monthly")
      && (s.billingCycle.Some? && s.billingCycle.value != "" ==> e.billingCycle == s.billingCycle.value)
      && e.addons == addons && e.services == services
  {
  }

  /**
   * The view of a freshly created server: active, the plan's name, the requested
   * cycle (monthly by default), and the catalog entries of the requested ids.
   */
  lemma CreatedServerView(id: nat, userId: int, data: ServerCreate, orderId: Option<int>, now: Instant,
                          plan: HostingPlan, addonTable: seq<CatalogItem>, serviceTable: seq<CatalogItem>)
    ensures var e := View(NewServer(id, userId, data, orderId, now, plan), addonTable, serviceTable);
      && e.serverStatus == "active"
      && e.planName == plan.name
      && e.planId == IntOr(Some(data.planId), 0)
      && e.billingCycle == CycleOrDefault(data.billingCycle)
      && e.expiryDate == Some(now + Days(ExpiryOffsetDays(data.billingCycle)))
      && e.addons == Matching(addonTable, data.addonIds.GetOr([]))
      && e.services == Matching(serviceTable, data.serviceIds.GetOr([]))
  {
    var s := NewServer(id, userId, data, orderId, now, plan);
    DetailsAreLookups(s, addonTable, serviceTable);
  }

  /**
   * The body of the enrichment loop: look up the addon and service ids of a row
   * (only when specs is set and the list is non-empty) and build its dict.
   */
  method EnrichRow(row: Server, addonTable: seq<CatalogItem>, serviceTable: seq<CatalogItem>)
    returns (e: EnrichedServer)
    ensures e == View(row, addonTable, serviceTable)
    ensures e.addons == Matching(addonTable, SpecAddonIds(row))
    ensures e.services == Matching(serviceTable, SpecServiceIds(row))
  {
    var addonDetails: seq<CatalogItem> := [];
    var serviceDetails: seq<CatalogItem> := [];
    if row.specs.Some? {
      var addonIds := row.specs.value.addonIds.GetOr([]);
      var serviceIds := row.specs.value.serviceIds.GetOr([]);
      if addonIds != [] {
        addonDetails := FetchCatalogItems(addonTable, addonIds);
      }
      if serviceIds != [] {
        serviceDetails := FetchCatalogItems(serviceTable, serviceIds);
      }
    }
    e := Enrich(row, addonDetails, serviceDetails);
    DetailsAreLookups(row, addonTable, serviceTable);
  }

  /** The ids of a list of enriched rows. */
  function ViewIds(r: seq<EnrichedServer>): set<nat> {
    set i | 0 <= i < |r| :: r[i].id
  }

  /** One entry of `get_user_recent_servers`. */
  datatype RecentServer = RecentServer(
    id: nat,
    name: string,
    hostname: Option<string>,
    status: string,
    ip: Option<string>,
    plan: Option<string>)

  /** The summary dict of one row. */
  function Summary(s: Server): (r: RecentServer)
    ensures r.id == s.id && r.status == s.serverStatus
  {
    RecentServer(s.id, s.serverName, s.hostname, s.serverStatus, s.ipAddress, s.planName)
  }

  /** The ids of a list of summaries. */
  function RecentIds(r: seq<RecentServer>): set<nat> {
    set i | 0 <= i < |r| :: r[i].id
  }
}
