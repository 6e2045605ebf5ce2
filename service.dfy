/**
 * `ServerService` over an in-memory servers table: creation, partial update,
 * status actions, deletion and renewal (each unscoped and, where the service
 * has one, scoped to the owning user), and the read and statistics queries.
 */
module Service {
  import opened Common
  import opened Tables
  import opened Records
  import opened Views
  import opened Queries

  /** The one hard failure: the requested hosting plan does not exist. */
  datatype CreateError = PlanNotFound

  /** `ServerStats` without the average cost; bandwidth in tenths of a terabyte. */
  datatype ServerStats = ServerStats(
    totalServers: nat,
    activeServers: nat,
    stoppedServers: nat,
    provisioningServers: nat,
    totalBandwidthTenths: nat)

  /** The dict of `get_user_server_stats`; cost in the currency's smallest unit, bandwidth in tenths of a terabyte. */
  datatype UserServerStats = UserServerStats(
    totalServers: nat,
    activeServers: nat,
    totalMonthlyCost: int,
    bandwidthTenths: nat)

  /** The summary dicts of a list of rows, in order: one per row, naming the same servers. */
  function Summaries(top: seq<Server>): (r: seq<RecentServer>)
    ensures |r| == |top| && forall i :: 0 <= i < |r| ==> r[i] == Summary(top[i])
    ensures RecentIds(r) == IdsOf(top)
  {
    var r := seq(|top|, i requires 0 <= i < |top| => Summary(top[i]));
    assert RecentIds(r) == IdsOf(top) by {
      forall id | id in IdsOf(top) ensures id in RecentIds(r) {
        var i :| 0 <= i < |top| && top[i].id == id;
        assert r[i].id == id;
      }
    }
    r
  }

  /** What the recent-servers list promises, read off the summaries of the newest rows. */
  lemma SummariesOfNewest(top: seq<Server>, m: Table, userId: int, limit: nat)
    requires NewestRows(top, m, UserIds(m, userId), limit)
    ensures var r := Summaries(top);
      && |r| == (if limit < |UserIds(m, userId)| then limit else |UserIds(m, userId)|)
      && (forall i :: 0 <= i < |r| ==> r[i].id in m && m[r[i].id].userId == userId && r[i] == Summary(m[r[i].id]))
      && (forall i, j :: 0 <= i < j < |r| ==> r[i].id != r[j].id && m[r[i].id].createdAt >= m[r[j].id].createdAt)
      && (forall id :: id in UserIds(m, userId) && id !in RecentIds(r) ==>
            forall i :: 0 <= i < |r| ==> m[id].createdAt <= m[r[i].id].createdAt)
  {
    var r := Summaries(top);
    forall i | 0 <= i < |top| ensures top[i].id in UserIds(m, userId) {
      assert top[i].id in IdsOf(top);
    }
  }

  /** The servers table and its id sequence. */
  class ServerStore {
    var servers: Table
    var nextId: nat

    /** Rows are stored under their ids, and the sequence is past every id in use. */
    ghost predicate Valid()
      reads this
    {
      KeysMatch(servers) && forall id :: id in servers ==> id < nextId
    }

    constructor ()
      ensures Valid() && servers == map[] && nextId == 1
    {
      servers := map[];
      nextId := 1;
    }

    // -----------------------------------------------------------------
    // Reads
    // -----------------------------------------------------------------

    /** `get_server_by_id`. */
    function GetServerById(id: nat): (r: Option<Server>)
      reads this
      requires Valid()
      ensures r.Some? <==> id in servers
      ensures r.Some? ==> r.value == servers[id] && r.value.id == id
    {
      if id in servers then Some(servers[id]) else None
    }

    /** `get_user_active_servers`: exactly the user's active rows, each once. */
    method GetUserActiveServers(userId: int) returns (r: seq<Server>)
      requires Valid()
      ensures RowsFrom(r, servers, UserActiveIds(servers, userId))
      ensures forall i :: 0 <= i < |r| ==> r[i].userId == userId && r[i].serverStatus == "active"
    {
      r := RowsOf(servers, UserActiveIds(servers, userId));
      forall i | 0 <= i < |r| ensures r[i].userId == userId && r[i].serverStatus == "active" {
        assert r[i].id in IdsOf(r);
      }
    }

    /** `get_user_servers`: the enriched dict of each of the user's rows, each row once. */
    method GetUserServers(userId: int, addonTable: seq<CatalogItem>, serviceTable: seq<CatalogItem>)
      returns (r: seq<EnrichedServer>)
      requires Valid()
      ensures |r| == |UserIds(servers, userId)|
      ensures ViewIds(r) == UserIds(servers, userId)
      ensures forall i, j :: 0 <= i < j < |r| ==> r[i].id != r[j].id
      ensures forall i :: 0 <= i < |r| ==>
                r[i].id in servers && r[i].userId == userId && r[i] == View(servers[r[i].id], addonTable, serviceTable)
    {
      var rows := RowsOf(servers, UserIds(servers, userId));
      r := [];
      for i := 0 to |rows|
        invariant |r| == i
        invariant forall k :: 0 <= k < i ==> r[k] == View(rows[k], addonTable, serviceTable)
      {
        var e := EnrichRow(rows[i], addonTable, serviceTable);
        r := r + [e];
      }
      forall i | 0 <= i < |r| ensures r[i].id == rows[i].id && rows[i].userId == userId {
        assert rows[i].id in IdsOf(rows);
      }
      assert ViewIds(r) == IdsOf(rows) by {
        forall id | id in IdsOf(rows) ensures id in ViewIds(r) {
          var i :| 0 <= i < |rows| && rows[i].id == id;
          assert r[i].id == id;
        }
      }
    }

    /** `get_user_server`: the enriched dict of the row, when it exists and belongs to the user. */
    method GetUserServer(userId: int, id: nat, addonTable: seq<CatalogItem>, serviceTable: seq<CatalogItem>)
      returns (r: Option<EnrichedServer>)
      requires Valid()
      ensures r.Some? <==> OwnedBy(servers, userId, id)
      ensures r.Some? ==> r.value == View(servers[id], addonTable, serviceTable) && r.value.id == id
    {
      if !OwnedBy(servers, userId, id) {
        return None;
      }
      var e := EnrichRow(servers[id], addonTable, serviceTable);
      r := Some(e);
    }

    /**
     * `get_user_recent_servers`: at most `limit` of the user's rows, newest first,
     * and no row left out is newer than one returned.
     */
    method GetUserRecentServers(userId: int, limit: nat) returns (r: seq<RecentServer>)
      requires Valid()
      ensures |r| == if limit < |UserIds(servers, userId)| then limit else |UserIds(servers, userId)|
      ensures forall i :: 0 <= i < |r| ==>
                r[i].id in servers && servers[r[i].id].userId == userId && r[i] == Summary(servers[r[i].id])
      ensures forall i, j :: 0 <= i < j < |r| ==>
                r[i].id != r[j].id && servers[r[i].id].createdAt >= servers[r[j].id].createdAt
      ensures forall id :: id in UserIds(servers, userId) && id !in RecentIds(r) ==>
                forall i :: 0 <= i < |r| ==> servers[id].createdAt <= servers[r[i].id].createdAt
    {
      var ids := UserIds(servers, userId);
      var rows := RowsOf(servers, ids);
      var sorted := SortNewestFirst(rows);
      var k := if limit < |sorted| then limit else |sorted|;
      SortedPrefixIsNewest(rows, servers, ids, limit);
      SummariesOfNewest(sorted[..k], servers, userId, limit);
      r := Summaries(sorted[..k]);
    }

    /** `get_active_servers_count`. */
    function GetActiveServersCount(): (n: nat)
      reads this
      ensures n <= |servers|
      ensures n == 0 <==> forall id :: id in servers ==> servers[id].serverStatus != "active"
    {
      SubsetCard(StatusIds(servers, "active"), servers.Keys);
      assert forall id :: id in servers && servers[id].serverStatus == "active" ==> id in StatusIds(servers, "active");
      CountStatus(servers, "active")
    }

    /** `get_user_active_servers_count`. */
    function GetUserActiveServersCount(userId: int): (n: nat)
      reads this
      ensures n <= |UserIds(servers, userId)|
      ensures n <= GetActiveServersCount()
    {
      SubsetCard(UserActiveIds(servers, userId), UserIds(servers, userId));
      SubsetCard(UserActiveIds(servers, userId), StatusIds(servers, "active"));
      |UserActiveIds(servers, userId)|
    }

    /** `get_user_bandwidth_used`: 2.4 TB for each of the user's active servers. */
    method GetUserBandwidthUsed(userId: int) returns (total: nat)
      requires Valid()
      ensures total == BandwidthTenthsPerActiveServer * GetUserActiveServersCount(userId)
    {
      var active := GetUserActiveServers(userId);
      total := 0;
      for i := 0 to |active|
        invariant total == BandwidthTenthsPerActiveServer * i
      {
        total := total + BandwidthTenthsPerActiveServer;
      }
    }

    /**
     * `get_server_stats` without the average: the table size, the active,
     * stopped and provisioning counts, and 2.4 TB per active server.
     */
    function GetServerStats(): (r: ServerStats)
      reads this
      ensures r.totalServers == |servers|
      ensures r.activeServers + r.stoppedServers + r.provisioningServers <= r.totalServers
      ensures r.activeServers == GetActiveServersCount() == CountStatus(servers, "active")
      ensures r.stoppedServers == CountStatus(servers, "stopped")
      ensures r.provisioningServers == CountStatus(servers, "provisioning")
      ensures r.totalBandwidthTenths == BandwidthTenthsPerActiveServer * r.activeServers
    {
      StatusCountsBounded(servers);
      ServerStats(|servers|, CountStatus(servers, "active"), CountStatus(servers, "stopped"),
                  CountStatus(servers, "provisioning"),
                  BandwidthTenthsPerActiveServer * CountStatus(servers, "active"))
    }

    /** `get_user_server_stats`: the user's row count, active count, the summed cost of their active rows and their bandwidth. */
    method GetUserServerStats(userId: int) returns (r: UserServerStats)
      requires Valid()
      ensures r.totalServers == |UserIds(servers, userId)|
      ensures r.activeServers == GetUserActiveServersCount(userId)
      ensures r.totalMonthlyCost == CostOver(servers, UserActiveIds(servers, userId))
      ensures r.bandwidthTenths == BandwidthTenthsPerActiveServer * r.activeServers
    {
      var active := UserActiveIds(servers, userId);
      var cost := 0;
      var todo := active;
      while todo != {}
        invariant todo <= active
        invariant cost + CostOver(servers, todo) == CostOver(servers, active)
        decreases |todo|
      {
        var id :| id in todo;
        CostOverRemove(servers, todo, id);
        cost := cost + CostOf(servers[id]);
        todo := todo - {id};
      }
      var bandwidth := GetUserBandwidthUsed(userId);
      r := UserServerStats(|UserIds(servers, userId)|, |active|, cost, bandwidth);
    }

    /** `get_servers_expiring_soon`: exactly the active rows whose expiry is at most `days` days after `now`. */
    method GetServersExpiringSoon(now: Instant, days: int) returns (r: seq<Server>)
      requires Valid()
      ensures RowsFrom(r, servers, ExpiringIds(servers, now, days))
      ensures forall i :: 0 <= i < |r| ==> ExpiringSoon(r[i], now, days)
    {
      r := RowsOf(servers, ExpiringIds(servers, now, days));
      forall i | 0 <= i < |r| ensures ExpiringSoon(r[i], now, days) {
        assert r[i].id in IdsOf(r);
      }
    }

    // -----------------------------------------------------------------
    // Writes
    // -----------------------------------------------------------------

    /**
     * `create_user_server`: fails without touching the table when the plan is
     * not in the catalog; otherwise inserts the new active row under the next id.
     */
    method CreateUserServer(userId: int, data: ServerCreate, orderId: Option<int>, now: Instant,
                            plans: map<int, HostingPlan>)
      returns (r: Result<Server, CreateError>)
      requires Valid()
      modifies this
      ensures Valid()
      ensures data.planId !in plans ==>
                r == Failure(PlanNotFound) && servers == old(servers) && nextId == old(nextId)
      ensures data.planId in plans ==>
                && r == Success(NewServer(old(nextId), userId, data, orderId, now, plans[data.planId]))
                && old(nextId) !in old(servers)
                && servers == old(servers)[old(nextId) := r.value]
                && nextId == old(nextId) + 1
    {
      if data.planId !in plans {
        return Failure(PlanNotFound);
      }
      var plan := plans[data.planId];
      var row := NewServer(nextId, userId, data, orderId, now, plan);
      servers := servers[nextId := row];
      nextId := nextId + 1;
      r := Success(row);
    }

    /** `update_server`: the row takes the payload's items in order; `None` and no change when it is absent. */
    method UpdateServer(id: nat, payload: seq<Assignment>) returns (r: Option<Server>)
      requires Valid()
      modifies this
      ensures Valid() && nextId == old(nextId)
      ensures id !in old(servers) ==> r == None && servers == old(servers)
      ensures id in old(servers) ==>
                && servers == old(servers)[id := ApplyUpdate(old(servers)[id], payload)]
                && r == Some(servers[id])
    {
      if id !in servers {
        return None;
      }
      var row := servers[id];
      for i := 0 to |payload|
        invariant row == ApplyUpdate(servers[id], payload[..i])
      {
        assert payload[..i + 1][..i] == payload[..i];
        row := SetAttr(row, payload[i]);
      }
      assert payload[..|payload|] == payload;
      ApplyUpdateColumns(servers[id], payload, ServerNameField);
      servers := servers[id := row];
      r := Some(row);
    }

    /** `update_user_server`: as `update_server` when the row belongs to the user; otherwise `None` and no change. */
    method UpdateUserServer(userId: int, id: nat, payload: seq<Assignment>) returns (r: Option<Server>)
      requires Valid()
      modifies this
      ensures Valid() && nextId == old(nextId)
      ensures !OwnedBy(old(servers), userId, id) ==> r == None && servers == old(servers)
      ensures OwnedBy(old(servers), userId, id) ==>
                && servers == old(servers)[id := ApplyUpdate(old(servers)[id], payload)]
                && r == Some(servers[id])
    {
      if !OwnedBy(servers, userId, id) {
        return None;
      }
      r := UpdateServer(id, payload);
    }

    /** `perform_server_action`: a known action on an existing row sets its status from the table and succeeds. */
    method PerformServerAction(id: nat, action: string) returns (ok: bool)
      requires Valid()
      modifies this
      ensures Valid() && nextId == old(nextId)
      ensures ok <==> id in old(servers) && ActionStatus(action).Some?
      ensures servers == if ok then old(servers)[id := old(servers)[id].(serverStatus := ActionStatus(action).value)]
                         else old(servers)
    {
      if id !in servers {
        return false;
      }
      var newStatus := ActionStatus(action);
      if newStatus.None? {
        return false;
      }
      servers := servers[id := servers[id].(serverStatus := newStatus.value)];
      ok := true;
    }

    /** `perform_user_server_action`: as `perform_server_action` when the row belongs to the user; otherwise false and no change. */
    method PerformUserServerAction(userId: int, id: nat, action: string) returns (ok: bool)
      requires Valid()
      modifies this
      ensures Valid() && nextId == old(nextId)
      ensures ok <==> OwnedBy(old(servers), userId, id) && ActionStatus(action).Some?
      ensures servers == if ok then old(servers)[id := old(servers)[id].(serverStatus := ActionStatus(action).value)]
                         else old(servers)
    {
      if !OwnedBy(servers, userId, id) {
        return false;
      }
      ok := PerformServerAction(id, action);
    }

    /** `delete_server`: removes exactly the row with that id; false and no change when there is none. */
    method DeleteServer(id: nat) returns (ok: bool)
      requires Valid()
      modifies this
      ensures Valid() && nextId == old(nextId)
      ensures ok <==> id in old(servers)
      ensures servers == if ok then old(servers) - {id} else old(servers)
    {
      if id !in servers {
        return false;
      }
      servers := servers - {id};
      ok := true;
    }

    /** `delete_user_server`: removes the row only when it belongs to the user. */
    method DeleteUserServer(userId: int, id: nat) returns (ok: bool)
      requires Valid()
      modifies this
      ensures Valid() && nextId == old(nextId)
      ensures ok <==> OwnedBy(old(servers), userId, id)
      ensures servers == if ok then old(servers) - {id} else old(servers)
    {
      if !OwnedBy(servers, userId, id) {
        return false;
      }
      servers := servers - {id};
      ok := true;
    }

    /** `renew_server`: extends the row's expiry by 30 days per month; false and no change when it is absent. */
    method RenewServer(id: nat, months: int, now: Instant) returns (ok: bool)
      requires Valid()
      modifies this
      ensures Valid() && nextId == old(nextId)
      ensures ok <==> id in old(servers)
      ensures servers == if ok then old(servers)[id := Renewed(old(servers)[id], months, now)] else old(servers)
    {
      if id !in servers {
        return false;
      }
      servers := servers[id := Renewed(servers[id], months, now)];
      ok := true;
    }
  }
}
