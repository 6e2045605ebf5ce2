# Server lifecycle service of a hosting back end, in Dafny

This project models `ServerService`, the service layer that keeps the server
records of a hosting provider's back end (`backend_template/app/services/server_service.py`).
The servers table becomes an in-memory store: a class `ServerStore` whose
`servers` field maps a server id to its row and whose `nextId` field stands for
the table's id sequence. The rows themselves are values (`Records.Server`). The
service's operations are methods of the store:

- create, with the plan catalog as a parameter;
- partial update, unscoped and scoped to the owning user;
- status actions, unscoped and user-scoped;
- delete, unscoped and user-scoped;
- renewal.

The queries only read the store:

- the enriched user views;
- active servers and the status counts;
- the mocked bandwidth figures;
- the expiring-soon filter;
- the recent-servers list;
- the per-user statistics.

Every method is proved against pure functions of the table:

- `Tables`: the billing-cycle and action tables.
- `Records`: the record a creation inserts, `setattr` and a whole update payload, and renewal.
- `Views`: the catalog lookup, the enriched dict and the summary dict.
- `Queries`: ownership, counts, filters and newest-first ordering.

Lemmas beside these functions state what the service promises. Creation fails
only for a missing plan and otherwise inserts an active row with a table-derived
expiry. An update sets exactly the columns of its payload. An action follows its
fixed table. A delete removes exactly one row. A renewal adds 30 days per month.
The scoped forms act only on a row that the user owns, and then exactly like
the unscoped forms. The counts change by one as rows are created, deleted or
change status. The statistics come from disjoint counts. The recent list holds
the newest rows.

Conventions of the model:

- `datetime.now()` is a parameter `now`. An instant is an integer count of microsecond ticks, and `timedelta(days = n)` is `Days(n)`.
- The Decimal `2.4` TB per active server is kept exactly as 24 tenths of a terabyte.
- `monthly_cost` is an integer in the currency's smallest unit.
- Python's `x or default` is written out: `None`, `0` and `""` are the falsy values that take the default (`StrOr`, `IntOr`).
- A nullable column is an `Option`.
- The `ServerUpdate` payload (`server_update.dict(exclude_unset=True)`) is a sequence of typed items, one per column it sets. They are applied in order by the same loop as the source's `setattr` loop.
- The database fills `created_at` and `created_date` at insertion. The model gives both the value `now`.
- SQL leaves the order of a result open, so each query method promises: exactly the matching rows, each once, each equal to the stored row. The recent list is also promised newest first.

## Model

| member | source | states |
|---|---|---|
| Tables.ExpiryOffsetDays | backend_template/app/services/server_service.py:221-230 | the expiry offset is always one of the six table values 30, 90, 180, 365, 730, 1095 |
| Tables.ExpiryOffsetTable | backend_template/app/services/server_service.py:221-230 | table entry by entry: monthly 30, quarterly 90, semiannually 180, annually 365, biennially 730, triennially 1095; a missing or empty cycle counts as monthly; any other key gives 30 |
| Tables.ExpiryOffsetCaseInsensitive | backend_template/app/services/server_service.py:229-230 | two cycles with the same lower-cased spelling get the same offset |
| Tables.ExpiryOffsetUpperCase | backend_template/app/services/server_service.py:229-230 | "ANNUALLY" gives 365 days and "Quarterly" 90, looked up as their lower-case keys |
| Tables.Lower | backend_template/app/services/server_service.py:229 | lower-casing keeps the length, turns each upper-case ASCII letter into its lower-case letter, and changes no other character |
| Tables.CycleTableDays | backend_template/app/services/server_service.py:221-228 | the table has an entry exactly for the six cycle names, each between 30 and 1095 days |
| Tables.CycleOrDefault | backend_template/app/services/server_service.py:258 | the stored billing cycle is never empty |
| Tables.ActionStatus | backend_template/app/services/server_service.py:317-324 | every status the action table yields is one of the four known statuses, never "provisioning" |
| Tables.ActionTable | backend_template/app/services/server_service.py:317-326 | start and restart give active, stop gives stopped, terminate gives terminated, and any other action has no entry (both directions) |
| Records.NewServerFields | backend_template/app/services/server_service.py:233-262 | the inserted row has the given id, owner and order; name, hostname, type, vcpu, RAM, storage, bandwidth, OS and cost as given; no IP address and no notes; status "active"; the plan's id and name; a given non-empty cycle stored as given, and "monthly" for a missing or empty one; expiry now + the cycle's offset, at least 30 days ahead; specs whose addon and service lists are the given ones, or empty when none were given; created at now |
| Records.NewServerAnnualExpiry | backend_template/app/services/server_service.py:221-231 | an annual cycle expires exactly 365 days after now |
| Records.NewServer | backend_template/app/services/server_service.py:244-262 | the new row has the given id and owner, is active, and expires at least 30 days after now |
| Records.Project | backend_template/app/services/server_service.py:280-281 | the current value of a column, read as an item for that same column |
| Records.SetAttr | backend_template/app/services/server_service.py:281 | one setattr keeps the id, owner and timestamps, and changes the status only when it writes the status column |
| Records.ApplyUpdate | backend_template/app/services/server_service.py:279-281 | no payload, however long, changes the id, owner or timestamps |
| Records.SetAttrFrame | backend_template/app/services/server_service.py:281 | one setattr writes its own column; every other column and the id, owner and timestamps keep their values |
| Records.ProjectDetermines | backend_template/app/services/server_service.py:279-281 | two rows that agree on identity and on every settable column are the same row, so the per-column statements cover the whole row |
| Records.ApplyUpdateColumns | backend_template/app/services/server_service.py:279-281 | after a payload each column holds the last value the payload wrote to it, or its old value; identity is untouched |
| Records.LastForDistinct | backend_template/app/services/server_service.py:279 | in a payload with distinct columns (a dict), the value for a column named in it is its only item for that column |
| Records.LastForAbsent | backend_template/app/services/server_service.py:279 | a column the payload does not name has no item |
| Records.UpdateSetsNamedColumns | backend_template/app/services/server_service.py:279-281 | with each column named once, every column in the payload takes the payload's value, and the identity is unchanged |
| Records.UpdateKeepsOtherColumns | backend_template/app/services/server_service.py:279-281 | a column the payload does not name keeps its old value |
| Records.UpdateKeepsStatus | backend_template/app/services/server_service.py:301-303 | a payload that does not name the status keeps the row's status |
| Records.RenewedExpiry | backend_template/app/services/server_service.py:478-480 | renewal sets the expiry to the old expiry (or now when unset) plus exactly 30 days per month and changes nothing else |
| Records.RenewThreeMonths | backend_template/app/services/server_service.py:480 | renewing for three months adds exactly 90 days to a set expiry |
| Records.RenewedAdditive | backend_template/app/services/server_service.py:479-480 | renewing for a months and then b months equals renewing for a + b months |
| Records.Renewed | backend_template/app/services/server_service.py:479-480 | renewal keeps the identity and status, always leaves an expiry set, and never moves a set expiry earlier for a non-negative month count |
| Views.MatchingMembers | backend_template/app/services/server_service.py:516-519 | the catalog lookup returns exactly the catalog rows whose id is listed, never more rows than the catalog holds |
| Views.MatchingNoIds | backend_template/app/services/server_service.py:510-512 | an empty id list matches no row |
| Views.Matching | backend_template/app/services/server_service.py:516-519 | the lookup holds only catalog rows whose id is listed, and no more rows than the catalog |
| Views.FetchCatalogItems | backend_template/app/services/server_service.py:506-556 | the addon and service lookup loops return exactly the matching rows in catalog order, and an empty list for an empty id list |
| Views.DetailsAreLookups | backend_template/app/services/server_service.py:42-50 | the guards on null specs and empty id lists change no result: the details are the lookup of `specs.get(..., [])` |
| Views.EnrichDefaults | backend_template/app/services/server_service.py:52-78 | column by column, both ways: a null or empty hostname shows as "", a null or empty type as "vps", a null or zero vcpu as 1, bandwidth as 1000, plan id as 0, a null plan name as "", a null or zero cost as 0, a null or empty cycle as "monthly"; each truthy stored value shows as stored; every other column passes through unchanged |
| Views.Enrich | backend_template/app/services/server_service.py:52-78 | the enriched dict keeps id and owner, carries the given addon and service details, and never shows a falsy type, vcpu, bandwidth or cycle |
| Views.EnrichRow | backend_template/app/services/server_service.py:39-80 | the loop body builds the row's enriched dict, and its addons and services are the catalog rows named in its specs |
| Views.CreatedServerView | backend_template/app/services/server_service.py:229-262 | a freshly created server is viewed as active, with its plan's name, the requested cycle (monthly by default), expiry from the table, and the catalog rows of the requested addon and service ids |
| Queries.RowsOf | backend_template/app/services/server_service.py:26-34 | a select returns each row whose id satisfies the filter exactly once, as stored |
| Queries.StatusCountsBounded | backend_template/app/services/server_service.py:424-440 | the active, stopped and provisioning counts count disjoint rows, so they sum to at most the number of rows |
| Queries.CountAfterStatusChange | backend_template/app/services/server_service.py:328 | setting a row's status moves it from the count of its old status to the count of its new one |
| Queries.SizeAfterInsert | backend_template/app/services/server_service.py:264 | inserting under a fresh id grows the table by one |
| Queries.CountAfterInsert | backend_template/app/services/server_service.py:261-264 | inserting under a fresh id adds one to the count of the row's status and nothing to the others |
| Queries.OwnerSetsAfterInsert | backend_template/app/services/server_service.py:245-264 | the inserted row joins its owner's servers, and their active servers when it is active |
| Queries.CountAfterRemove | backend_template/app/services/server_service.py:355 | deleting a row shrinks the table by one and the count of its status by one, and no other count |
| Queries.ActionKeepsStatusesKnown | backend_template/app/services/server_service.py:317-328 | actions keep every status among the four known ones |
| Queries.ExpiringSoon | backend_template/app/services/server_service.py:463-467 | a row with a null expiry, or one not active, never matches; an active row whose expiry has already passed matches for any non-negative window |
| Queries.ExpiringSoonWider | backend_template/app/services/server_service.py:463-467 | a wider window keeps every row that a narrower one matched |
| Queries.InsertNewestFirst | backend_template/app/services/server_service.py:406 | inserting into the ordered list adds exactly the one row |
| Queries.InsertNewestFirstOrdered | backend_template/app/services/server_service.py:406 | inserting keeps the list ordered by created_at descending |
| Queries.SortNewestFirst | backend_template/app/services/server_service.py:406 | the ordering is a permutation of the selected rows |
| Queries.SortNewestFirstSpec | backend_template/app/services/server_service.py:406 | the ordering is a permutation sorted by created_at descending |
| Queries.SortNewestFirstRows | backend_template/app/services/server_service.py:406 | ordering a selection keeps the same stored rows, each once |
| Queries.SortedPrefixIsNewest | backend_template/app/services/server_service.py:403-409 | the first `limit` rows of the ordered selection are min(limit, n) distinct rows, newest first, and none left out is newer than one kept |
| Queries.CostOverRemove | backend_template/app/services/server_service.py:492-497 | the sum of monthly costs does not depend on the order in which rows are added up |
| Service.Summaries | backend_template/app/services/server_service.py:411-421 | the list comprehension gives one summary per row, in the same order, and the summaries name exactly the servers of the rows |
| Service.SummariesOfNewest | backend_template/app/services/server_service.py:400-421 | the summaries of the newest rows are the user's rows, each once, newest first, min(limit, n) of them, with no omitted row newer than a listed one |
| Service.ServerStore.GetServerById | backend_template/app/services/server_service.py:162-164 | the row stored under that id when there is one, and then its id is the requested id; nothing when there is none |
| Service.ServerStore.GetUserActiveServers | backend_template/app/services/server_service.py:84-91 | exactly the user's active rows, each once |
| Service.ServerStore.GetUserServers | backend_template/app/services/server_service.py:25-82 | one enriched dict per row of the user, each row once, each the view of the stored row against the catalogs |
| Service.ServerStore.GetUserServer | backend_template/app/services/server_service.py:93-157 | the enriched dict of the row exactly when it exists and belongs to the user, nothing otherwise |
| Service.ServerStore.GetUserRecentServers | backend_template/app/services/server_service.py:400-421 | min(limit, n) of the user's servers, each once, summarised as stored, newest first, and no omitted server of the user is newer than a listed one |
| Service.ServerStore.GetUserBandwidthUsed | backend_template/app/services/server_service.py:392-398 | 2.4 TB (24 tenths) for each of the user's active servers |
| Service.ServerStore.GetActiveServersCount | backend_template/app/services/server_service.py:386-390 | the active count is at most the number of rows, and is zero exactly when no row is active |
| Service.ServerStore.GetUserActiveServersCount | backend_template/app/services/server_service.py:378-384 | a user's active count is at most their number of rows and at most the active count of the whole table |
| Service.ServerStore.GetServerStats | backend_template/app/services/server_service.py:423-456 | total is the number of rows; active, stopped and provisioning are the numbers of rows with those statuses, summing to at most the total; bandwidth is 2.4 TB per active row |
| Service.ServerStore.GetUserServerStats | backend_template/app/services/server_service.py:485-504 | the user's row count, their active count, the summed monthly cost of their active rows (nulls skipped, 0 when none), and 2.4 TB per active row |
| Service.ServerStore.GetServersExpiringSoon | backend_template/app/services/server_service.py:461-470 | exactly the active rows with an expiry no later than now + days, each once |
| Service.ServerStore.CreateUserServer | backend_template/app/services/server_service.py:209-267 | with the plan missing: PlanNotFound and an unchanged store; otherwise the new row goes in under a fresh id, the sequence advances and no other row changes |
| Service.ServerStore.UpdateServer | backend_template/app/services/server_service.py:272-285 | a missing row gives None and no change; otherwise only that row changes, to the payload applied in order, and it is returned |
| Service.ServerStore.UpdateUserServer | backend_template/app/services/server_service.py:287-307 | None and no change unless the row exists and belongs to the user; then exactly what the unscoped update does |
| Service.ServerStore.PerformServerAction | backend_template/app/services/server_service.py:312-330 | true exactly when the row exists and the action is in the table; then only that row's status changes, to the table's value; otherwise nothing changes |
| Service.ServerStore.PerformUserServerAction | backend_template/app/services/server_service.py:332-345 | false and no change unless the row belongs to the user; then exactly the unscoped action |
| Service.ServerStore.DeleteServer | backend_template/app/services/server_service.py:350-357 | true exactly when the row exists; then just that row is removed; otherwise nothing changes |
| Service.ServerStore.DeleteUserServer | backend_template/app/services/server_service.py:359-373 | true exactly when the row exists and belongs to the user; then just that row is removed; otherwise nothing changes |
| Service.ServerStore.RenewServer | backend_template/app/services/server_service.py:472-483 | false and no change for a missing row; otherwise only that row's expiry moves, by 30 days per month from its expiry or from now |

## Left out

- `get_all_servers` (admin listing enriched from the linked order's addon and service line items, lines 166-201): it depends on ORM relationships to orders, which are not part of this model.
- `average_monthly_cost` (lines 445-447) and the `float(monthly_cost)` conversion in the enriched dicts: these are floating-point and averaging numerics. Costs stay integers in the smallest currency unit.
- The async session (`execute`, `commit`, `refresh`, `delete`, `selectinload`) and the `print` logging: each operation is one atomic step on the store.
- The two schema migrations (`add_order_id_to_servers.py`, `1378acccf36f_add_cpu_to_addon_category_enum.py`): they are DDL with no behaviour to state.
- Database-side column behaviour: any `updated_at` refresh on update is not modelled, and `created_at`/`created_date` are taken to be the insertion instant.
- Records.NewServer: the model leaves `updated_at` null on insertion. The table's schema is not part of this model, so a database default for that column is not represented.
- The `ServerUpdate` schema is not part of this model. An update may set any column except `id`, `user_id`, `created_at` and `updated_at`. Its values are not validated beyond their types, so an update can store a status outside the four known ones.
- `specs` is modelled by the keys the service writes and reads. A key holding null counts as absent, and other keys are not represented. As `Views.DetailsAreLookups` shows, this changes none of the addon and service details.
- The `specs` entry of the enriched dicts returns the stored JSON unchanged. That value shows every key and tells a key holding null apart from an absent one. The model's `specs` entry shows only the seven modelled keys, with null and absent merged.
- Catalog addon and service rows are reduced to id and name. `to_dict` fields beyond these are not represented. Lookup results come in catalog order, where the database leaves the order open.
- Tables.Lower: Python's `str.lower()` maps all of Unicode; the model lower-cases ASCII letters only.
- Service.ServerStore.RenewServer: Python's datetime covers years 1 to 9999 and `timedelta` at most 999,999,999 days.
  - Outside that range, `renew_server` raises OverflowError and leaves the row unchanged.
  - The model's instants are unbounded, so for such a month count it returns true and moves the expiry.
- Service.ServerStore.GetServersExpiringSoon: for the same reason, a `days` value whose threshold leaves datetime's range raises OverflowError in the source. The model returns the matching rows.
- The default arguments (`days=7`, `months=1`, `limit=5`, and `order_id=None` of `create_user_server`) are not built in: callers pass them.
- Service.ServerStore.GetUserRecentServers: `limit` is a natural number, because the database rejects a negative LIMIT. When created_at values tie, the order among the tied rows is not fixed, as SQL leaves it open.
- Identity of ORM objects: a returned row is a value, so later changes to the store do not show through it.
