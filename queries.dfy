/**
 * The servers table as a map from id to row, and what the service's SELECT and
 * COUNT queries read from it: ownership, status counts, the expiring-soon
 * filter, newest-first ordering and cost sums.
 */
module Queries {
  import opened Common
  import opened Tables
  import opened Records

  type Table = map<nat, Server>

  /** Every row is stored under its own id. */
  predicate KeysMatch(m: Table) {
    forall id :: id in m ==> m[id].id == id
  }

  /** `where(Server.id == server_id, Server.user_id == user_id)` finds a row. */
  predicate OwnedBy(m: Table, userId: int, id: nat) {
    id in m && m[id].userId == userId
  }

  /** The ids of `user_id`'s servers. */
  function UserIds(m: Table, userId: int): set<nat> {
    set id | id in m && m[id].userId == userId
  }

  /** The ids of the rows with status `st`. */
  function StatusIds(m: Table, st: string): set<nat> {
    set id | id in m && m[id].serverStatus == st
  }

  /** `count(Server.id)` where the status is `st`. */
  function CountStatus(m: Table, st: string): nat {
    |StatusIds(m, st)|
  }

  /** The ids of `user_id`'s active servers. */
  function UserActiveIds(m: Table, userId: int): set<nat> {
    set id | id in m && m[id].userId == userId && m[id].serverStatus == "active"
  }

  /** The expiring-soon filter: active with an expiry no later than `now + days` (a null expiry never matches). */
  predicate ExpiringSoon(s: Server, now: Instant, days: int)
    ensures s.expiryDate.None? || s.serverStatus != "active" ==> !ExpiringSoon(s, now, days)
    ensures s.serverStatus == "active" && s.expiryDate.Some? && s.expiryDate.value <= now && days >= 0 ==>
              ExpiringSoon(s, now, days)
  {
    s.serverStatus == "active" && s.expiryDate.Some? && s.expiryDate.value <= now + Days(days)
  }

  /** A wider window keeps every row a narrower one matched. */
  lemma ExpiringSoonWider(s: Server, now: Instant, days: int, more: int)
    requires days <= more && ExpiringSoon(s, now, days)
    ensures ExpiringSoon(s, now, more)
  {
    assert Days(days) <= Days(more);
  }

  function ExpiringIds(m: Table, now: Instant, days: int): set<nat> {
    set id | id in m && ExpiringSoon(m[id], now, days)
  }

  /** Every row has one of the four known statuses. */
  predicate StatusesKnown(m: Table) {
    forall id :: id in m ==> KnownStatus(m[id].serverStatus)
  }

  // ---------------------------------------------------------------------
  // Counting lemmas: how the creation, action and delete change the counts
  // ---------------------------------------------------------------------

  /** The stopped, provisioning and active counts are counts of disjoint sets of rows, so together at most the table. */
  lemma StatusCountsBounded(m: Table)
    ensures CountStatus(m, "active") + CountStatus(m, "stopped") + CountStatus(m, "provisioning") <= |m|
  {
    var a, s, p := StatusIds(m, "active"), StatusIds(m, "stopped"), StatusIds(m, "provisioning");
    assert a !! s && a !! p && s !! p;
    assert a + s + p <= m.Keys;
    assert |a + s| == |a| + |s|;
    assert |a + s + p| == |a + s| + |p|;
    SubsetCard(a + s + p, m.Keys);
  }

  lemma SubsetCard(a: set<nat>, b: set<nat>)
    requires a <= b
    ensures |a| <= |b|
  {
    assert b == a + (b - a);
  }

  /** Setting one row's status moves it from its old status count to the new one. */
  lemma CountAfterStatusChange(m: Table, id: nat, newStatus: string, st: string)
    requires id in m
    ensures var m' := m[id := m[id].(serverStatus := newStatus)];
      CountStatus(m', st) == CountStatus(m, st) - (if m[id].serverStatus == st then 1 else 0)
                                                + (if newStatus == st then 1 else 0)
  {
    var m' := m[id := m[id].(serverStatus := newStatus)];
    var rest := StatusIds(m, st) - {id};
    if newStatus == st {
      assert StatusIds(m', st) == rest + {id};
    } else {
      assert StatusIds(m', st) == rest;
    }
    if m[id].serverStatus == st {
      assert StatusIds(m, st) == rest + {id};
    } else {
      assert StatusIds(m, st) == rest;
    }
  }

  /** Inserting a row under a fresh id grows the table by one. */
  lemma SizeAfterInsert(m: Table, s: Server)
    requires s.id !in m
    ensures |m[s.id := s]| == |m| + 1
  {
    assert m[s.id := s].Keys == m.Keys + {s.id};
  }

  /** Inserting a row under a fresh id adds one to the count of its status and leaves the other counts alone. */
  lemma CountAfterInsert(m: Table, s: Server, st: string)
    requires s.id !in m
    ensures CountStatus(m[s.id := s], st) == CountStatus(m, st) + (if s.serverStatus == st then 1 else 0)
  {
    var m' := m[s.id := s];
    var before, after := StatusIds(m, st), StatusIds(m', st);
    var added: set<nat> := if s.serverStatus == st then {s.id} else {};
    assert after == before + added by {
      forall x | x in after ensures x in before + added {
        if x != s.id { assert m'[x] == m[x]; }
      }
      forall x | x in before ensures x in after {
        assert m'[x] == m[x];
      }
    }
    assert s.id !in before;
  }

  /** Inserting a row under a fresh id adds it to its owner's servers, and to their active ones when it is active. */
  lemma OwnerSetsAfterInsert(m: Table, s: Server)
    requires s.id !in m
    ensures UserIds(m[s.id := s], s.userId) == UserIds(m, s.userId) + {s.id}
    ensures UserActiveIds(m[s.id := s], s.userId)
              == UserActiveIds(m, s.userId) + (if s.serverStatus == "active" then {s.id} else {})
  {
  }

  /** Removing a row shrinks the table by one and its status count by one, and no other status count. */
  lemma CountAfterRemove(m: Table, id: nat, st: string)
    requires id in m
    ensures |m - {id}| == |m| - 1
    ensures CountStatus(m - {id}, st) == CountStatus(m, st) - (if m[id].serverStatus == st then 1 else 0)
  {
    assert m.Keys == (m - {id}).Keys + {id};
    if m[id].serverStatus == st {
      assert StatusIds(m, st) == StatusIds(m - {id}, st) + {id};
    } else {
      assert StatusIds(m, st) == StatusIds(m - {id}, st);
    }
  }

  /** An action moves a row to a known status, so a table of known statuses stays so. */
  lemma ActionKeepsStatusesKnown(m: Table, id: nat, action: string)
    requires StatusesKnown(m) && id in m && ActionStatus(action).Some?
    ensures StatusesKnown(m[id := m[id].(serverStatus := ActionStatus(action).value)])
  {
  }

  // ---------------------------------------------------------------------
  // Result lists
  // ---------------------------------------------------------------------

  /** The ids a list of rows holds. */
  function IdsOf(r: seq<Server>): set<nat> {
    set i | 0 <= i < |r| :: r[i].id
  }

  /** No row appears twice. */
  predicate DistinctIds(r: seq<Server>) {
    forall i, j :: 0 <= i < j < |r| ==> r[i].id != r[j].id
  }

  /** `r` is the result of a SELECT whose WHERE clause holds exactly for the ids `ids`, in some order. */
  predicate RowsFrom(r: seq<Server>, m: Table, ids: set<nat>) {
    |r| == |ids| && IdsOf(r) == ids && DistinctIds(r) && RowsIn(r, m)
  }

  /** Every row of `r` is the row `m` stores under its id. */
  predicate RowsIn(r: seq<Server>, m: Table) {
    forall i :: 0 <= i < |r| ==> r[i].id in m && r[i] == m[r[i].id]
  }

  /** Appending a row whose id is new keeps the ids distinct and adds its id. */
  lemma AppendNewRow(r: seq<Server>, x: Server)
    requires DistinctIds(r) && x.id !in IdsOf(r)
    ensures IdsOf(r + [x]) == IdsOf(r) + {x.id}
    ensures DistinctIds(r + [x])
  {
    var r' := r + [x];
    assert forall i :: 0 <= i < |r| ==> r'[i] == r[i];
    assert r'[|r|] == x;
    forall i | 0 <= i < |r| ensures r[i].id != x.id {
      assert r[i].id in IdsOf(r);
    }
  }

  /** One step of fetching: moving a pending id's row into the result keeps the loop's invariant. */
  lemma RowsStep(m: Table, ids: set<nat>, todo: set<nat>, r: seq<Server>, id: nat)
    requires KeysMatch(m) && todo <= ids <= m.Keys && id in todo
    requires IdsOf(r) == ids - todo && |r| + |todo| == |ids| && DistinctIds(r) && RowsIn(r, m)
    ensures var r', todo' := r + [m[id]], todo - {id};
      IdsOf(r') == ids - todo' && |r'| + |todo'| == |ids| && DistinctIds(r') && RowsIn(r', m)
  {
    assert m[id].id == id;
    AppendNewRow(r, m[id]);
    var r' := r + [m[id]];
    assert RowsIn(r', m) by {
      forall i | 0 <= i < |r'| ensures r'[i].id in m && r'[i] == m[r'[i].id] {
        if i < |r| { assert r'[i] == r[i]; }
      }
    }
    assert ids - (todo - {id}) == (ids - todo) + {id};
    assert todo == (todo - {id}) + {id};
  }

  /** Fetches the rows with the given ids, one at a time. */
  method RowsOf(m: Table, ids: set<nat>) returns (r: seq<Server>)
    requires KeysMatch(m) && ids <= m.Keys
    ensures RowsFrom(r, m, ids)
  {
    r := [];
    var todo := ids;
    while todo != {}
      invariant todo <= ids
      invariant IdsOf(r) == ids - todo
      invariant |r| + |todo| == |ids|
      invariant DistinctIds(r)
      invariant RowsIn(r, m)
      decreases |todo|
    {
      var id :| id in todo;
      RowsStep(m, ids, todo, r, id);
      r := r + [m[id]];
      todo := todo - {id};
    }
  }

  /** Newest first: `order_by(Server.created_at.desc())`. */
  predicate NewestFirst(r: seq<Server>) {
    forall i, j :: 0 <= i < j < |r| ==> r[i].createdAt >= r[j].createdAt
  }

  /** Places `x` before the first row that is strictly older. */
  function InsertNewestFirst(x: Server, r: seq<Server>): (t: seq<Server>)
    ensures multiset(t) == multiset(r) + multiset{x}
    decreases |r|
  {
    if r == [] || x.createdAt >= r[0].createdAt then [x] + r
    else assert r == [r[0]] + r[1..]; [r[0]] + InsertNewestFirst(x, r[1..])
  }

  /** A row no older than every row of a newest-first list can head it. */
  lemma ConsNewestFirst(y: Server, t: seq<Server>)
    requires NewestFirst(t)
    requires forall i :: 0 <= i < |t| ==> t[i].createdAt <= y.createdAt
    ensures NewestFirst([y] + t)
  {
    forall i, j | 0 <= i < j < |[y] + t| ensures ([y] + t)[i].createdAt >= ([y] + t)[j].createdAt {
      assert ([y] + t)[j] == t[j - 1];
      if i > 0 { assert ([y] + t)[i] == t[i - 1]; }
    }
  }

  /** Inserting keeps a list newest first. */
  lemma {:induction false} InsertNewestFirstOrdered(x: Server, r: seq<Server>)
    requires NewestFirst(r)
    ensures NewestFirst(InsertNewestFirst(x, r))
    decreases |r|
  {
    if r == [] || x.createdAt >= r[0].createdAt {
      ConsNewestFirst(x, r);
    } else {
      var tail := r[1..];
      InsertNewestFirstOrdered(x, tail);
      var t := InsertNewestFirst(x, tail);
      forall i | 0 <= i < |t| ensures t[i].createdAt <= r[0].createdAt {
        assert t[i] in multiset(t);
        if t[i] != x {
          assert t[i] in multiset(tail);
          var j :| 0 <= j < |tail| && tail[j] == t[i];
          assert r[j + 1] == t[i];
        }
      }
      ConsNewestFirst(r[0], t);
    }
  }

  /** Insertion sort, newest first. */
  function SortNewestFirst(r: seq<Server>): (t: seq<Server>)
    ensures multiset(t) == multiset(r)
    decreases |r|
  {
    if r == [] then [] else assert r == [r[0]] + r[1..]; InsertNewestFirst(r[0], SortNewestFirst(r[1..]))
  }

  /** The sort orders newest first and is a permutation of its input. */
  lemma {:induction false} SortNewestFirstSpec(r: seq<Server>)
    ensures NewestFirst(SortNewestFirst(r))
    ensures multiset(SortNewestFirst(r)) == multiset(r)
    decreases |r|
  {
    if r != [] {
      SortNewestFirstSpec(r[1..]);
      InsertNewestFirstOrdered(r[0], SortNewestFirst(r[1..]));
    }
  }

  /** A row whose id is new can head a list of distinct rows. */
  lemma ConsNewRow(y: Server, t: seq<Server>)
    requires DistinctIds(t) && y.id !in IdsOf(t)
    ensures IdsOf([y] + t) == {y.id} + IdsOf(t)
    ensures DistinctIds([y] + t)
  {
    var r := [y] + t;
    assert forall i :: 0 < i < |r| ==> r[i] == t[i - 1];
    forall i | 0 <= i < |t| ensures t[i].id != y.id {
      assert t[i].id in IdsOf(t);
    }
    assert IdsOf(r) == {y.id} + IdsOf(t) by {
      forall id | id in IdsOf(t) ensures id in IdsOf(r) {
        var i :| 0 <= i < |t| && t[i].id == id;
        assert r[i + 1] == t[i];
      }
      assert r[0] == y;
      forall id | id in IdsOf(r) ensures id in {y.id} + IdsOf(t) {
        var i :| 0 <= i < |r| && r[i].id == id;
        if i > 0 { assert t[i - 1].id == id; }
      }
    }
  }

  /** Inserting a new row of `m` into distinct rows of `m` gives distinct rows of `m`, with its id added. */
  lemma {:induction false} InsertNewestFirstRows(x: Server, r: seq<Server>, m: Table)
    requires DistinctIds(r) && x.id !in IdsOf(r) && RowsIn(r, m) && x.id in m && x == m[x.id]
    ensures var t := InsertNewestFirst(x, r);
      |t| == |r| + 1 && IdsOf(t) == IdsOf(r) + {x.id} && DistinctIds(t) && RowsIn(t, m)
    decreases |r|
  {
    if r == [] || x.createdAt >= r[0].createdAt {
      ConsNewRow(x, r);
    } else {
      var tail := r[1..];
      assert r == [r[0]] + tail;
      assert DistinctIds(tail);
      assert IdsOf(r) == {r[0].id} + IdsOf(tail) by { ConsNewRow(r[0], tail); }
      InsertNewestFirstRows(x, tail, m);
      ConsNewRow(r[0], InsertNewestFirst(x, tail));
    }
  }

  /** Sorting distinct rows of `m` keeps them distinct rows of `m` with the same ids. */
  lemma {:induction false} SortNewestFirstRows(r: seq<Server>, m: Table)
    requires DistinctIds(r) && RowsIn(r, m)
    ensures var t := SortNewestFirst(r);
      |t| == |r| && IdsOf(t) == IdsOf(r) && DistinctIds(t) && RowsIn(t, m)
    decreases |r|
  {
    if r != [] {
      var tail := r[1..];
      assert r == [r[0]] + tail;
      assert DistinctIds(tail);
      assert IdsOf(r) == {r[0].id} + IdsOf(tail) && r[0].id !in IdsOf(tail) by {
        forall i | 0 <= i < |tail| ensures tail[i].id != r[0].id {
          assert tail[i] == r[i + 1];
        }
        ConsNewRow(r[0], tail);
      }
      SortNewestFirstRows(tail, m);
      InsertNewestFirstRows(r[0], SortNewestFirst(tail), m);
    }
  }

  /**
   * `limit` newest rows among the rows with ids `ids`: newest first, distinct,
   * and every row left out is no newer than any row kept.
   */
  predicate NewestRows(top: seq<Server>, m: Table, ids: set<nat>, limit: nat) {
    && |top| == (if limit < |ids| then limit else |ids|)
    && IdsOf(top) <= ids && DistinctIds(top) && RowsIn(top, m) && NewestFirst(top)
    && forall id :: id in ids && id !in IdsOf(top) ==>
         id in m && forall i :: 0 <= i < |top| ==> m[id].createdAt <= top[i].createdAt
  }

  /** A prefix of distinct, newest-first rows of `m` is such a list too, over fewer ids. */
  lemma PrefixRows(s: seq<Server>, m: Table, k: nat)
    requires k <= |s| && DistinctIds(s) && RowsIn(s, m) && NewestFirst(s)
    ensures DistinctIds(s[..k]) && RowsIn(s[..k], m) && NewestFirst(s[..k])
    ensures IdsOf(s[..k]) <= IdsOf(s)
  {
    var top := s[..k];
    assert forall i :: 0 <= i < k ==> top[i] == s[i];
    forall id | id in IdsOf(top) ensures id in IdsOf(s) {
      var i :| 0 <= i < k && top[i].id == id;
      assert s[i].id == id;
    }
  }

  /** A row of a newest-first list that its prefix leaves out is no newer than any row of the prefix. */
  lemma PrefixLeavesOutOlder(s: seq<Server>, m: Table, k: nat, id: nat)
    requires k <= |s| && RowsIn(s, m) && NewestFirst(s)
    requires id in IdsOf(s) && id !in IdsOf(s[..k])
    ensures id in m && forall i :: 0 <= i < k ==> m[id].createdAt <= s[i].createdAt
  {
    var j :| 0 <= j < |s| && s[j].id == id;
    assert s[j] == m[id];
  }

  /** The first `limit` rows of the sorted selection are the `limit` newest. */
  lemma SortedPrefixIsNewest(rows: seq<Server>, m: Table, ids: set<nat>, limit: nat)
    requires RowsFrom(rows, m, ids)
    ensures var sorted := SortNewestFirst(rows);
      var k := if limit < |sorted| then limit else |sorted|;
      NewestRows(sorted[..k], m, ids, limit)
  {
    var sorted := SortNewestFirst(rows);
    SortNewestFirstSpec(rows);
    SortNewestFirstRows(rows, m);
    var k := if limit < |sorted| then limit else |sorted|;
    PrefixRows(sorted, m, k);
    forall id | id in ids && id !in IdsOf(sorted[..k])
      ensures id in m && forall i :: 0 <= i < k ==> m[id].createdAt <= sorted[..k][i].createdAt
    {
      PrefixLeavesOutOlder(sorted, m, k, id);
    }
  }

  // ---------------------------------------------------------------------
  // Cost sums
  // ---------------------------------------------------------------------

  /** The value `sum(Server.monthly_cost)` reads from a row; SQL's SUM skips nulls. */
  function CostOf(s: Server): (c: int)
    ensures s.monthlyCost.None? ==> c == 0
    ensures s.monthlyCost.Some? ==> c == s.monthlyCost.value
  {
    s.monthlyCost.GetOr(0)
  }

  /** The sum of the monthly costs of the rows with ids `ids`. */
  ghost function CostOver(m: Table, ids: set<nat>): int
    requires ids <= m.Keys
    decreases ids
  {
    if ids == {} then 0
    else var id :| id in ids; CostOf(m[id]) + CostOver(m, ids - {id})
  }

  /** The sum does not depend on which row is taken first. */
  lemma {:induction false} CostOverRemove(m: Table, ids: set<nat>, x: nat)
    requires ids <= m.Keys && x in ids
    ensures CostOver(m, ids) == CostOf(m[x]) + CostOver(m, ids - {x})
    decreases ids
  {
    var y :| y in ids && CostOver(m, ids) == CostOf(m[y]) + CostOver(m, ids - {y});
    if y != x {
      CostOverRemove(m, ids - {y}, x);
      CostOverRemove(m, ids - {x}, y);
      assert ids - {y} - {x} == ids - {x} - {y};
    }
  }
}
