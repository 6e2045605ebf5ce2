/**
 * The fixed lookup tables of the server service: billing cycle to expiry offset,
 * action to resulting status, and the mocked bandwidth figure.
 */
module Tables {
  import opened Common

  /** The four statuses a server record is meant to take. */
  predicate KnownStatus(st: string) {
    st == "active" || st == "stopped" || st == "provisioning" || st == "terminated"
  }

  /** Lower-cases one ASCII letter; every other character is left alone. */
  function LowerChar(c: char): char {
    if 'A' <= c <= 'Z' then (c as int + 32) as char else c
  }

  /** `str.lower()`, restricted to ASCII letters. */
  function Lower(s: string): (r: string)
    ensures |r| == |s|
    ensures forall i :: 0 <= i < |r| ==> !('A' <= r[i] <= 'Z')
    ensures forall i :: 0 <= i < |s| && !('A' <= s[i] <= 'Z') ==> r[i] == s[i]
    ensures forall i :: 0 <= i < |s| && 'A' <= s[i] <= 'Z' ==> r[i] as int == s[i] as int + 32
  {
    seq(|s|, i requires 0 <= i < |s| => LowerChar(s[i]))
  }

  /** The billing cycle a server is created with: `billing_cycle or "monthly"`. */
  function CycleOrDefault(cycle: Option<string>): (r: string)
    ensures r != ""
  {
    StrOr(cycle, "monthly")
  }

  /** The `billing_cycle_days` dictionary; `None` for a key it does not hold. */
  function CycleTableDays(key: string): (r: Option<nat>)
    ensures r.Some? <==> key in {"monthly", "quarterly", "semiannually", "annually", "biennially", "triennially"}
    ensures r.Some? ==> 30 <= r.value <= 1095
  {
    if key == "monthly" then Some(30)
    else if key == "quarterly" then Some(90)
    else if key == "semiannually" then Some(180)
    else if key == "annually" then Some(365)
    else if key == "biennially" then Some(730)
    else if key == "triennially" then Some(1095)
    else None
  }

  /** Days from creation to expiry: the table entry for the lower-cased cycle, 30 for any other key. */
  function ExpiryOffsetDays(cycle: Option<string>): (days: nat)
    ensures days == 30 || days == 90 || days == 180 || days == 365 || days == 730 || days == 1095
  {
    CycleTableDays(Lower(CycleOrDefault(cycle))).GetOr(30)
  }

  /** The `valid_actions` dictionary of `perform_server_action`. */
  function ActionStatus(action: string): (r: Option<string>)
    ensures r.Some? ==> KnownStatus(r.value) && r.value != "provisioning"
  {
    if action == "start" then Some("active")
    else if action == "stop" then Some("stopped")
    else if action == "restart" then Some("active")
    else if action == "terminate" then Some("terminated")
    else None
  }

  /** The mocked bandwidth of one active server: 2.4 TB, kept exactly as 24 tenths of a terabyte. */
  const BandwidthTenthsPerActiveServer: nat := 24

  /** The offset depends on the cycle only up to letter case: equal lower-cased spellings give equal offsets. */
  lemma ExpiryOffsetCaseInsensitive(s: string, t: string)
    requires Lower(s) == Lower(t)
    ensures ExpiryOffsetDays(Some(s)) == ExpiryOffsetDays(Some(t))
  {
    assert |s| == |Lower(s)| == |Lower(t)| == |t|;
  }

  /** The offset table, entry by entry, with a missing cycle read as monthly and every other key as 30 days. */
  lemma ExpiryOffsetTable(c: string)
    ensures ExpiryOffsetDays(None) == 30
    ensures ExpiryOffsetDays(Some("")) == 30
    ensures Lower(c) == "monthly" ==> ExpiryOffsetDays(Some(c)) == 30
    ensures Lower(c) == "quarterly" ==> ExpiryOffsetDays(Some(c)) == 90
    ensures Lower(c) == "semiannually" ==> ExpiryOffsetDays(Some(c)) == 180
    ensures Lower(c) == "annually" ==> ExpiryOffsetDays(Some(c)) == 365
    ensures Lower(c) == "biennially" ==> ExpiryOffsetDays(Some(c)) == 730
    ensures Lower(c) == "triennially" ==> ExpiryOffsetDays(Some(c)) == 1095
    ensures CycleTableDays(Lower(c)).None? ==> ExpiryOffsetDays(Some(c)) == 30
  {
    assert Lower("monthly") == "monthly";
    assert c == "" ==> Lower(c) == "";
  }

  /** An upper-case spelling is looked up as its lower-case key. */
  lemma ExpiryOffsetUpperCase()
    ensures ExpiryOffsetDays(Some("ANNUALLY")) == 365
    ensures ExpiryOffsetDays(Some("Quarterly")) == 90
  {
    assert Lower("ANNUALLY") == "annually";
    assert Lower("Quarterly") == "quarterly";
  }

  /** The action table: which actions exist and the status each one leads to. */
  lemma ActionTable(action: string)
    ensures ActionStatus(action) == Some("active") <==> action == "start" || action == "restart"
    ensures ActionStatus(action) == Some("stopped") <==> action == "stop"
    ensures ActionStatus(action) == Some("terminated") <==> action == "terminate"
    ensures ActionStatus(action).None? <==>
              action != "start" && action != "stop" && action != "restart" && action != "terminate"
  {
  }
}
