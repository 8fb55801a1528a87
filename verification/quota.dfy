/**
 * The per-IP search ledger of backend/app.py: the SQLite table `search_history` keyed by
 * IP address, holding how many searches that address has made, and the rule that turns
 * a count into the number of searches left.
 */
module Quota {

  /** The `search_history` table: `ip_address` -> `search_count`. */
  type Table = map<string, nat>

  /** The cap `get_remaining_searches` uses when no other is given. */
  const DefaultMaxSearches: int := 100

  function Max(a: int, b: int): int { if a < b then b else a }

  /** The count stored for `ip`, or 0 when it has no row. */
  function Used(table: Table, ip: string): nat {
    if ip in table then table[ip] else 0
  }

  /**
   * `get_remaining_searches(ip, max_searches)`: the full cap for an address without a row,
   * otherwise what is left of the cap, never below zero.
   */
  function Remaining(table: Table, ip: string, maxSearches: int := DefaultMaxSearches): (r: int)
    ensures ip !in table ==> r == maxSearches
    ensures ip in table ==> 0 <= r
    ensures ip in table ==> (r == 0 <==> maxSearches <= table[ip])
    ensures ip in table && r != 0 ==> r + table[ip] == maxSearches
    ensures 0 <= maxSearches ==> 0 <= r <= maxSearches
  {
    if ip in table then Max(0, maxSearches - table[ip]) else maxSearches
  }

  /**
   * The table after `track_search(ip)`: a new row with count 1, or the existing count plus
   * one; every other row as it was.
   */
  function Tracked(table: Table, ip: string): (t: Table)
    ensures t.Keys == table.Keys + {ip}
    ensures t[ip] == Used(table, ip) + 1
    ensures forall other :: other in table && other != ip ==> t[other] == table[other]
  {
    if ip in table then table[ip := table[ip] + 1] else table[ip := 1]
  }

  /** Charging an address that had searches left lowers what it has left by exactly one. */
  lemma TrackedChargesOne(table: Table, ip: string, maxSearches: int)
    requires Remaining(table, ip, maxSearches) > 0
    ensures Remaining(Tracked(table, ip), ip, maxSearches) == Remaining(table, ip, maxSearches) - 1
  {
  }

  /** Charging one address changes nothing for any other. */
  lemma TrackedLeavesOthers(table: Table, ip: string, other: string, maxSearches: int)
    requires other != ip
    ensures Remaining(Tracked(table, ip), other, maxSearches) == Remaining(table, other, maxSearches)
  {
  }

  /** The table after `n` searches charged to `ip`. */
  function TrackedTimes(table: Table, ip: string, n: nat): Table
    decreases n
  {
    if n == 0 then table else Tracked(TrackedTimes(table, ip, n - 1), ip)
  }

  /**
   * After `n` charges an address has `n` more searches on record and its allowance has
   * shrunk by `n`, down to zero: with a cap of `m` an address gets at most `m` searches
   * however the charges are spread out.
   */
  lemma {:induction false} TrackedTimesRemaining(table: Table, ip: string, n: nat, maxSearches: int)
    requires 0 <= maxSearches
    ensures Used(TrackedTimes(table, ip, n), ip) == Used(table, ip) + n
    ensures Remaining(TrackedTimes(table, ip, n), ip, maxSearches) == Max(0, maxSearches - Used(table, ip) - n)
  {
    if n > 0 {
      TrackedTimesRemaining(table, ip, n - 1, maxSearches);
    }
  }

  /**
   * Under the default cap an address with no row is let in exactly while fewer than 100
   * searches have been charged to it.
   */
  lemma FreshAddressAdmittedUntilCap(ip: string, n: nat)
    ensures Remaining(TrackedTimes(map[], ip, n), ip) > 0 <==> n < DefaultMaxSearches
  {
    TrackedTimesRemaining(map[], ip, n, DefaultMaxSearches);
  }

  /** The database behind the endpoints; only the `search_history` table is modelled. */
  class SearchLimits {
    var history: Table

    /** `init_db()`: `CREATE TABLE IF NOT EXISTS` keeps whatever rows were already stored. */
    constructor (existing: Table)
      ensures history == existing
    {
      history := existing;
    }

    /**
     * `track_search(ip)`: update the row or insert one, and return the new count.
     */
    method TrackSearch(ip: string) returns (newCount: nat)
      modifies this
      ensures history == Tracked(old(history), ip)
      ensures newCount == history[ip] == Used(old(history), ip) + 1
    {
      if ip in history {
        var currentCount := history[ip];
        newCount := currentCount + 1;
        history := history[ip := newCount];
      } else {
        history := history[ip := 1];
        newCount := 1;
      }
    }
  }
}
