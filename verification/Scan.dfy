// Storage.Scan: a table exported in batches of at most 256 rows, by key, while
// others go on inserting. Between batches the database is not held.
module Scan {
  import opened Base

  // Keys order by code points.
  predicate Less(a: string, b: string) {
    if b == "" then false
    else if a == "" then true
    else if a[0] != b[0] then a[0] < b[0]
    else Less(a[1..], b[1..])
  }

  lemma {:induction false} LessTotal(a: string, b: string)
    ensures Less(a, b) || a == b || Less(b, a)
    ensures !(Less(a, b) && Less(b, a))
    ensures a == b ==> !Less(a, b)
  {
    if a != "" && b != "" {
      LessTotal(a[1..], b[1..]);
      assert a == [a[0]] + a[1..] && b == [b[0]] + b[1..];
    }
  }

  lemma {:induction false} LessTransitive(a: string, b: string, c: string)
    requires Less(a, b) && Less(b, c)
    ensures Less(a, c)
  {
    if a != "" && a[0] == b[0] == c[0] {
      LessTransitive(a[1..], b[1..], c[1..]);
    }
  }

  // ---- a rank that bounds the number of keys ----

  const RADIX: nat := 0x11_0001

  function Pow(n: nat): nat {
    if n == 0 then 1 else RADIX * Pow(n - 1)
  }

  // A key as a fraction in base RADIX, n digits long; a missing character
  // counts as zero and comes before every other.
  function Rank(s: string, n: nat): nat {
    if n == 0 || s == "" then 0 else (s[0] as int + 1) * Pow(n - 1) + Rank(s[1..], n - 1)
  }

  lemma {:induction false} RankBound(s: string, n: nat)
    ensures Rank(s, n) < Pow(n)
  {
    PowPositive(n);
    if n > 0 && s != "" {
      RankBound(s[1..], n - 1);
      Scale(s[0] as int + 1, RADIX - 1, Pow(n - 1));
      assert Pow(n) == (RADIX - 1) * Pow(n - 1) + Pow(n - 1);
    }
  }

  lemma PowPositive(n: nat)
    ensures Pow(n) >= 1
  {
  }

  lemma Scale(a: nat, b: nat, p: nat)
    requires a <= b
    ensures a * p <= b * p
  {
  }

  lemma {:induction false} RankMonotone(a: string, b: string, n: nat)
    requires Less(a, b) && |a| <= n && |b| <= n
    ensures Rank(a, n) < Rank(b, n)
  {
    PowPositive(n - 1);
    if a == "" {
      Scale(1, b[0] as int + 1, Pow(n - 1));
    } else if a[0] == b[0] {
      RankMonotone(a[1..], b[1..], n - 1);
    } else {
      RankBound(a[1..], n - 1);
      Scale(a[0] as int + 2, b[0] as int + 1, Pow(n - 1));
      assert (a[0] as int + 2) * Pow(n - 1) == (a[0] as int + 1) * Pow(n - 1) + Pow(n - 1);
    }
  }

  // ---- rows ----

  type Doc = string

  datatype Row = Row(id: string, document: Doc)

  ghost predicate Between(after: string, id: string, upper: string) {
    Less(after, id) && !Less(upper, id)
  }

  ghost predicate Ascending(rows: seq<Row>) {
    forall i, j :: 0 <= i < j < |rows| ==> Less(rows[i].id, rows[j].id)
  }

  ghost predicate Has(rows: seq<Row>, id: string) {
    exists i :: 0 <= i < |rows| && rows[i].id == id
  }

  // Every key of the table after `after` and up to `last` is among the rows.
  ghost predicate Gapless(keys: set<string>, rows: seq<Row>, after: string, last: string) {
    forall id :: id in keys && Between(after, id, last) ==> Has(rows, id)
  }

  // Keys are at most so long: the id column holds 512 characters.
  ghost predicate Fits(keys: set<string>, width: nat) {
    forall id :: id in keys ==> |id| <= width
  }

  // `whole` extends `part` without touching its rows.
  ghost predicate Extends(part: map<string, Doc>, whole: map<string, Doc>) {
    forall id :: id in part ==> id in whole && whole[id] == part[id]
  }

  class Table {
    var rows: map<string, Doc>
    const width: nat // of the id column

    constructor (rows: map<string, Doc>, width: nat)
      ensures this.rows == rows && this.width == width
    {
      this.rows, this.width := rows, width;
    }

    // Others insert; what is there already stays.
    method Insert(more: map<string, Doc>)
      modifies this
      ensures rows == more + old(rows)
    {
      rows := more + rows;
    }

    // SELECT COALESCE(MAX(id), '')
    method MaxId() returns (upper: string)
      ensures upper == "" || upper in rows
      ensures forall id :: id in rows ==> !Less(upper, id)
    {
      upper := "";
      var keys := rows.Keys;
      while keys != {}
        invariant keys <= rows.Keys && (upper == "" || upper in rows)
        invariant forall id :: id in rows && id !in keys ==> !Less(upper, id)
        decreases |keys|
      {
        var id :| id in keys;
        keys := keys - {id};
        if Less(upper, id) {
          forall other | other in rows && other !in keys ensures !Less(id, other) {
            LessTotal(upper, other);
            LessTotal(id, other);
            if Less(id, other) { LessTransitive(upper, id, other); }
          }
          upper := id;
        } else {
          LessTotal(id, id);
        }
      }
    }

    // The first key in (after, upper], if any.
    method FirstAfter(after: string, upper: string) returns (found: bool, first: string)
      ensures found ==> first in rows && Between(after, first, upper)
      ensures found ==> forall id :: id in rows && Between(after, id, upper) ==> !Less(id, first)
      ensures !found ==> forall id :: id in rows ==> !Between(after, id, upper)
    {
      found, first := false, "";
      var keys := rows.Keys;
      while keys != {}
        invariant keys <= rows.Keys
        invariant found ==> first in rows && Between(after, first, upper)
        invariant found ==> forall id :: id in rows && id !in keys && Between(after, id, upper) ==> !Less(id, first)
        invariant !found ==> forall id :: id in rows && id !in keys ==> !Between(after, id, upper)
        decreases |keys|
      {
        var id :| id in keys;
        keys := keys - {id};
        LessTotal(id, id);
        if Less(after, id) && !Less(upper, id) && (!found || Less(id, first)) {
          if found {
            forall other | other in rows && other !in keys && Between(after, other, upper) ensures !Less(other, id) {
              if Less(other, id) && other != id { LessTransitive(other, id, first); }
            }
          }
          found, first := true, id;
        }
      }
    }

    // The first `limit` rows in (after, upper], in order.
    method Query(after: string, upper: string, limit: nat) returns (batch: seq<Row>)
      ensures Ascending(batch)
      ensures forall i :: 0 <= i < |batch| ==>
                batch[i].id in rows && rows[batch[i].id] == batch[i].document && Between(after, batch[i].id, upper)
      ensures batch != [] ==> Gapless(rows.Keys, batch, after, batch[|batch| - 1].id)
      ensures |batch| <= limit && (|batch| < limit ==> Gapless(rows.Keys, batch, after, upper))
    {
      batch := [];
      var last := after;
      while |batch| < limit
        invariant Ascending(batch)
        invariant last == if batch == [] then after else batch[|batch| - 1].id
        invariant forall i :: 0 <= i < |batch| ==>
                    && batch[i].id in rows && rows[batch[i].id] == batch[i].document
                    && Between(after, batch[i].id, upper) && !Less(last, batch[i].id)
        invariant |batch| <= limit && (batch != [] ==> Gapless(rows.Keys, batch, after, last))
      {
        var found, first := FirstAfter(last, upper);
        if !found {
          forall id | id in rows && Between(after, id, upper) ensures Has(batch, id) {
            LessTotal(last, id);
          }
          return;
        }
        var before := batch;
        batch := batch + [Row(first, rows[first])];
        forall i | 0 <= i < |before| ensures Less(before[i].id, first) {
          LessTotal(last, before[i].id);
          if before[i].id != last { LessTransitive(before[i].id, last, first); }
        }
        if before != [] { LessTransitive(after, last, first); }
        LessTotal(first, first);
        forall i | 0 <= i < |batch| ensures !Less(first, batch[i].id) {
          LessTotal(first, batch[i].id);
        }
        forall id | id in rows && Between(after, id, first) ensures Has(batch, id) {
          LessTotal(last, id);
          if Less(last, id) {
            if Less(upper, id) { WithinUpper(id, first, upper); }
            LessTotal(id, first);
            assert batch[|batch| - 1].id == first;
          } else if before != [] {
            assert Has(before, id);
            var i :| 0 <= i < |before| && before[i].id == id;
            assert batch[i].id == id;
          }
        }
        last := first;
      }
    }
  }

  lemma WithinUpper(id: string, first: string, upper: string)
    requires !Less(first, id) && !Less(upper, first)
    ensures !Less(upper, id)
  {
    LessTotal(first, id);
    if Less(upper, id) && Less(id, first) {
      LessTransitive(upper, id, first);
    }
  }

  // ---- the export ----

  const LIMIT: nat := 256

  // What the environment does: which rows others insert before the n-th query,
  // and which queries, cancellation checks and visits fail.
  datatype Surroundings = Surroundings(
    arrivals: nat -> map<string, Doc>, queryFails: nat -> bool, cancelled: nat -> bool, refuses: nat -> bool)

  // No row comes after all those there were at the start.
  ghost predicate Bounded(start: map<string, Doc>, visited: seq<Row>) {
    visited == [] || exists top :: top in start && forall i :: 0 <= i < |visited| ==> !Less(top, visited[i].id)
  }

  // The visitor is called with the documents of `visited`, in that order. If it
  // refuses one, that is the last.
  ghost predicate Exported(start: map<string, Doc>, now: map<string, Doc>, visited: seq<Row>) {
    && Ascending(visited)
    && (forall i :: 0 <= i < |visited| ==>
          visited[i].id != "" && visited[i].id in now && now[visited[i].id] == visited[i].document)
    && Bounded(start, visited)
    && (visited != [] ==> Gapless(start.Keys, visited, "", visited[|visited| - 1].id))
  }

  // All rows but one with an empty id.
  ghost predicate CoversAll(start: map<string, Doc>, visited: seq<Row>) {
    forall id :: id in start ==> (Has(visited, id) <==> id != "")
  }

  // Ascending rows continue with rows that come after a bound, without a gap.
  lemma Continue(visited: seq<Row>, batch: seq<Row>, k: nat, after: string)
    requires Ascending(visited) && Ascending(batch) && k < |batch|
    requires forall i :: 0 <= i < |visited| ==> !Less(after, visited[i].id)
    requires forall i :: 0 <= i < |batch| ==> Less(after, batch[i].id)
    ensures Ascending(visited + batch[..k + 1])
  {
    var all := visited + batch[..k + 1];
    forall i, j | 0 <= i < j < |all| ensures Less(all[i].id, all[j].id) {
      if i < |visited| <= j {
        LessTotal(after, visited[i].id);
        if visited[i].id != after {
          LessTransitive(visited[i].id, after, all[j].id);
        }
      }
    }
  }

  lemma ContinueGapless(keys: set<string>, visited: seq<Row>, batch: seq<Row>, k: nat, after: string)
    requires Gapless(keys, visited, "", after)
    requires Ascending(batch) && k < |batch| && Gapless(keys, batch, after, batch[|batch| - 1].id)
    ensures Gapless(keys, visited + batch[..k + 1], "", batch[k].id)
  {
    var all := visited + batch[..k + 1];
    forall id | id in keys && Between("", id, batch[k].id) ensures Has(all, id) {
      LessTotal(after, id);
      if Less(after, id) {
        if k < |batch| - 1 { WithinLast(id, batch[k].id, batch[|batch| - 1].id); }
        var i :| 0 <= i < |batch| && batch[i].id == id;
        LessTotal(batch[k].id, id);
        assert i <= k;
        assert all[|visited| + i] == batch[i];
      } else {
        var i :| 0 <= i < |visited| && visited[i].id == id;
        assert all[i] == visited[i];
      }
    }
  }

  lemma WithinLast(id: string, mid: string, last: string)
    requires !Less(mid, id) && Less(mid, last)
    ensures !Less(last, id)
  {
    LessTotal(mid, id);
    LessTotal(last, id);
    if Less(last, id) {
      if mid == id { LessTotal(mid, last); } else { LessTransitive(last, id, mid); LessTotal(mid, last); }
    }
  }

  // Ids that are all there and in order are there exactly once.
  lemma VisitedOnce(visited: seq<Row>, i: nat, j: nat)
    requires Ascending(visited) && i < |visited| && j < |visited| && visited[i].id == visited[j].id
    ensures i == j
  {
    LessTotal(visited[i].id, visited[j].id);
  }

  lemma ExportNextRow(start: map<string, Doc>, now: map<string, Doc>, visited: seq<Row>, batch: seq<Row>, k: nat,
                      after: string, upper: string)
    requires Exported(start, now, visited) && Extends(start, now) && upper in start
    requires after == After(visited)
    requires Ascending(batch) && k < |batch| && Gapless(now.Keys, batch, after, batch[|batch| - 1].id)
    requires forall i :: 0 <= i < |batch| ==>
               batch[i].id in now && now[batch[i].id] == batch[i].document && Between(after, batch[i].id, upper)
    ensures Exported(start, now, visited + batch[..k + 1])
  {
    var all := visited + batch[..k + 1];
    forall i | 0 <= i < |visited| ensures !Less(after, visited[i].id) {
      LessTotal(after, visited[i].id);
    }
    Continue(visited, batch, k, after);
    assert Gapless(start.Keys, visited, "", after) by {
      LessTotal("", after);
      forall id | id in start && Between("", id, "") ensures false { LessTotal("", id); }
    }
    assert Gapless(start.Keys, batch, after, batch[|batch| - 1].id);
    ContinueGapless(start.Keys, visited, batch, k, after);
    assert all[|all| - 1] == batch[k];
    StillBounded(start, visited, batch, k, after, upper);
    forall i | 0 <= i < |all| ensures all[i].id != "" && all[i].id in now && now[all[i].id] == all[i].document {
      if i >= |visited| {
        assert all[i] == batch[i - |visited|];
      }
    }
  }

  lemma StillBounded(start: map<string, Doc>, visited: seq<Row>, batch: seq<Row>, k: nat, after: string, upper: string)
    requires upper in start && k < |batch| && forall i :: 0 <= i < |visited| ==> !Less(after, visited[i].id)
    requires forall i :: 0 <= i < |batch| ==> Between(after, batch[i].id, upper)
    ensures Bounded(start, visited + batch[..k + 1])
  {
    var all := visited + batch[..k + 1];
    forall i | 0 <= i < |all| ensures !Less(upper, all[i].id) {
      if i >= |visited| {
        assert all[i] == batch[i - |visited|];
      } else {
        assert Between(after, batch[0].id, upper);
        if Less(upper, all[i].id) {
          LessTotal(after, all[i].id);
          LessTotal(upper, batch[0].id);
          if after != all[i].id { LessTransitive(upper, all[i].id, after); }
          LessTotal(upper, after);
          if batch[0].id != upper { LessTransitive(after, batch[0].id, upper); }
          LessTotal(after, upper);
        }
      }
    }
  }

  // None of the first n has this fate.
  ghost predicate NoneOf(fate: nat -> bool, n: nat) {
    n == 0 || (NoneOf(fate, n - 1) && !fate(n - 1))
  }

  lemma {:induction false} NoneOfIs(fate: nat -> bool, n: nat)
    ensures NoneOf(fate, n) <==> forall k: nat :: k < n ==> !fate(k)
  {
    if n > 0 {
      NoneOfIs(fate, n - 1);
    }
  }

  // Of the first so many checks and visits, all went well.
  ghost predicate AllWell(env: Surroundings, checks: nat, visits: nat) {
    NoneOf(env.cancelled, checks) && NoneOf(env.refuses, visits)
  }

  // All batches but the last hold 256 rows.
  ghost predicate Batched(batches: nat, rows: nat, more: bool) {
    256 * batches - 256 <= rows <= 256 * batches && (more ==> rows == 256 * batches)
  }

  // Hands a batch to the visitor, row by row, until cancelled or refused.
  method Deliver(ghost start: map<string, Doc>, ghost now: map<string, Doc>, done: seq<Row>, batch: seq<Row>,
                 ghost after: string, ghost upper: string, env: Surroundings, visits: nat)
    returns (ok: bool, visited: seq<Row>, ghost checks: nat)
    requires visits == |done| && AllWell(env, |done|, |done|)
    requires Exported(start, now, done) && Extends(start, now) && upper in start
    requires after == After(done)
    requires Ascending(batch) && batch != [] && Gapless(now.Keys, batch, after, batch[|batch| - 1].id)
    requires forall i :: 0 <= i < |batch| ==>
               batch[i].id in now && now[batch[i].id] == batch[i].document && Between(after, batch[i].id, upper)
    ensures Exported(start, now, visited)
    ensures ok ==> visited == done + batch && checks == |visited|
    ensures |done| <= |visited| <= |done| + |batch| && |visited| <= checks <= |visited| + 1
    ensures ok <==> AllWell(env, checks, |visited|)
  {
    visited, checks := done, visits;
    for i := 0 to |batch|
      invariant visited == done + batch[..i] && checks == |visited|
      invariant Exported(start, now, visited)
      invariant AllWell(env, checks, |visited|)
    {
      checks := checks + 1;
      if env.cancelled(visits + i) {
        return false, visited, checks;
      }
      visited := visited + [batch[i]];
      assert visited == done + batch[..i + 1];
      ExportNextRow(start, now, done, batch, i, after, upper);
      if env.refuses(visits + i) {
        return false, visited, checks;
      }
    }
    assert batch[..|batch|] == batch;
    ok := true;
  }

  // How many ids could still come, at most.
  function Remaining(after: string, upper: string, width: nat): nat {
    if Rank(after, width) < Rank(upper, width) then Rank(upper, width) - Rank(after, width) else 0
  }

  lemma FewerRemain(before: string, after: string, upper: string, width: nat)
    requires Between(before, after, upper) && |before| <= width && |after| <= width && |upper| <= width
    ensures Remaining(after, upper, width) < Remaining(before, upper, width)
  {
    RankMonotone(before, after, width);
    RankMonotoneOrEqual(after, upper, width);
  }

  // Where the scan stands after the rows visited.
  function After(visited: seq<Row>): string {
    if visited == [] then "" else visited[|visited| - 1].id
  }

  // One turn of the loop: the others insert, the next batch is read and
  // delivered.
  method NextBatch(table: Table, ghost start: map<string, Doc>, upper: string, done: seq<Row>,
                   env: Surroundings, turn: nat) returns (ok: bool, visited: seq<Row>, ghost checks: nat)
    requires Extends(start, table.rows)
    requires Fits(table.rows.Keys, table.width) && Fits(env.arrivals(turn).Keys, table.width)
    requires Exported(start, table.rows, done) && upper in start && Less(After(done), upper)
    requires turn >= 1 && AllWell(env, |done|, |done|) && Batched(turn - 1, |done|, true)
    modifies table
    ensures Extends(start, table.rows) && Fits(table.rows.Keys, table.width) && Exported(start, table.rows, visited)
    ensures ok ==> Between(After(done), After(visited), upper) && |After(visited)| <= table.width
    ensures ok ==> checks == |visited| && Batched(turn, |visited|, After(visited) != upper)
    ensures Batched(turn, |visited|, false) && |visited| <= checks <= |visited| + 1
    ensures ok <==> !env.queryFails(turn) && AllWell(env, checks, |visited|)
  {
    table.Insert(env.arrivals(turn));
    if env.queryFails(turn) {
      return false, done, |done|;
    }
    var batch := table.Query(After(done), upper, LIMIT);
    // The program returns here on an empty batch; the row at `upper` is still there.
    LessTotal(upper, upper);
    assert Between(After(done), upper, upper);
    assert batch != [];
    ok, visited, checks := Deliver(start, table.rows, done, batch, After(done), upper, env, |done|);
    if ok && |batch| < LIMIT {
      EndsAtUpper(batch, After(done), upper);
    }
  }

  // Rows within the bound, the bound among them, end at it.
  lemma EndsAtUpper(batch: seq<Row>, after: string, upper: string)
    requires Ascending(batch) && Has(batch, upper)
    requires forall i :: 0 <= i < |batch| ==> Between(after, batch[i].id, upper)
    ensures batch[|batch| - 1].id == upper
  {
    var i :| 0 <= i < |batch| && batch[i].id == upper;
    LessTotal(upper, batch[|batch| - 1].id);
  }

  // The loop: batch after batch, until the position reaches the bound.
  method Batches(table: Table, ghost start: map<string, Doc>, upper: string, env: Surroundings)
    returns (ok: bool, visited: seq<Row>, queries: nat, ghost checks: nat)
    requires Fits(table.rows.Keys, table.width) && forall n :: Fits(env.arrivals(n).Keys, table.width)
    requires start == table.rows && (upper == "" || upper in start) && !env.queryFails(0)
    modifies table
    ensures Extends(start, table.rows) && Exported(start, table.rows, visited)
    ensures queries >= 1 && |visited| <= checks <= |visited| + 1
    ensures ok <==> NoneOf(env.queryFails, queries) && AllWell(env, checks, |visited|)
    ensures ok ==> !Less(After(visited), upper) && Batched(queries - 1, |visited|, false)
  {
    ok, visited, queries, checks := true, [], 1, 0;
    LessTotal(upper, upper);
    while Less(After(visited), upper)
      invariant ok && Extends(start, table.rows) && Fits(table.rows.Keys, table.width)
      invariant Exported(start, table.rows, visited)
      invariant |After(visited)| <= table.width
      invariant queries >= 1 && checks == |visited|
      invariant NoneOf(env.queryFails, queries) && AllWell(env, checks, |visited|)
      invariant Batched(queries - 1, |visited|, After(visited) != upper)
      decreases Remaining(After(visited), upper, table.width)
    {
      ghost var before := After(visited);
      ok, visited, checks := NextBatch(table, start, upper, visited, env, queries);
      queries := queries + 1;
      if !ok { return; }
      FewerRemain(before, After(visited), upper, table.width);
    }
  }

  // Whatever is inserted between the batches, below the upper bound or above
  // it: the rows come in strictly ascending order, none beyond the greatest id
  // there was at the start, none of the rows there were at the start is passed
  // over, and a scan that succeeds has visited all of those. A scan that fails
  // has visited an unbroken beginning. A row with an empty id is never visited.
  // The loop ends because ids of bounded length have bounded rank.
  method Export(table: Table, env: Surroundings)
    returns (ok: bool, visited: seq<Row>, queries: nat, ghost checks: nat)
    requires Fits(table.rows.Keys, table.width) && forall n :: Fits(env.arrivals(n).Keys, table.width)
    modifies table
    ensures Extends(old(table.rows), table.rows)
    ensures Exported(old(table.rows), table.rows, visited)
    ensures ok ==> CoversAll(old(table.rows), visited)
    ensures queries >= 1 && |visited| <= checks <= |visited| + 1
    ensures ok <==> NoneOf(env.queryFails, queries) && AllWell(env, checks, |visited|)
    ensures ok ==> 256 * (queries - 2) <= |visited| <= 256 * (queries - 1)
  {
    if env.queryFails(0) {
      return false, [], 1, 0;
    }
    ghost var start := table.rows;
    var upper := table.MaxId();
    ok, visited, queries, checks := Batches(table, start, upper, env);
    if ok {
      AllVisited(start, table.rows, visited, upper);
    }
  }

  lemma AllVisited(start: map<string, Doc>, now: map<string, Doc>, visited: seq<Row>, upper: string)
    requires Exported(start, now, visited) && !Less(After(visited), upper)
    requires forall id :: id in start ==> !Less(upper, id)
    ensures CoversAll(start, visited)
  {
    forall id | id in start ensures Has(visited, id) <==> id != "" {
      if id != "" {
        LessTotal("", id);
        NotBeyond(id, upper, After(visited));
        if visited == [] { LessTotal("", id); }
        assert Between("", id, After(visited));
      }
    }
  }

  lemma RankMonotoneOrEqual(a: string, b: string, n: nat)
    requires !Less(b, a) && |a| <= n && |b| <= n
    ensures Rank(a, n) <= Rank(b, n)
  {
    LessTotal(a, b);
    if a != b { RankMonotone(a, b, n); }
  }

  lemma NotBeyond(id: string, upper: string, after: string)
    requires !Less(upper, id) && !Less(after, upper)
    ensures !Less(after, id)
  {
    LessTotal(after, id);
    LessTotal(id, upper);
    if Less(after, id) && id != upper { LessTransitive(after, id, upper); }
  }
}
