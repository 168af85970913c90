/** Counting how often a file was found missing from the vault. */
module Observations {
  import opened Tables
  import opened Capsules
  import opened Vault
  import opened History

  type MissingTable = map<Path, MissingRow>

  /** A completed scan: the live paths it found incomplete, those it gave up as removed, and when. */
  datatype Scan = Scan(found: set<Path>, confirmed: set<Path>, at: Time)

  /** How many of the latest scans, without a break, found `p` missing and did not settle it. */
  function Streak(scans: seq<Scan>, p: Path): (n: nat)
    ensures n <= |scans|
  {
    if scans == [] then 0
    else
      var last := scans[|scans| - 1];
      if p in last.found && p !in last.confirmed then 1 + Streak(scans[..|scans| - 1], p) else 0
  }

  /** When the first of those scans was. */
  function StreakStart(scans: seq<Scan>, p: Path): Time
    requires Streak(scans, p) > 0
  {
    scans[|scans| - Streak(scans, p)].at
  }

  lemma {:induction false} StreakBound(scans: seq<Scan>, p: Path)
    ensures forall i :: |scans| - Streak(scans, p) <= i < |scans| ==> p in scans[i].found
    ensures Streak(scans, p) < |scans| ==>
      var before := scans[|scans| - Streak(scans, p) - 1]; p !in before.found || p in before.confirmed
  {
    if scans != [] {
      StreakBound(scans[..|scans| - 1], p);
    }
  }

  /** The table is the streaks: a row for each path with one, saying how long it is, when it
      began and when it was last seen. */
  ghost predicate Counted(missing: MissingTable, scans: seq<Scan>) {
    forall p ::
      && (p in missing <==> Streak(scans, p) > 0)
      && (p in missing ==>
            && missing[p].observations == Streak(scans, p)
            && missing[p].firstSeen == StreakStart(scans, p)
            && missing[p].lastSeen == scans[|scans| - 1].at)
  }

  /** The row a path has after one more scan that missed it. */
  function Observed(missing: MissingTable, p: Path, now: Time): MissingRow {
    if p in missing then missing[p].(observations := missing[p].observations + 1, lastSeen := now)
    else MissingRow(now, 1, now)
  }

  /** The first two loops of the transaction: forget the paths that are whole again, count the
      ones that are not. */
  method RecordScan(missing: MissingTable, found: set<Path>, now: Time) returns (next: MissingTable)
    ensures next.Keys == found
    ensures forall p :: p in found ==> next[p] == Observed(missing, p, now)
  {
    next := missing;
    var todo := missing.Keys;
    while todo != {}
      invariant todo <= missing.Keys
      invariant forall p :: p in next <==> p in missing && (p in todo || p in found)
      invariant forall p :: p in next ==> next[p] == missing[p]
      decreases todo
    {
      var p :| p in todo;
      todo := todo - {p};
      if p !in found {
        next := Without(next, p);
      }
    }
    todo := found;
    while todo != {}
      invariant todo <= found
      invariant forall p :: p in next <==> p in found && (p in missing || p !in todo)
      invariant forall p :: p in next ==> next[p] == if p in todo then missing[p] else Observed(missing, p, now)
      decreases todo
    {
      var p :| p in todo;
      todo := todo - {p};
      next := next[p := Observed(next, p, now)];
    }
  }

  /** Missed often enough, for long enough. */
  predicate Confirmed(row: MissingRow, observations: nat, before: Time) {
    row.observations >= observations && row.firstSeen <= before
  }

  /** A scan keeps the table equal to the streaks, and confirms exactly the paths whose streak,
      this scan included, is long and old enough. */
  lemma ScanCounted(missing: MissingTable, scans: seq<Scan>, found: set<Path>, now: Time, next: MissingTable,
                    confirmed: set<Path>, observations: nat, before: Time)
    requires Counted(missing, scans)
    requires next.Keys == found && forall p :: p in found ==> next[p] == Observed(missing, p, now)
    requires confirmed == set p | p in next && Confirmed(next[p], observations, before)
    ensures Counted(next - confirmed, scans + [Scan(found, confirmed, now)])
    ensures var seen := scans + [Scan(found, {}, now)];
      forall p :: p in confirmed <==>
        p in found && Streak(seen, p) >= observations && Streak(seen, p) > 0 && StreakStart(seen, p) <= before
  {
    var scans', seen := scans + [Scan(found, confirmed, now)], scans + [Scan(found, {}, now)];
    assert scans'[..|scans|] == scans && seen[..|scans|] == scans;
    forall p
      ensures p in found ==> Streak(seen, p) == Streak(scans, p) + 1
      ensures Streak(scans', p) == if p in found && p !in confirmed then Streak(scans, p) + 1 else 0
    {
    }
    forall p | p in found
      ensures next[p].observations == Streak(seen, p) && next[p].firstSeen == StreakStart(seen, p)
      ensures next[p].lastSeen == now
      ensures p !in confirmed ==> StreakStart(scans', p) == StreakStart(seen, p)
    {
      if Streak(scans, p) > 0 {
        assert seen[|seen| - Streak(seen, p)] == scans[|scans| - Streak(scans, p)];
      }
    }
  }

  /** One good scan is enough to start over: it leaves the path without a row, and the next scan that
      misses it counts from one again. */
  lemma GoodScanResets(missing: MissingTable, later: MissingTable, scans: seq<Scan>, good: Scan, bad: Scan, p: Path)
    requires p !in good.found && Counted(missing, scans + [good])
    requires p in bad.found && p !in bad.confirmed && Counted(later, scans + [good, bad])
    ensures p !in missing && p in later
    ensures later[p] == MissingRow(bad.at, 1, bad.at)
  {
    var after, last := scans + [good], scans + [good, bad];
    assert after[..|scans|] == scans && last[..|after|] == after && after[|scans|] == good && last[|after|] == bad;
    assert Streak(after, p) == 0 && Streak(last, p) == 1;
  }

  // ---- Files given up as removed --------------------------------------------------------

  /** The confirmed paths are tombstoned: gone from the files, their last version history. */
  ghost predicate Tombstoned(before: Db, after: Db, confirmed: set<Path>, now: Time) {
    && after == before.(files := after.files, versions := after.versions, deleted := after.deleted)
    && after.files == before.files - confirmed
    && (forall p :: p in after.deleted <==> p in before.deleted || p in confirmed)
    && (forall p :: p in after.deleted ==> after.deleted[p] == if p in confirmed then now else before.deleted[p])
    && (forall k :: k in before.versions ==> k in after.versions && after.versions[k] == before.versions[k])
    && (forall k :: k in after.versions && k !in before.versions ==>
          && k.path in confirmed && k.path in before.files && k.version == before.files[k.path].version
          && after.versions[k] == VersionRow(before.files[k.path].manifest, before.files[k.path].modified, now))
    && (forall p :: p in confirmed && p in before.files ==> VersionKey(p, before.files[p].version) in after.versions)
  }

  lemma TombstonedOneMore(before: Db, now: Db, done: set<Path>, p: Path, time: Time)
    requires Tombstoned(before, now, done, time) && p in now.files && p in before.files && p !in done
    ensures Tombstoned(before, TombstoneMissing(now, p, time), done + {p}, time)
  {
    var next := TombstoneMissing(now, p, time);
    assert next.files == before.files - (done + {p});
  }

  /** Midway, every history left alive is older than this scan. */
  ghost predicate OrderedSoFar(db: Db, now: Time) {
    Tidy(db, now) && forall k :: k in db.versions && k.path in db.files ==> db.versions[k].archived < now
  }

  lemma OrderedOneMore(db: Db, p: Path, now: Time)
    requires OrderedSoFar(db, now) && p in db.files
    ensures OrderedSoFar(TombstoneMissing(db, p, now), now)
  {
    TombstoneTidy(db, p, now);
  }

  /** The last loop of the transaction. */
  method TombstoneAll(before: Db, confirmed: set<Path>, now: Time, ghost held: Held, ghost lost: set<Part>,
                      ghost gateway: Gateway, ghost journal: seq<Event>)
      returns (after: Db, ghost events: seq<Event>)
    requires VaultInv(before, held, lost, gateway) && View(before) == Replay(journal)
    requires confirmed <= before.files.Keys
    ensures Tombstoned(before, after, confirmed, now)
    ensures VaultInv(after, held, lost, gateway) && View(after) == Replay(journal + events)
    ensures OrderedSoFar(before, now) ==> OrderedSoFar(after, now)
    ensures confirmed == {} ==> events == []
  {
    hide VaultInv, View, Replay, Apply, OrderedSoFar, Tombstoned, TombstoneMissing;
    after, events := before, [];
    var todo := confirmed;
    NoneTombstoned(before, now);
    assert journal + events == journal && confirmed - todo == {};
    while todo != {}
      invariant todo <= confirmed
      invariant Tombstoned(before, after, confirmed - todo, now)
      invariant VaultInv(after, held, lost, gateway) && View(after) == Replay(journal + events)
      invariant OrderedSoFar(before, now) ==> OrderedSoFar(after, now)
      invariant confirmed == {} ==> events == []
      decreases todo
    {
      var p :| p in todo;
      StillLive(before, after, confirmed - todo, p, now);
      if p in after.files {
        TombstoneMissingKeeps(after, held, lost, gateway, p, now);
        TombstonedOneMore(before, after, confirmed - todo, p, now);
        if OrderedSoFar(after, now) {
          OrderedOneMore(after, p, now);
        }
        ReplaySnoc(journal + events, Removed(p));
        ApplyRemoved(View(after), p);
        assert journal + (events + [Removed(p)]) == journal + events + [Removed(p)];
        after := TombstoneMissing(after, p, now);
        events := events + [Removed(p)];
      }
      assert confirmed - (todo - {p}) == confirmed - todo + {p};
      todo := todo - {p};
    }
    assert confirmed - todo == confirmed;
  }

  lemma ApplyRemoved(ns: Namespace, p: Path)
    ensures Apply(ns, Removed(p)) == Without(ns, p)
  {
  }

  lemma NoneTombstoned(db: Db, now: Time)
    ensures Tombstoned(db, db, {}, now)
  {
  }

  lemma StillLive(before: Db, after: Db, done: set<Path>, p: Path, now: Time)
    requires Tombstoned(before, after, done, now) && p in before.files && p !in done
    ensures p in after.files
  {
  }
}
