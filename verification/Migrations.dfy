/** The schema migration runner: apply each embedded file once, in name order, each in its own transaction. */
module Migrations {
  import opened Text

  /** Where the work on one migration goes wrong, if anywhere. */
  datatype Fault = NoFault | CheckFails | ReadFails | BeginFails | ExecFails | RecordFails | CommitFails

  /** One opening of the database. */
  datatype World = World(createFails: bool, faults: string -> Fault)

  /** What is durable: the versions in schema_migrations, and the migrations whose statements took effect. */
  datatype Db = Db(recorded: seq<string>, effects: seq<string>)

  function Version(name: string): string
    requires HasSuffix(name, ".sql")
  {
    name[..|name| - 4]
  }

  /** The migrations among some file names, in the order given. */
  function Versions(names: seq<string>): seq<string> {
    if names == [] then []
    else (if HasSuffix(names[0], ".sql") then [Version(names[0])] else []) + Versions(names[1..])
  }

  /** The loop of `runMigrations` from some version on; false when it stops with an error. */
  function RunFrom(db: Db, versions: seq<string>, w: World): (Db, bool)
    decreases |versions|
  {
    if versions == [] then (db, true)
    else
      var v := versions[0];
      if w.faults(v).CheckFails? then (db, false)
      else if v in db.recorded then RunFrom(db, versions[1..], w)
      else if !w.faults(v).NoFault? then (db, false)
      else RunFrom(Db(db.recorded + [v], db.effects + [v]), versions[1..], w)
  }

  function OpenOnce(db: Db, versions: seq<string>, w: World): (Db, bool) {
    if w.createFails then (db, false) else RunFrom(db, versions, w)
  }

  function OpenAll(db: Db, versions: seq<string>, ws: seq<World>): Db {
    if ws == [] then db else OpenOnce(OpenAll(db, versions, ws[..|ws| - 1]), versions, ws[|ws| - 1]).0
  }

  class Database {
    var recorded: seq<string>
    var effects: seq<string>

    function State(): Db
      reads this
    {
      Db(recorded, effects)
    }

    constructor ()
      ensures State() == Db([], [])
    {
      recorded, effects := [], [];
    }

    /** `names` is the directory listing, in any order. */
    method RunMigrations(names: seq<string>, w: World) returns (ok: bool)
      requires NoDuplicates(names)
      modifies this
      ensures (State(), ok) == OpenOnce(old(State()), Versions(SortedListing(set n | n in names)), w)
    {
      hide StrictlySorted, SortedListing, NoDuplicates, Versions, RunFrom, HasSuffix;
      if w.createFails { return false; }
      var entries := SortStrings(names);
      assert entries == SortedListing(set n | n in names) by {
        SortedListingUnique(entries, SortedListing(set n | n in names));
      }
      assert entries[0..] == entries;
      for i := 0 to |entries|
        invariant RunFrom(old(State()), Versions(entries), w) == RunFrom(State(), Versions(entries[i..]), w)
      {
        var name := entries[i];
        VersionsStep(entries, i);
        if !HasSuffix(name, ".sql") { continue; }
        var version := Version(name);
        RunStep(State(), version, Versions(entries[i + 1..]), w);
        var fault := w.faults(version);
        if fault.CheckFails? { return false; }
        if version in recorded { continue; }
        if fault.ReadFails? || fault.BeginFails? { return false; }
        // Inside the transaction nothing is durable yet; returning rolls it back.
        var txEffects := effects + [version];
        if fault.ExecFails? { return false; }
        var txRecorded := recorded + [version];
        if fault.RecordFails? || fault.CommitFails? { return false; }
        recorded, effects := txRecorded, txEffects;
      }
      NothingLeft(entries, State(), w);
      ok := true;
    }
  }

  lemma VersionsStep(names: seq<string>, i: nat)
    requires i < |names|
    ensures Versions(names[i..]) ==
            (if HasSuffix(names[i], ".sql") then [Version(names[i])] else []) + Versions(names[i + 1..])
    ensures !HasSuffix(names[i], ".sql") ==> Versions(names[i..]) == Versions(names[i + 1..])
  {
    assert names[i..][1..] == names[i + 1..];
  }

  lemma RunStep(db: Db, v: string, rest: seq<string>, w: World)
    ensures RunFrom(db, [v] + rest, w) ==
            if w.faults(v).CheckFails? then (db, false)
            else if v in db.recorded then RunFrom(db, rest, w)
            else if !w.faults(v).NoFault? then (db, false)
            else RunFrom(Db(db.recorded + [v], db.effects + [v]), rest, w)
  {
    assert ([v] + rest)[1..] == rest;
  }

  lemma NothingLeftOf(versions: seq<string>, db: Db, w: World)
    ensures RunFrom(db, versions[|versions|..], w) == (db, true)
  {
  }

  lemma NothingLeft(names: seq<string>, db: Db, w: World)
    ensures RunFrom(db, Versions(names[|names|..]), w) == (db, true)
  {
  }

  // ---------------------------------------------------------------- laws

  /** The first n migrations are recorded and in effect, and nothing else is. */
  function At(versions: seq<string>, n: nat): Db
    requires n <= |versions|
  {
    Db(versions[..n], versions[..n])
  }

  lemma FirstOccurrence(versions: seq<string>, i: nat)
    requires NoDuplicates(versions) && i < |versions|
    ensures versions[i] !in versions[..i]
  {
  }

  /** From a state reached before, at a place no later than it, the loop moves forward over the list. */
  lemma {:induction false} LoopAdvances(versions: seq<string>, m: nat, i: nat, w: World) returns (n: nat)
    requires NoDuplicates(versions) && i <= m <= |versions|
    ensures m <= n <= |versions|
    ensures var (db, ok) := RunFrom(At(versions, m), versions[i..], w);
            && db == At(versions, n)
            && (ok <==> (forall k :: i <= k < m ==> !w.faults(versions[k]).CheckFails?)
                        && (forall k :: m <= k < |versions| ==> w.faults(versions[k]).NoFault?))
            && (ok ==> n == |versions|)
    ensures forall k :: m <= k < n ==> w.faults(versions[k]).NoFault?
    decreases |versions| - i
  {
    hide RunFrom, NoDuplicates;
    n := m;
    if i == |versions| {
      NothingLeftOf(versions, At(versions, m), w);
    } else {
      var v := versions[i];
      assert versions[i..] == [v] + versions[i + 1..];
      RunStep(At(versions, m), v, versions[i + 1..], w);
      if w.faults(v).CheckFails? { return; }
      if i < m {
        assert versions[..m][i] == v;
        n := LoopAdvances(versions, m, i + 1, w);
      } else {
        FirstOccurrence(versions, i);
        if w.faults(v).NoFault? {
          assert versions[..m] + [v] == versions[..m + 1];
          n := LoopAdvances(versions, m + 1, i + 1, w);
        }
      }
    }
  }

  /** After any openings, each failing wherever it may, the recorded versions are the first n of the list, and each
      of those migrations took effect exactly once, in order. */
  lemma {:induction false} AlwaysAPrefix(versions: seq<string>, ws: seq<World>) returns (n: nat)
    requires NoDuplicates(versions)
    ensures n <= |versions| && OpenAll(Db([], []), versions, ws) == At(versions, n)
  {
    if ws == [] {
      n := 0;
    } else {
      var m := AlwaysAPrefix(versions, ws[..|ws| - 1]);
      var w := ws[|ws| - 1];
      if w.createFails {
        n := m;
      } else {
        assert versions[0..] == versions;
        n := LoopAdvances(versions, m, 0, w);
      }
    }
  }

  /** An opening that succeeds leaves every migration applied, and later openings change nothing. */
  lemma SuccessIsFinal(versions: seq<string>, before: seq<World>, w: World, after: seq<World>)
    requires NoDuplicates(versions)
    requires OpenOnce(OpenAll(Db([], []), versions, before), versions, w).1
    ensures OpenAll(Db([], []), versions, before + [w] + after) == At(versions, |versions|)
    decreases |after|
  {
    hide RunFrom, NoDuplicates;
    var ws := before + [w] + after;
    assert versions[0..] == versions;
    if after == [] {
      assert ws == before + [w] && ws[..|ws| - 1] == before;
      var m := AlwaysAPrefix(versions, before);
      var n := LoopAdvances(versions, m, 0, w);
    } else {
      assert ws[..|ws| - 1] == before + [w] + after[..|after| - 1];
      SuccessIsFinal(versions, before, w, after[..|after| - 1]);
      if !ws[|ws| - 1].createFails {
        var n := LoopAdvances(versions, |versions|, 0, ws[|ws| - 1]);
      }
    }
  }

  /** The versions are the .sql file names without the ending, and no others. */
  lemma {:induction false} VersionMembers(names: seq<string>, v: string)
    ensures v in Versions(names) <==> v + ".sql" in names
  {
    if names != [] {
      VersionMembers(names[1..], v);
      assert names == [names[0]] + names[1..];
      if HasSuffix(names[0], ".sql") {
        assert names[0] == Version(names[0]) + ".sql";
      }
      if names[0] == v + ".sql" {
        assert (v + ".sql")[|v|..] == ".sql" && (v + ".sql")[..|v|] == v;
      }
    }
  }

  /** They come in the lexicographic order of their files. */
  lemma {:induction false} VersionsAscend(names: seq<string>)
    requires Ascending(names)
    ensures forall i, j :: 0 <= i < j < |Versions(names)| ==> Precedes(Versions(names)[i] + ".sql", Versions(names)[j] + ".sql")
  {
    hide Precedes;
    if names != [] {
      var rest := Versions(names[1..]);
      VersionsAscend(names[1..]);
      if HasSuffix(names[0], ".sql") {
        var v := Version(names[0]);
        assert names[0] == v + ".sql";
        forall j | 0 <= j < |rest| ensures Precedes(v + ".sql", rest[j] + ".sql") {
          VersionMembers(names[1..], rest[j]);
          var k :| 0 <= k < |names[1..]| && names[1..][k] == rest[j] + ".sql";
          assert Precedes(names[0], names[k + 1]);
        }
        assert Versions(names) == [v] + rest;
      } else {
        assert Versions(names) == rest;
      }
    }
  }

  /** Distinct files carry distinct versions. */
  lemma {:induction false} VersionsDistinct(names: seq<string>)
    requires NoDuplicates(names)
    ensures NoDuplicates(Versions(names))
  {
    if names != [] {
      VersionsDistinct(names[1..]);
      if HasSuffix(names[0], ".sql") {
        var v := Version(names[0]);
        assert names[0] == v + ".sql";
        VersionMembers(names[1..], v);
      }
    }
  }

  /** The list an opening works through, whatever order its directory is listed in: the versions of its .sql files,
      each once, lexicographically by file name. */
  lemma MigrationList(files: set<string>)
    ensures var vs := Versions(SortedListing(files));
            && NoDuplicates(vs) && (forall v :: v in vs <==> v + ".sql" in files)
            && forall i, j :: 0 <= i < j < |vs| ==> Precedes(vs[i] + ".sql", vs[j] + ".sql")
  {
    hide Precedes, Versions, StrictlySorted, Ascending;
    var names := SortedListing(files);
    SortedHasNoDuplicates(names);
    VersionsDistinct(names);
    SortedIsAscending(names);
    VersionsAscend(names);
    forall v ensures v in Versions(names) <==> v + ".sql" in files { VersionMembers(names, v); }
  }
}
