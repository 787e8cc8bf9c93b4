/** Moving data files into subdirectories (src/DataLayoutMigration.cpp): the disk, the moves that
    succeed and fail, and what becomes of every file and of every reference to it. */
module Migration {
  import opened Common
  import opened LocalPath
  import opened ProfilePaths

  datatype File = Data(bytes: seq<bv8>) | ProfileFile(entries: Profile)

  /** All files, by absolute path. */
  type Disk = map<string, File>

  datatype Entry = Entry(name: string, isDirectory: bool)

  const MARKER := ".xcsoar-subdir-layout-v1"

  /** The directories of GetFileTypeDefaultDir and the cache. */
  const LAYOUT_DIRS: set<string> :=
    {"airspace", "waypoints", "waypoints/details", "maps", "flarm", "weather/rasp", "tasks",
     "checklists", "logs", "planes", "input", "lua", "profiles", "cache"}

  predicate ValidFilename(name: string) {
    name != "" && name != "." && name != ".." && '/' !in name
  }

  // The plan

  /** `layout` is the classification of the files by name and content; `directories` are the paths
      of existing directories. */
  function PlanEntry(root: string, disk: Disk, directories: set<string>, layout: map<string, string>,
                     e: Entry): seq<Move> {
    if e.isDirectory || !ValidFilename(e.name) || e.name == MARKER || e.name !in layout then []
    else
      var m := Move(e.name, Build(layout[e.name], e.name));
      if m.Destination(root) in disk || m.Destination(root) in directories then [] else [m]
  }

  function Plan(root: string, disk: Disk, directories: set<string>, layout: map<string, string>,
                entries: seq<Entry>): seq<Move> {
    if entries == [] then []
    else
      var k := |entries| - 1;
      Plan(root, disk, directories, layout, entries[..k]) + PlanEntry(root, disk, directories, layout, entries[k])
  }

  /** BuildMigrationPlan */
  method BuildPlan(root: string, disk: Disk, directories: set<string>, layout: map<string, string>, entries: seq<Entry>)
    returns (moves: seq<Move>, skippedUnknown: nat, skippedConflicts: nat)
    ensures moves == Plan(root, disk, directories, layout, entries)
    ensures |moves| + skippedUnknown + skippedConflicts
            == Count(entries, (e: Entry) => !e.isDirectory && ValidFilename(e.name) && e.name != MARKER)
    ensures skippedUnknown == Count(entries, (e: Entry) =>
                !e.isDirectory && ValidFilename(e.name) && e.name != MARKER && e.name !in layout)
    ensures skippedConflicts == Count(entries, (e: Entry) =>
                !e.isDirectory && ValidFilename(e.name) && e.name != MARKER && e.name in layout
                && (root + "/" + layout[e.name] + "/" + e.name in disk
                    || root + "/" + layout[e.name] + "/" + e.name in directories))
  {
    moves, skippedUnknown, skippedConflicts := [], 0, 0;
    ghost var eligible := (e: Entry) => !e.isDirectory && ValidFilename(e.name) && e.name != MARKER;
    ghost var unknown := (e: Entry) => !e.isDirectory && ValidFilename(e.name) && e.name != MARKER && e.name !in layout;
    ghost var conflicts := (e: Entry) =>
      !e.isDirectory && ValidFilename(e.name) && e.name != MARKER && e.name in layout
      && (root + "/" + layout[e.name] + "/" + e.name in disk
          || root + "/" + layout[e.name] + "/" + e.name in directories);
    for i := 0 to |entries|
      invariant moves == Plan(root, disk, directories, layout, entries[..i])
      invariant skippedConflicts == Count(entries[..i], conflicts)
      invariant |moves| + skippedUnknown + skippedConflicts == Count(entries[..i], eligible)
      invariant skippedUnknown == Count(entries[..i], unknown)
    {
      assert entries[..i + 1][..i] == entries[..i];
      var e := entries[i];
      if !e.isDirectory && ValidFilename(e.name) && e.name != MARKER {
        if e.name !in layout {
          skippedUnknown := skippedUnknown + 1;
        } else {
          var m := Move(e.name, Build(layout[e.name], e.name));
          assert m.Destination(root) == root + "/" + layout[e.name] + "/" + e.name;
          if m.Destination(root) in disk || m.Destination(root) in directories {
            skippedConflicts := skippedConflicts + 1;
          } else {
            moves := moves + [m];
          }
        }
      }
    }
    assert entries[..|entries|] == entries;
  }

  function Count(entries: seq<Entry>, p: Entry -> bool): nat {
    if entries == [] then 0
    else
      var k := |entries| - 1;
      Count(entries[..k], p) + (if p(entries[k]) then 1 else 0)
  }

  /** What visiting the data directory yields: each file below it once. */
  predicate IsListing(root: string, disk: Disk, entries: seq<Entry>) {
    && (forall i :: 0 <= i < |entries| && !entries[i].isDirectory ==> Build(root, entries[i].name) in disk)
    && (forall i, j :: 0 <= i < j < |entries| ==> entries[i].name != entries[j].name)
  }

  predicate GoodLayout(layout: map<string, string>) {
    forall name :: name in layout ==> layout[name] in LAYOUT_DIRS
  }

  /** Sources exist, destinations are free, and all of them are different places. */
  ghost predicate SafeMoves(root: string, disk: Disk, moves: seq<Move>) {
    && (forall i :: 0 <= i < |moves| ==> moves[i].Source(root) in disk && moves[i].Destination(root) !in disk)
    && (forall i, j :: 0 <= i < j < |moves| ==> moves[i].from != moves[j].from && moves[i].to != moves[j].to)
  }

  lemma LastSlash(a: string, m: string, i: nat)
    requires '/' !in m && i < |Build(a, m)| && Build(a, m)[i] == '/'
    ensures i <= |a|
  {
  }

  /** Paths with the same last segment have the same name there. */
  lemma LastSegment(a: string, b: string, m: string, n: string)
    requires '/' !in m && '/' !in n && Build(a, m) == Build(b, n)
    ensures m == n
  {
    var s := Build(a, m);
    LastSlash(a, m, |b|);
    LastSlash(b, n, |a|);
    assert s[|a| + 1..] == m && s[|b| + 1..] == n;
  }

  predicate PlannedFrom(entries: seq<Entry>, layout: map<string, string>, m: Move) {
    && (exists i :: 0 <= i < |entries| && entries[i] == Entry(m.from, false))
    && ValidFilename(m.from) && m.from != MARKER && m.from in layout && m.to == Build(layout[m.from], m.from)
  }

  /** The plan never overwrites anything: sources exist, destinations are free and distinct. */
  lemma {:induction false} PlanIsSafe(root: string, disk: Disk, directories: set<string>, layout: map<string, string>,
                                      entries: seq<Entry>)
    requires IsListing(root, disk, entries)
    ensures var plan := Plan(root, disk, directories, layout, entries);
            SafeMoves(root, disk, plan) && forall i :: 0 <= i < |plan| ==> PlannedFrom(entries, layout, plan[i])
  {
    if entries != [] {
      hide SafeMoves, PlannedFrom, Move.Source, Move.Destination, IsListing;
      var k := |entries| - 1;
      var init := Plan(root, disk, directories, layout, entries[..k]);
      var last := PlanEntry(root, disk, directories, layout, entries[k]);
      ListingPrefix(root, disk, entries);
      PlanIsSafe(root, disk, directories, layout, entries[..k]);
      LastIsPlanned(root, disk, directories, layout, entries);
      forall i | 0 <= i < |init|
        ensures PlannedFrom(entries, layout, init[i])
        ensures last != [] ==> init[i].from != last[0].from && init[i].to != last[0].to
      {
        PlannedEarlier(root, disk, entries, layout, init[i], if last != [] then last[0] else init[i]);
      }
      if last != [] {
        SafeOneMore(root, disk, init, last[0]);
      }
    }
  }

  /** Which files are planned: those of the data directory with a valid name, other than the
      marker, that are classified and whose place in the subdirectory is free. */
  lemma {:induction false} PlannedIff(root: string, disk: Disk, directories: set<string>, layout: map<string, string>,
                                      entries: seq<Entry>, m: Move)
    ensures m in Plan(root, disk, directories, layout, entries) <==>
              && Entry(m.from, false) in entries
              && m.from != "" && m.from != "." && m.from != ".." && '/' !in m.from
              && m.from != ".xcsoar-subdir-layout-v1"
              && m.from in layout && m.to == layout[m.from] + "/" + m.from
              && root + "/" + m.to !in disk && root + "/" + m.to !in directories
  {
    if entries != [] {
      var k := |entries| - 1;
      PlannedIff(root, disk, directories, layout, entries[..k], m);
      assert entries == entries[..k] + [entries[k]];
    }
  }

  lemma ListingPrefix(root: string, disk: Disk, entries: seq<Entry>)
    requires IsListing(root, disk, entries) && entries != []
    ensures IsListing(root, disk, entries[..|entries| - 1])
  {
  }

  lemma LastIsPlanned(root: string, disk: Disk, directories: set<string>, layout: map<string, string>,
                      entries: seq<Entry>)
    requires IsListing(root, disk, entries) && entries != []
    ensures var k := |entries| - 1;
            var last := PlanEntry(root, disk, directories, layout, entries[k]);
            last != [] ==>
              && last == [last[0]] && last[0].from == entries[k].name && PlannedFrom(entries, layout, last[0])
              && last[0].Source(root) in disk && last[0].Destination(root) !in disk
  {
    var k := |entries| - 1;
    assert entries[k].isDirectory || entries[k] == Entry(entries[k].name, false);
  }

  lemma PlannedEarlier(root: string, disk: Disk, entries: seq<Entry>, layout: map<string, string>, x: Move, m: Move)
    requires IsListing(root, disk, entries) && entries != [] && PlannedFrom(entries[..|entries| - 1], layout, x)
    ensures PlannedFrom(entries, layout, x)
    ensures PlannedFrom(entries, layout, m) && m.from == entries[|entries| - 1].name
            ==> x.from != m.from && x.to != m.to
  {
    var k := |entries| - 1;
    var j :| 0 <= j < k && entries[..k][j] == Entry(x.from, false);
    assert entries[j] == Entry(x.from, false);
    if PlannedFrom(entries, layout, m) && x.to == m.to {
      LastSegment(layout[x.from], layout[m.from], x.from, m.from);
    }
  }

  lemma LayoutDirsArePlain(dir: string)
    requires dir in LAYOUT_DIRS
    ensures dir != "" && !IsSlash(dir[0]) && '\\' !in dir && '|' !in dir
  {
  }

  lemma PlannedMovesAreGood(root: string, disk: Disk, layout: map<string, string>, entries: seq<Entry>,
                            moves: seq<Move>)
    requires GoodLayout(layout) && SafeMoves(root, disk, moves)
    requires forall i :: 0 <= i < |moves| ==> PlannedFrom(entries, layout, moves[i])
    ensures GoodMoves(moves)
  {
    forall i | 0 <= i < |moves|
      ensures moves[i].Proper() && '/' !in moves[i].from && '/' in moves[i].to && '/' in Slashes(moves[i].to)
    {
      LayoutDirsArePlain(layout[moves[i].from]);
      PlannedMoveIsProper(layout[moves[i].from], moves[i]);
    }
    hide Slashes, Move.Proper, SafeMoves;
  }

  lemma PlannedMoveIsProper(dir: string, m: Move)
    requires dir != "" && !IsSlash(dir[0]) && '\\' !in dir && '|' !in dir
    requires m.from != "" && m.to == Build(dir, m.from)
    ensures m.Proper() && '/' in m.to && '/' in Slashes(m.to)
  {
    assert m.to[|dir|] == '/' == Slashes(m.to)[|dir|];
    assert forall c :: c in m.to <==> c in dir || c == '/' || c in m.from;
  }

  // Renaming

  /** rename(2): whatever was at the destination is gone. */
  function Rename(root: string, disk: Disk, m: Move): Disk
    requires m.Source(root) in disk
  {
    (disk - {m.Source(root)})[m.Destination(root) := disk[m.Source(root)]]
  }

  /** The moves that succeed, in order. */
  function Succeeded(moves: seq<Move>, ok: seq<bool>): seq<Move>
    requires |ok| == |moves|
  {
    if moves == [] then []
    else
      var k := |moves| - 1;
      Succeeded(moves[..k], ok[..k]) + (if ok[k] then [moves[k]] else [])
  }

  predicate SomeSucceeds(moves: seq<Move>, ok: seq<bool>, m: Move)
    requires |ok| == |moves|
  {
    exists i :: 0 <= i < |moves| && moves[i] == m && ok[i]
  }

  lemma SucceedsLast(moves: seq<Move>, ok: seq<bool>, m: Move)
    requires |ok| == |moves| > 0
    ensures var k := |moves| - 1;
            SomeSucceeds(moves, ok, m) <==> SomeSucceeds(moves[..k], ok[..k], m) || (moves[k] == m && ok[k])
  {
    var k := |moves| - 1;
    if i :| 0 <= i < k && moves[..k][i] == m && ok[..k][i] {
      assert moves[i] == m && ok[i];
    }
    if i :| 0 <= i < |moves| && moves[i] == m && ok[i] {
      assert i == k || (moves[..k][i] == m && ok[..k][i]);
    }
  }

  /** What succeeds are the moves for which the rename did. */
  lemma {:induction false} SucceededIff(moves: seq<Move>, ok: seq<bool>, m: Move)
    requires |ok| == |moves|
    ensures m in Succeeded(moves, ok) <==> exists i :: 0 <= i < |moves| && moves[i] == m && ok[i]
  {
    if moves != [] {
      var k := |moves| - 1;
      SucceededIff(moves[..k], ok[..k], m);
      SucceedsLast(moves, ok, m);
      assert SomeSucceeds(moves[..k], ok[..k], m) <==> m in Succeeded(moves[..k], ok[..k]);
      assert SomeSucceeds(moves, ok, m) <==> m in Succeeded(moves, ok) by {
        hide SomeSucceeds;
      }
    }
  }

  function RenameAll(root: string, disk: Disk, moved: seq<Move>): Disk {
    if moved == [] then disk
    else
      var k := |moved| - 1;
      var d := RenameAll(root, disk, moved[..k]);
      if moved[k].Source(root) in d then Rename(root, d, moved[k]) else d
  }

  lemma SafeOneMore(root: string, disk: Disk, init: seq<Move>, m: Move)
    requires SafeMoves(root, disk, init) && m.Source(root) in disk && m.Destination(root) !in disk
    requires forall i :: 0 <= i < |init| ==> init[i].from != m.from && init[i].to != m.to
    ensures SafeMoves(root, disk, init + [m])
  {
    hide Move.Source, Move.Destination;
  }

  lemma {:induction false} SucceededIsSafe(root: string, disk: Disk, moves: seq<Move>, ok: seq<bool>)
    requires |ok| == |moves| && SafeMoves(root, disk, moves)
    ensures SafeMoves(root, disk, Succeeded(moves, ok))
    ensures forall i :: 0 <= i < |Succeeded(moves, ok)| ==> Succeeded(moves, ok)[i] in moves
  {
    if moves != [] {
      hide SafeMoves, Move.Source, Move.Destination;
      var k := |moves| - 1;
      SafeParts(root, disk, moves);
      SucceededIsSafe(root, disk, moves[..k], ok[..k]);
      if ok[k] {
        SafeOneMore(root, disk, Succeeded(moves[..k], ok[..k]), moves[k]);
      }
    }
  }

  lemma SafeParts(root: string, disk: Disk, moves: seq<Move>)
    requires SafeMoves(root, disk, moves) && moves != []
    ensures var k := |moves| - 1;
            && SafeMoves(root, disk, moves[..k])
            && moves[k].Source(root) in disk && moves[k].Destination(root) !in disk
            && forall m :: m in moves[..k] ==> m in moves && m.from != moves[k].from && m.to != moves[k].to
  {
    hide Move.Source, Move.Destination;
  }

  /** The files of `after` are those of `before`, each at its new place. */
  ghost predicate FilesFollow(root: string, before: Disk, moved: seq<Move>, after: Disk) {
    && (forall p :: p in before ==> Dest(root, moved, p) in after && after[Dest(root, moved, p)] == before[p])
    && (forall q :: q in after ==> exists p :: p in before && Dest(root, moved, p) == q)
    && (forall p, q :: p in before && q in before && p != q ==> Dest(root, moved, p) != Dest(root, moved, q))
  }

  lemma DestOneMore(root: string, init: seq<Move>, m: Move, path: string)
    ensures Dest(root, init + [m], path)
            == if path == m.Source(root) then m.Destination(root) else Dest(root, init, path)
  {
    assert (init + [m])[..|init|] == init;
  }

  lemma FilesFollowOneMore(root: string, before: Disk, init: seq<Move>, m: Move, d: Disk)
    requires FilesFollow(root, before, init, d)
    requires m.Source(root) in before && Dest(root, init, m.Source(root)) == m.Source(root)
    requires m.Destination(root) !in d
    ensures FilesFollow(root, before, init + [m], Rename(root, d, m))
  {
    hide Dest, Move.Source, Move.Destination;
    forall p
      ensures Dest(root, init + [m], p) == if p == m.Source(root) then m.Destination(root) else Dest(root, init, p)
    {
      DestOneMore(root, init, m, p);
    }
    RenamedFilesFollow(root, before, init, m, d);
    RenamedFilesCome(root, before, init, m, d);
  }

  lemma RenamedFilesFollow(root: string, before: Disk, init: seq<Move>, m: Move, d: Disk)
    requires FilesFollow(root, before, init, d)
    requires m.Source(root) in before && Dest(root, init, m.Source(root)) == m.Source(root)
    requires m.Destination(root) !in d
    ensures forall p :: p in before ==>
              var q := if p == m.Source(root) then m.Destination(root) else Dest(root, init, p);
              q in Rename(root, d, m) && Rename(root, d, m)[q] == before[p]
  {
    hide Dest, Move.Source, Move.Destination;
    forall p | p in before
      ensures Dest(root, init, p) in d && d[Dest(root, init, p)] == before[p]
      ensures p != m.Source(root) ==> Dest(root, init, p) != m.Source(root)
    {
    }
  }

  lemma RenamedFilesCome(root: string, before: Disk, init: seq<Move>, m: Move, d: Disk)
    requires FilesFollow(root, before, init, d)
    requires m.Source(root) in before && Dest(root, init, m.Source(root)) == m.Source(root)
    ensures forall q :: q in Rename(root, d, m) && q != m.Destination(root) ==>
              exists p :: p in before && p != m.Source(root) && Dest(root, init, p) == q
  {
    hide Dest, Move.Source, Move.Destination;
    forall q | q in Rename(root, d, m) && q != m.Destination(root)
      ensures exists p :: p in before && p != m.Source(root) && Dest(root, init, p) == q
    {
      var p :| p in before && Dest(root, init, p) == q;
    }
  }

  /** Whichever renames fail, no file is lost and none is overwritten. */
  lemma {:induction false} RenamingLosesNothing(root: string, disk: Disk, moved: seq<Move>)
    requires SafeMoves(root, disk, moved)
    ensures FilesFollow(root, disk, moved, RenameAll(root, disk, moved))
  {
    if moved != [] {
      var k := |moved| - 1;
      var init, m := moved[..k], moved[k];
      SafeParts(root, disk, moved);
      RenameLast(root, disk, moved);
      hide *;
      RenamingLosesNothing(root, disk, init);
      RenamingOneMore(root, disk, moved, RenameAll(root, disk, init));
    }
  }

  lemma RenamingOneMore(root: string, disk: Disk, moved: seq<Move>, d: Disk)
    requires SafeMoves(root, disk, moved) && moved != []
    requires FilesFollow(root, disk, moved[..|moved| - 1], d)
    ensures var m := moved[|moved| - 1];
            m.Source(root) in d && FilesFollow(root, disk, moved, Rename(root, d, m))
  {
    var k := |moved| - 1;
    var init, m := moved[..k], moved[k];
    assert moved == init + [m];
    hide *;
    LastSourceExists(root, disk, moved);
    SourceIsUntouched(root, disk, moved);
    DestinationIsFree(root, disk, moved, d);
    FollowedFile(root, disk, init, d, m.Source(root));
    FilesFollowOneMore(root, disk, init, m, d);
  }

  lemma LastSourceExists(root: string, disk: Disk, moved: seq<Move>)
    requires SafeMoves(root, disk, moved) && moved != []
    ensures moved[|moved| - 1].Source(root) in disk
  {
    hide Move.Source, Move.Destination;
  }

  lemma RenameLast(root: string, disk: Disk, moved: seq<Move>)
    requires moved != []
    ensures var k := |moved| - 1;
            var d := RenameAll(root, disk, moved[..k]);
            moved[k].Source(root) in d ==> RenameAll(root, disk, moved) == Rename(root, d, moved[k])
  {
    hide Rename, Move.Source;
  }

  lemma FollowedFile(root: string, before: Disk, moved: seq<Move>, after: Disk, p: string)
    requires FilesFollow(root, before, moved, after) && p in before
    ensures Dest(root, moved, p) in after && after[Dest(root, moved, p)] == before[p]
  {
  }

  lemma SourceIsUntouched(root: string, disk: Disk, moved: seq<Move>)
    requires SafeMoves(root, disk, moved) && moved != []
    ensures var k := |moved| - 1; Dest(root, moved[..k], moved[k].Source(root)) == moved[k].Source(root)
  {
    var k := |moved| - 1;
    var init, s := moved[..k], moved[k].Source(root);
    DestCases(root, init, s);
    if i :| 0 <= i < |init| && s == init[i].Source(root) {
      assert init[i] == moved[i];
      BuildIsInjective(root, moved[i].from, moved[k].from);
    }
  }

  lemma DestinationIsFree(root: string, disk: Disk, moved: seq<Move>, d: Disk)
    requires SafeMoves(root, disk, moved) && moved != []
    requires FilesFollow(root, disk, moved[..|moved| - 1], d)
    ensures moved[|moved| - 1].Destination(root) !in d
  {
    var k := |moved| - 1;
    var init, t := moved[..k], moved[k].Destination(root);
    if t in d {
      var p :| p in disk && Dest(root, init, p) == t;
      DestCases(root, init, p);
      if i :| 0 <= i < |init| && Dest(root, init, p) == init[i].Destination(root) {
        assert init[i] == moved[i];
        BuildIsInjective(root, moved[i].to, moved[k].to);
      }
    }
  }

  // Saving the profiles

  /** Whether a profile file could be loaded, and the new version saved: a save that fails leaves
      the old file. */
  datatype Io = Io(loads: bool, saves: bool)

  function SaveOne(root: string, moves: seq<Move>, disk: Disk, path: string, io: Io): Disk {
    if io.loads && io.saves && path in disk && disk[path].ProfileFile?
    then disk[path := ProfileFile(UpdateFromMoves(root, moves, disk[path].entries))] else disk
  }

  function SaveAll(root: string, moves: seq<Move>, disk: Disk, profiles: seq<string>, io: seq<Io>): Disk
    requires |io| <= |profiles|
  {
    if io == [] then disk
    else
      var k := |io| - 1;
      SaveOne(root, moves, SaveAll(root, moves, disk, profiles, io[..k]), profiles[k], io[k])
  }

  /** UpdateAllProfilesFromMoves; a start that is interrupted has fewer `io` than `profiles`. */
  method UpdateAllProfiles(root: string, moves: seq<Move>, disk: Disk, profiles: seq<string>, io: seq<Io>)
    returns (d: Disk)
    requires |io| <= |profiles|
    ensures d == SaveAll(root, moves, disk, profiles, io)
  {
    hide UpdateFromMoves;
    d := disk;
    for i := 0 to |io|
      invariant d == SaveAll(root, moves, disk, profiles, io[..i])
    {
      assert io[..i + 1][..i] == io[..i];
      if io[i].loads && profiles[i] in d && d[profiles[i]].ProfileFile? {
        var entries := d[profiles[i]].entries;
        var updated, changed := UpdateProfileFromMoves(root, moves, entries);
        if changed && io[i].saves {
          d := d[profiles[i] := ProfileFile(updated)];
        }
      }
    }
    assert io[..|io|] == io;
  }

  /** The path of the active profile, if it was moved. */
  method FollowActiveProfile(root: string, moves: seq<Move>, active: string) returns (path: string)
    requires DistinctSources(moves)
    ensures path == Dest(root, moves, active)
  {
    DestCases(root, moves, active);
    for i := 0 to |moves|
      invariant forall j :: 0 <= j < i ==> active != moves[j].Source(root)
    {
      if moves[i].Source(root) == active {
        forall j | 0 <= j < |moves| && active == moves[j].Source(root)
          ensures j == i
        {
          BuildIsInjective(root, moves[i].from, moves[j].from);
        }
        return moves[i].Destination(root);
      }
    }
    return active;
  }

  predicate IsSaved(profiles: seq<string>, io: seq<Io>, path: string) {
    exists i :: 0 <= i < |io| <= |profiles| && profiles[i] == path && io[i].loads && io[i].saves
  }

  predicate Distinct(s: seq<string>) {
    forall i, j :: 0 <= i < j < |s| ==> s[i] != s[j]
  }

  /** Exactly the profiles that could be loaded and saved are rewritten, each once; no other file
      is touched. */
  lemma {:induction false} SavingRewritesProfiles(root: string, moves: seq<Move>, disk: Disk, profiles: seq<string>,
                                                  io: seq<Io>)
    requires |io| <= |profiles| && Distinct(profiles)
    ensures var after := SaveAll(root, moves, disk, profiles, io);
            && after.Keys == disk.Keys
            && forall p :: p in disk ==>
                 after[p] == if disk[p].ProfileFile? && IsSaved(profiles, io, p)
                             then ProfileFile(UpdateFromMoves(root, moves, disk[p].entries)) else disk[p]
  {
    if io != [] {
      hide UpdateFromMoves;
      var k := |io| - 1;
      var d := SaveAll(root, moves, disk, profiles, io[..k]);
      assert SaveAll(root, moves, disk, profiles, io) == SaveOne(root, moves, d, profiles[k], io[k]);
      SavingRewritesProfiles(root, moves, disk, profiles, io[..k]);
      forall p | p in disk
        ensures IsSaved(profiles, io, p)
                <==> IsSaved(profiles, io[..k], p) || (p == profiles[k] && io[k].loads && io[k].saves)
        ensures p == profiles[k] ==> !IsSaved(profiles, io[..k], p)
      {
        IsSavedOneMore(profiles, io, p);
      }
      hide IsSaved, SaveAll, Distinct;
    }
  }

  lemma IsSavedOneMore(profiles: seq<string>, io: seq<Io>, p: string)
    requires 0 < |io| <= |profiles| && Distinct(profiles)
    ensures var k := |io| - 1;
            && (IsSaved(profiles, io, p)
                <==> IsSaved(profiles, io[..k], p) || (p == profiles[k] && io[k].loads && io[k].saves))
            && (p == profiles[k] ==> !IsSaved(profiles, io[..k], p))
  {
    var k := |io| - 1;
    if i :| 0 <= i < k && profiles[i] == p && io[i].loads && io[i].saves {
      assert io[..k][i] == io[i];
    }
  }

  /** Every profile file was found, loaded and saved. */
  ghost predicate AllSaved(disk: Disk, profiles: seq<string>, io: seq<Io>) {
    && |io| == |profiles| && Distinct(profiles)
    && forall p :: p in disk && disk[p].ProfileFile? ==> IsSaved(profiles, io, p)
  }

  // The main theorem

  /** The `i`th reference under `key` of the profile at `p`, expanded. */
  function Target(root: string, disk: Disk, p: string, key: string, i: nat): Option<string> {
    if p in disk && disk[p].ProfileFile? && key in KEYS && i < |ProfileRefs(disk[p].entries, key)|
    then Some(Expand(root, ProfileRefs(disk[p].entries, key)[i])) else None
  }

  predicate SameContent(a: File, b: File) {
    (a.Data? || b.Data?) ==> a == b
  }

  function Migrated(root: string, disk: Disk, moved: seq<Move>, profiles: seq<string>, io: seq<Io>): Disk
    requires |io| <= |profiles|
  {
    SaveAll(root, moved, RenameAll(root, disk, moved), profiles, io)
  }

  lemma SavedTarget(root: string, moves: seq<Move>, disk: Disk, profiles: seq<string>, io: seq<Io>,
                    p: string, key: string, i: nat)
    requires GoodMoves(moves) && |io| <= |profiles| && Distinct(profiles)
    ensures var target := Target(root, disk, p, key, i);
            Target(root, SaveAll(root, moves, disk, profiles, io), p, key, i)
            == if target.Some? && IsSaved(profiles, io, p) then Some(RefDest(root, moves, target.value)) else target
  {
    hide UpdateFromMoves, Expand, KEYS, ProfileRefs, RefDest, Rewrite, RewriteAll, IsSaved, GoodMoves, Distinct;
    SavingRewritesProfiles(root, moves, disk, profiles, io);
    if p in disk && disk[p].ProfileFile? && key in KEYS {
      UpdateFromMovesRefs(root, moves, disk[p].entries, key);
      if i < |ProfileRefs(disk[p].entries, key)| {
        RewrittenRefIsMoved(root, moves, ProfileRefs(disk[p].entries, key)[i]);
      }
    }
  }

  /** A reference follows the file it denotes if its profile was saved, and stays otherwise. */
  lemma TargetAfter(root: string, disk: Disk, moved: seq<Move>, profiles: seq<string>, io: seq<Io>,
                    p: string, key: string, i: nat)
    requires SafeMoves(root, disk, moved) && GoodMoves(moved) && |io| <= |profiles| && Distinct(profiles)
    requires Target(root, disk, p, key, i).Some?
    ensures var target := Target(root, disk, p, key, i).value;
            Target(root, Migrated(root, disk, moved, profiles, io), Dest(root, moved, p), key, i)
            == Some(if IsSaved(profiles, io, Dest(root, moved, p)) then RefDest(root, moved, target) else target)
  {
    hide UpdateFromMoves, Expand, KEYS, ProfileRefs, Dest, RefDest, IsSaved, SafeMoves, GoodMoves, Distinct;
    RenamingLosesNothing(root, disk, moved);
    SavedTarget(root, moved, RenameAll(root, disk, moved), profiles, io, Dest(root, moved, p), key, i);
  }

  /** Where a file is after the migration, whichever profiles were saved. */
  lemma MigratedFile(root: string, disk: Disk, moved: seq<Move>, profiles: seq<string>, io: seq<Io>, p: string)
    requires SafeMoves(root, disk, moved) && |io| <= |profiles| && Distinct(profiles) && p in disk
    ensures var after, place := Migrated(root, disk, moved, profiles, io), Dest(root, moved, p);
            place in after && SameContent(after[place], disk[p])
  {
    hide UpdateFromMoves, Dest, IsSaved, SafeMoves, Distinct, RenameAll, FilesFollow;
    RenamingLosesNothing(root, disk, moved);
    FollowedFile(root, disk, moved, RenameAll(root, disk, moved), p);
    SavingRewritesProfiles(root, moved, RenameAll(root, disk, moved), profiles, io);
  }

  /** Nothing is left at the place a file was moved away from. */
  lemma MigratedSourceIsGone(root: string, disk: Disk, moved: seq<Move>, profiles: seq<string>, io: seq<Io>, j: nat)
    requires SafeMoves(root, disk, moved) && Apart(moved) && |io| <= |profiles| && Distinct(profiles) && j < |moved|
    ensures moved[j].Source(root) !in Migrated(root, disk, moved, profiles, io)
  {
    hide UpdateFromMoves, Dest, IsSaved, SafeMoves, Distinct, RenameAll, FilesFollow, Move.Source, Apart;
    RenamingLosesNothing(root, disk, moved);
    SourceIsGone(root, disk, moved, RenameAll(root, disk, moved), j);
    SavingRewritesProfiles(root, moved, RenameAll(root, disk, moved), profiles, io);
  }

  /** Whichever renames succeeded and whichever profiles were loaded and saved, also if the start
      was interrupted on the way: a reference that resolved names the place where its file now is,
      and so resolves to the same content, if and only if the file did not move, or its profile was
      saved and its name has no backslash.  If it moved and the profile was not saved, the
      reference names a missing file. */
  lemma ReferenceResolvesIff(root: string, disk: Disk, moved: seq<Move>, profiles: seq<string>, io: seq<Io>,
                             p: string, key: string, i: nat)
    requires SafeMoves(root, disk, moved) && GoodMoves(moved) && |io| <= |profiles| && Distinct(profiles)
    requires Target(root, disk, p, key, i).Some? && Target(root, disk, p, key, i).value in disk
    ensures var after, target := Migrated(root, disk, moved, profiles, io), Target(root, disk, p, key, i).value;
            var place, file := Target(root, after, Dest(root, moved, p), key, i), Dest(root, moved, target);
            var saved := IsSaved(profiles, io, Dest(root, moved, p));
            && file in after && SameContent(after[file], disk[target]) && place.Some?
            && (place.value == file <==> file == target || (saved && !HasBackslash(root, target)))
            && (file != target && !saved ==> place.value !in after)
  {
    hide *;
    var target := Target(root, disk, p, key, i).value;
    TargetAfter(root, disk, moved, profiles, io, p, key, i);
    MigratedFile(root, disk, moved, profiles, io, target);
    SamePlaceIff(root, moved, target);
    GoodMeansApart(moved);
    DestCases(root, moved, target);
    if j :| 0 <= j < |moved| && target == moved[j].Source(root) {
      MigratedSourceIsGone(root, disk, moved, profiles, io, j);
    }
  }

  lemma GoodMeansApart(moves: seq<Move>)
    requires GoodMoves(moves)
    ensures Apart(moves) && DistinctSources(moves)
  {
  }

  /** If all profiles were loaded and saved: every reference to a file whose name has no backslash
      resolves to the same content as before, also in a profile that was moved itself; other names
      do not disturb it. */
  lemma ReferencesStillResolve(root: string, disk: Disk, moved: seq<Move>, profiles: seq<string>, io: seq<Io>,
                               p: string, key: string, i: nat)
    requires SafeMoves(root, disk, moved) && GoodMoves(moved)
    requires AllSaved(RenameAll(root, disk, moved), profiles, io)
    requires Target(root, disk, p, key, i).Some? && Target(root, disk, p, key, i).value in disk
    ensures var after, target := Migrated(root, disk, moved, profiles, io), Target(root, disk, p, key, i).value;
            var place := Target(root, after, Dest(root, moved, p), key, i);
            && (place == Some(Dest(root, moved, target))
                <==> Dest(root, moved, target) == target || !HasBackslash(root, target))
            && (Dest(root, moved, target) == target || !HasBackslash(root, target) ==>
                  place.value in after && SameContent(after[place.value], disk[target]))
  {
    MovedProfileIsSaved(root, disk, moved, profiles, io, p);
    hide *;
    ReferenceResolvesIff(root, disk, moved, profiles, io, p, key, i);
  }

  lemma MovedProfileIsSaved(root: string, disk: Disk, moved: seq<Move>, profiles: seq<string>, io: seq<Io>, p: string)
    requires SafeMoves(root, disk, moved) && AllSaved(RenameAll(root, disk, moved), profiles, io)
    requires p in disk && disk[p].ProfileFile?
    ensures IsSaved(profiles, io, Dest(root, moved, p)) && |io| == |profiles| && Distinct(profiles)
  {
    hide SafeMoves, Dest, IsSaved, RenameAll, FilesFollow, Distinct;
    RenamingLosesNothing(root, disk, moved);
    FollowedFile(root, disk, moved, RenameAll(root, disk, moved), p);
  }

  /** From the data directory itself into a directory below it. */
  predicate IntoSubdirectories(moves: seq<Move>) {
    forall i :: 0 <= i < |moves| ==> '/' !in moves[i].from && moves[i].from != MARKER && '/' in moves[i].to
  }

  /** The planned moves meet the conditions of the theorem, whichever of them fail. */
  lemma PlannedMovesAreSafe(root: string, disk: Disk, directories: set<string>, layout: map<string, string>,
                            entries: seq<Entry>, ok: seq<bool>)
    requires IsListing(root, disk, entries) && GoodLayout(layout)
    requires |ok| == |Plan(root, disk, directories, layout, entries)|
    ensures var moved := Succeeded(Plan(root, disk, directories, layout, entries), ok);
            SafeMoves(root, disk, moved) && GoodMoves(moved) && IntoSubdirectories(moved)
  {
    var plan := Plan(root, disk, directories, layout, entries);
    var moved := Succeeded(plan, ok);
    PlanIsSafe(root, disk, directories, layout, entries);
    SucceededIsSafe(root, disk, plan, ok);
    forall i | 0 <= i < |moved|
      ensures PlannedFrom(entries, layout, moved[i]) && '/' in moved[i].to
    {
      var j :| 0 <= j < |plan| && plan[j] == moved[i];
      assert moved[i].to[|layout[moved[i].from]|] == '/';
    }
    PlannedMovesAreGood(root, disk, layout, entries, moved);
  }

  function Marked(root: string, disk: Disk): Disk {
    disk[Build(root, MARKER) := Data([])]
  }

  /** The marker is an empty file, and nothing else changes. */
  lemma MarkedMeaning(root: string, disk: Disk)
    ensures var marker, marked := root + "/" + ".xcsoar-subdir-layout-v1", Marked(root, disk);
            && marked.Keys == disk.Keys + {marker} && marked[marker] == Data([])
            && forall p :: p in disk && p != marker ==> marked[p] == disk[p]
  {
  }

  /** Renames the planned files; `ok` says which renames the system lets succeed. */
  method RenameEntries(root: string, disk: Disk, plan: seq<Move>, ok: seq<bool>) returns (d: Disk, moved: seq<Move>)
    requires SafeMoves(root, disk, plan) && |ok| == |plan|
    ensures moved == Succeeded(plan, ok) && d == RenameAll(root, disk, moved)
  {
    hide Move.Source, Move.Destination;
    d, moved := disk, [];
    for i := 0 to |plan|
      invariant moved == Succeeded(plan[..i], ok[..i])
      invariant d == RenameAll(root, disk, moved)
    {
      assert plan[..i + 1][..i] == plan[..i] && ok[..i + 1][..i] == ok[..i];
      if ok[i] {
        NextSourceExists(root, disk, plan[..i + 1], ok[..i + 1]);
        d := Rename(root, d, plan[i]);
        moved := moved + [plan[i]];
        assert moved[..|moved| - 1] == Succeeded(plan[..i], ok[..i]);
      }
    }
    assert plan[..|plan|] == plan && ok[..|plan|] == ok;
  }

  /** MigrateDataLayoutToSubdirs after the planes; `profiles` are the profile files found after
      the renames. */
  method MigrateDataLayout(root: string, disk: Disk, directories: set<string>, layout: map<string, string>,
                           entries: seq<Entry>, ok: seq<bool>, profiles: seq<string>, io: seq<Io>)
    returns (d: Disk)
    requires IsListing(root, disk, entries) && |io| <= |profiles|
    requires |ok| == |Plan(root, disk, directories, layout, entries)|
    ensures Build(root, MARKER) in disk ==> d == disk
    ensures Build(root, MARKER) !in disk ==>
              var plan := Plan(root, disk, directories, layout, entries);
              var moved := Succeeded(plan, ok);
              var migrated := Migrated(root, disk, moved, profiles, io);
              d == if plan == [] || moved != [] then Marked(root, migrated) else migrated
  {
    hide Plan, Succeeded, RenameAll, IsListing, SafeMoves;
    if Build(root, MARKER) in disk {
      return disk;
    }
    var plan, unknown, conflicts := BuildPlan(root, disk, directories, layout, entries);
    PlanIsSafe(root, disk, directories, layout, entries);
    var moved;
    d, moved := RenameEntries(root, disk, plan, ok);
    if moved != [] {
      d := UpdateAllProfiles(root, moved, d, profiles, io);
    } else {
      SavingWithoutMoves(root, d, profiles, io);
    }
    if plan == [] || moved != [] {
      d := Marked(root, d);
    }
  }

  lemma NextSourceExists(root: string, disk: Disk, moves: seq<Move>, ok: seq<bool>)
    requires SafeMoves(root, disk, moves) && |ok| == |moves| > 0 && ok[|ok| - 1]
    ensures var k := |moves| - 1;
            moves[k].Source(root) in RenameAll(root, disk, Succeeded(moves[..k], ok[..k]))
  {
    var k := |moves| - 1;
    var moved := Succeeded(moves, ok);
    var init := Succeeded(moves[..k], ok[..k]);
    SucceededIsSafe(root, disk, moves, ok);
    assert moved[..|moved| - 1] == init && moved[|moved| - 1] == moves[k];
    SourceIsUntouched(root, disk, moved);
    RenamingLosesNothing(root, disk, init);
    FollowedFile(root, disk, init, RenameAll(root, disk, init), moves[k].Source(root));
  }

  lemma {:induction false} SavingWithoutMoves(root: string, disk: Disk, profiles: seq<string>, io: seq<Io>)
    requires |io| <= |profiles|
    ensures SaveAll(root, [], disk, profiles, io) == disk
  {
    if io != [] {
      SavingWithoutMoves(root, disk, profiles, io[..|io| - 1]);
    }
  }

  // Not crash safe

  /** What one start meets: directories, classification and files of the data directory, the
      renames that succeed, the profiles, which of them load and save, and whether the start lives
      to write the marker.  An interrupted start has too few `io`. */
  datatype LayoutStart = LayoutStart(directories: set<string>, layout: map<string, string>, entries: seq<Entry>,
                                     ok: seq<bool>, profiles: seq<string>, io: seq<Io>, marks: bool) {
    predicate Possible(root: string, disk: Disk) {
      && IsListing(root, disk, entries) && GoodLayout(layout) && |io| <= |profiles| && Distinct(profiles)
      && |ok| == |Plan(root, disk, directories, layout, entries)|
    }

    function Moved(root: string, disk: Disk): seq<Move>
      requires Possible(root, disk)
    {
      Succeeded(Plan(root, disk, directories, layout, entries), ok)
    }
  }

  function MarkedIf(root: string, disk: Disk, marks: bool): Disk {
    if marks then Marked(root, disk) else disk
  }

  function AfterLayoutStart(root: string, disk: Disk, start: LayoutStart): Disk
    requires start.Possible(root, disk)
  {
    if Build(root, MARKER) in disk then disk
    else MarkedIf(root, Migrated(root, disk, start.Moved(root, disk), start.profiles, start.io), start.marks)
  }

  /** Where a start puts the file at `p`. */
  function PlaceAfter(root: string, disk: Disk, start: LayoutStart, p: string): string
    requires start.Possible(root, disk)
  {
    if Build(root, MARKER) in disk then p else Dest(root, start.Moved(root, disk), p)
  }

  predicate AllPossible(root: string, disk: Disk, starts: seq<LayoutStart>)
    decreases |starts|
  {
    starts != [] ==>
      starts[0].Possible(root, disk) && AllPossible(root, AfterLayoutStart(root, disk, starts[0]), starts[1..])
  }

  /** The disk after all starts, and where the file at `p` is then. */
  function AfterLayoutStarts(root: string, disk: Disk, starts: seq<LayoutStart>, p: string): (Disk, string)
    requires AllPossible(root, disk, starts)
    decreases |starts|
  {
    if starts == [] then (disk, p)
    else
      AfterLayoutStarts(root, AfterLayoutStart(root, disk, starts[0]), starts[1..],
                        PlaceAfter(root, disk, starts[0], p))
  }

  /** A reference of the profile at `p` names a file that does not exist. */
  predicate Dangles(root: string, disk: Disk, p: string, key: string, i: nat, missing: string) {
    Target(root, disk, p, key, i) == Some(missing) && missing !in disk
  }

  lemma DanglesAfterMigration(root: string, disk: Disk, moved: seq<Move>, profiles: seq<string>, io: seq<Io>,
                              marks: bool, p: string, key: string, i: nat, m: Move)
    requires SafeMoves(root, disk, moved) && GoodMoves(moved) && IntoSubdirectories(moved)
    requires |io| <= |profiles| && Distinct(profiles)
    requires Build(root, MARKER) !in disk && '/' !in m.from && m.from != MARKER
    requires Dangles(root, disk, p, key, i, m.Source(root))
    ensures Dangles(root, MarkedIf(root, Migrated(root, disk, moved, profiles, io), marks), Dest(root, moved, p),
                    key, i, m.Source(root))
  {
    hide *;
    MarkerAsSource(root);
    DanglingTarget(root, disk, p, key, i, m.Source(root));
    MissingStaysMissing(root, disk, moved, profiles, io, m);
    MissingStaysMissing(root, disk, moved, profiles, io, Move(MARKER, ""));
    TargetAfter(root, disk, moved, profiles, io, p, key, i);
    MarkingChangesNothing(root, Migrated(root, disk, moved, profiles, io), marks, Dest(root, moved, p), key, i, m);
  }

  lemma MarkerAsSource(root: string)
    ensures Move(MARKER, "").Source(root) == Build(root, MARKER) && '/' !in Move(MARKER, "").from
  {
  }

  lemma TopLevelSource(moves: seq<Move>, j: nat)
    requires IntoSubdirectories(moves) && j < |moves|
    ensures '/' !in moves[j].from && moves[j].from != MARKER
  {
  }

  lemma DanglingTarget(root: string, disk: Disk, p: string, key: string, i: nat, missing: string)
    requires Dangles(root, disk, p, key, i, missing)
    ensures Target(root, disk, p, key, i) == Some(missing) && missing !in disk
  {
  }

  lemma MarkingChangesNothing(root: string, disk: Disk, marks: bool, p: string, key: string, i: nat, m: Move)
    requires Build(root, MARKER) !in disk && m.from != MARKER && m.Source(root) !in disk
    ensures Target(root, disk, p, key, i) == Some(m.Source(root)) ==>
              Dangles(root, MarkedIf(root, disk, marks), p, key, i, m.Source(root))
  {
    hide Expand, KEYS, ProfileRefs;
    BuildIsInjective(root, m.from, MARKER);
  }

  lemma {:induction false} DanglingReferenceStays(root: string, disk: Disk, starts: seq<LayoutStart>,
                                                  p: string, key: string, i: nat, m: Move)
    requires AllPossible(root, disk, starts) && '/' !in m.from && m.from != MARKER
    requires Dangles(root, disk, p, key, i, m.Source(root))
    ensures var (after, place) := AfterLayoutStarts(root, disk, starts, p);
            Dangles(root, after, place, key, i, m.Source(root))
    decreases |starts|
  {
    if starts != [] {
      hide Dangles, Plan, Succeeded, Migrated, IsListing, GoodLayout, Distinct, Move.Source, Dest, MarkedIf;
      var st := starts[0];
      if Build(root, MARKER) !in disk {
        PlannedMovesAreSafe(root, disk, st.directories, st.layout, st.entries, st.ok);
        DanglesAfterMigration(root, disk, st.Moved(root, disk), st.profiles, st.io, st.marks, p, key, i, m);
      }
      DanglingReferenceStays(root, AfterLayoutStart(root, disk, st), starts[1..], PlaceAfter(root, disk, st, p),
                             key, i, m);
    }
  }

  /** The layout migration does not recover from an interruption: if a start renamed a file and did
      not save a profile that refers to it, because it was interrupted or because the save failed,
      the reference names a missing file, and still does after any number of further starts, even
      if they save every profile. */
  lemma InterruptionLeavesDanglingReference(root: string, disk: Disk, moved: seq<Move>, profiles: seq<string>,
                                            io: seq<Io>, marks: bool, j: nat, starts: seq<LayoutStart>,
                                            p: string, key: string, i: nat)
    requires SafeMoves(root, disk, moved) && GoodMoves(moved) && IntoSubdirectories(moved)
    requires |io| <= |profiles| && Distinct(profiles) && Build(root, MARKER) !in disk
    requires j < |moved| && Target(root, disk, p, key, i) == Some(moved[j].Source(root))
    requires !IsSaved(profiles, io, Dest(root, moved, p))
    requires AllPossible(root, MarkedIf(root, Migrated(root, disk, moved, profiles, io), marks), starts)
    ensures var first := MarkedIf(root, Migrated(root, disk, moved, profiles, io), marks);
            var (after, place) := AfterLayoutStarts(root, first, starts, Dest(root, moved, p));
            Dangles(root, after, place, key, i, moved[j].Source(root))
  {
    hide *;
    MarkerAsSource(root);
    TopLevelSource(moved, j);
    GoodMeansApart(moved);
    var migrated := Migrated(root, disk, moved, profiles, io);
    TargetAfter(root, disk, moved, profiles, io, p, key, i);
    MigratedSourceIsGone(root, disk, moved, profiles, io, j);
    MissingStaysMissing(root, disk, moved, profiles, io, Move(MARKER, ""));
    MarkingChangesNothing(root, migrated, marks, Dest(root, moved, p), key, i, moved[j]);
    DanglingReferenceStays(root, MarkedIf(root, migrated, marks), starts, Dest(root, moved, p), key, i, moved[j]);
  }

  /** The smallest case: a map and a profile that names it, and a start that is interrupted after
      moving the map. */
  lemma InterruptedStartLosesReference(root: string)
    ensures var m, profile := Build(root, "a.xcm"), Build(root, "b.prf");
            var disk := map[m := Data([]), profile := ProfileFile(map["MapFile" := CODE + "a.xcm"])];
            var moved := [Move("a.xcm", "maps/a.xcm")];
            && SafeMoves(root, disk, moved) && GoodMoves(moved) && IntoSubdirectories(moved)
            && Target(root, disk, profile, "MapFile", 0) == Some(m)
            && Dangles(root, Migrated(root, disk, moved, [profile], []), profile, "MapFile", 0, m)
  {
    var m, profile := Build(root, "a.xcm"), Build(root, "b.prf");
    var disk: Disk := map[m := Data([]), profile := ProfileFile(map["MapFile" := CODE + "a.xcm"])];
    var moved := [Move("a.xcm", "maps/a.xcm")];
    OneMapMoves();
    OneMapIsSafe(root, disk);
    MapReference(root, disk, profile);
    hide *;
    TargetAfter(root, disk, moved, [profile], [], profile, "MapFile", 0);
    MigratedSourceIsGone(root, disk, moved, [profile], [], 0);
  }

  lemma OneMapIsSafe(root: string, disk: Disk)
    requires disk.Keys == {Build(root, "a.xcm"), Build(root, "b.prf")}
    ensures var moved, profile := [Move("a.xcm", "maps/a.xcm")], Build(root, "b.prf");
            && SafeMoves(root, disk, moved) && Dest(root, moved, profile) == profile && moved[0].Source(root) in disk
            && Distinct([profile]) && !IsSaved([profile], [], profile)
  {
    BuildIsInjective(root, "a.xcm", "b.prf");
    BuildIsInjective(root, "maps/a.xcm", "b.prf");
    BuildIsInjective(root, "maps/a.xcm", "a.xcm");
    hide Build;
    var moved := [Move("a.xcm", "maps/a.xcm")];
    assert moved[..0] == [];
  }

  lemma OneMapMoves()
    ensures var moved := [Move("a.xcm", "maps/a.xcm")];
            GoodMoves(moved) && Apart(moved) && IntoSubdirectories(moved)
  {
    assert "maps/a.xcm"[4] == '/' && Slashes("maps/a.xcm")[4] == '/';
  }

  lemma MapReference(root: string, disk: Disk, profile: string)
    requires profile in disk && disk[profile] == ProfileFile(map["MapFile" := CODE + "a.xcm"])
    ensures Target(root, disk, profile, "MapFile", 0) == Some(Build(root, "a.xcm"))
  {
    RelativeToBuild(root, "a.xcm");
    ExpandStored(root, "a.xcm");
    SlashesSame("a.xcm");
    assert KEYS[0] == "MapFile";
  }

  lemma SourceIsGone(root: string, before: Disk, moved: seq<Move>, after: Disk, j: nat)
    requires FilesFollow(root, before, moved, after) && Apart(moved) && j < |moved|
    ensures moved[j].Source(root) !in after
  {
    hide Dest, Apart, Move.Source, Move.Destination;
    if moved[j].Source(root) in after {
      var q :| q in before && Dest(root, moved, q) == moved[j].Source(root);
      DestIsNoSource(root, moved, q, moved[j].Source(root));
    }
  }

  lemma MissingStaysMissing(root: string, d: Disk, moved: seq<Move>, profiles: seq<string>, io: seq<Io>, m: Move)
    requires SafeMoves(root, d, moved) && IntoSubdirectories(moved) && '/' !in m.from
    requires m.Source(root) !in d && |io| <= |profiles| && Distinct(profiles)
    ensures m.Source(root) !in Migrated(root, d, moved, profiles, io)
    ensures RefDest(root, moved, m.Source(root)) == m.Source(root)
  {
    hide Build, SaveAll, RenameAll, UpdateFromMoves, Distinct, Slashes;
    var missing, renamed := m.Source(root), RenameAll(root, d, moved);
    RenamingLosesNothing(root, d, moved);
    SavingRewritesProfiles(root, moved, renamed, profiles, io);
    DestCases(root, Arrived(moved), missing);
    if missing in renamed {
      var q :| q in d && Dest(root, moved, q) == missing;
      DestCases(root, moved, q);
      var i :| 0 <= i < |moved| && Dest(root, moved, q) == moved[i].Destination(root);
      BuildIsInjective(root, moved[i].to, m.from);
    }
  }
}
