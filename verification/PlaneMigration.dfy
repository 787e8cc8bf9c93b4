/** MovePlanesFromProfiles (src/DataLayoutMigration.cpp): plane files move from profiles/planes to
    planes at every start, and interrupted starts are made good by later ones. */
module PlaneMigration {
  import opened Common
  import opened LocalPath
  import opened ProfilePaths
  import opened Migration

  function PlaneMove(name: string): Move {
    Move(Build("profiles/planes", name), Build("planes", name))
  }

  /** What does not change: the data directory, the existing directories, and which names are
      those of plane files. */
  datatype Setting = Setting(root: string, directories: set<string>, planes: set<string>) {
    predicate Valid() {
      forall name :: name in planes ==> ValidFilename(name)
    }
  }

  /** What one start meets: the files found in profiles/planes, which of the renames succeed, the
      files then found in planes, the profiles, and which of those can be loaded and saved.  A
      start that is interrupted has too few `renames` and no `io`, or too few `io`. */
  datatype Start = Start(names: seq<string>, renames: seq<bool>, present: seq<string>,
                         profiles: seq<string>, io: seq<Io>)

  datatype Queue = Queue(disk: Disk, moves: seq<Move>)

  /** The first loop: the files renamed. */
  function RenamePlanes(s: Setting, disk: Disk, names: seq<string>, renames: seq<bool>): Queue
    requires |renames| <= |names|
  {
    if renames == [] then Queue(disk, [])
    else
      var k := |renames| - 1;
      var q := RenamePlanes(s, disk, names, renames[..k]);
      var m := PlaneMove(names[k]);
      if m.Destination(s.root) in q.disk || m.Destination(s.root) in s.directories
         || !renames[k] || m.Source(s.root) !in q.disk
      then q
      else Queue(Rename(s.root, q.disk, m), q.moves + [m])
  }

  lemma PlanePaths(root: string, name: string)
    ensures PlaneMove(name).Source(root) == root + "/" + ("profiles/planes/" + name)
    ensures PlaneMove(name).Destination(root) == root + "/" + ("planes/" + name)
  {
    assert "profiles/planes" + "/" == "profiles/planes/" && "planes" + "/" == "planes/";
  }

  /** The second loop: planes that an earlier start has renamed. */
  function AddLeftovers(s: Setting, disk: Disk, present: seq<string>, queued: seq<Move>): seq<Move> {
    if present == [] then queued
    else
      var k := |present| - 1;
      var q := AddLeftovers(s, disk, present[..k], queued);
      var m := PlaneMove(present[k]);
      if m in q || m.Source(s.root) in disk || m.Source(s.root) in s.directories then q else q + [m]
  }

  predicate Possible(s: Setting, disk: Disk, start: Start) {
    && |start.renames| <= |start.names| && |start.io| <= |start.profiles| && Distinct(start.profiles)
    && (forall i :: 0 <= i < |start.names| ==> start.names[i] in s.planes)
    && (forall i :: 0 <= i < |start.present| ==> start.present[i] in s.planes)
    && (forall i :: 0 <= i < |start.present| ==>
          PlaneMove(start.present[i]).Destination(s.root) in Renamed(s, disk, start).disk)
  }

  function Renamed(s: Setting, disk: Disk, start: Start): Queue
    requires |start.renames| <= |start.names|
  {
    RenamePlanes(s, disk, start.names, start.renames)
  }

  function Entries(s: Setting, disk: Disk, start: Start): seq<Move>
    requires |start.renames| <= |start.names|
  {
    var q := Renamed(s, disk, start);
    AddLeftovers(s, q.disk, start.present, q.moves)
  }

  function AfterStart(s: Setting, disk: Disk, start: Start): Disk
    requires |start.renames| <= |start.names| && |start.io| <= |start.profiles|
  {
    SaveAll(s.root, Entries(s, disk, start), Renamed(s, disk, start).disk, start.profiles, start.io)
  }

  method MovePlanes(s: Setting, disk: Disk, start: Start) returns (d: Disk)
    requires |start.renames| <= |start.names| && |start.io| <= |start.profiles|
    ensures d == AfterStart(s, disk, start)
  {
    hide Rename, Move.Source, Move.Destination;
    var entries: seq<Move> := [];
    d := disk;
    var renames, present := start.renames, start.present;
    for i := 0 to |renames|
      invariant RenamePlanes(s, disk, start.names, renames[..i]) == Queue(d, entries)
    {
      assert renames[..i + 1][..i] == renames[..i];
      var m := PlaneMove(start.names[i]);
      if m.Destination(s.root) !in d && m.Destination(s.root) !in s.directories {
        if renames[i] && m.Source(s.root) in d {
          d := Rename(s.root, d, m);
          entries := entries + [m];
        }
      }
    }
    assert renames[..|renames|] == renames;
    ghost var queued := entries;
    for i := 0 to |present|
      invariant entries == AddLeftovers(s, d, present[..i], queued)
    {
      assert present[..i + 1][..i] == present[..i];
      var m := PlaneMove(present[i]);
      var isQueued := false;
      for j := 0 to |entries|
        invariant isQueued <==> m in entries[..j]
      {
        if entries[j] == m {
          isQueued := true;
        }
        assert entries[..j + 1] == entries[..j] + [entries[j]];
      }
      assert entries[..|entries|] == entries;
      if !isQueued && m.Source(s.root) !in d && m.Source(s.root) !in s.directories {
        entries := entries + [m];
      }
    }
    assert present[..|present|] == present;
    if entries == [] {
      SavingWithoutMoves(s.root, d, start.profiles, start.io);
      return;
    }
    d := UpdateAllProfiles(s.root, entries, d, start.profiles, start.io);
  }

  // Moves of planes

  predicate IsPlaneMove(s: Setting, m: Move) {
    exists name :: name in s.planes && m == PlaneMove(name)
  }

  predicate PlaneMoves(s: Setting, moves: seq<Move>) {
    forall i :: 0 <= i < |moves| ==> IsPlaneMove(s, moves[i])
  }

  lemma SourceIsNoDestination(root: string, a: string, b: string)
    ensures PlaneMove(a).Source(root) != PlaneMove(b).Destination(root)
    ensures PlaneMove(a).to != PlaneMove(b).from && Slashes(PlaneMove(a).to) != PlaneMove(b).from
    ensures PlaneMove(a).Source(root) != PlaneMove(b).Arrival(root)
    ensures PlaneMove(a).from == PlaneMove(b).from <==> a == b
    ensures PlaneMove(a).to == PlaneMove(b).to <==> a == b
  {
    BuildIsInjective(root, PlaneMove(a).from, PlaneMove(b).to);
    BuildIsInjective(root, PlaneMove(a).from, Slashes(PlaneMove(b).to));
    BuildIsInjective("profiles/planes", a, b);
    BuildIsInjective("planes", a, b);
    assert PlaneMove(a).from[1] == 'r' && PlaneMove(b).to[1] == 'l';
    assert PlaneMove(b).from[1] == 'r' && PlaneMove(a).to[1] == 'l';
  }

  lemma PlaneMoveIsProper(s: Setting, name: string)
    requires s.Valid() && name in s.planes
    ensures PlaneMove(name).Proper()
  {
    var m := PlaneMove(name);
    InBuild("profiles/planes", name);
    InBuild("planes", name);
    assert m.to[0] == 'p' && m.from[0] == 'p';
  }

  lemma InBuild(dir: string, name: string)
    requires '|' !in dir && '\\' !in dir
    ensures '|' in Build(dir, name) <==> '|' in name
    ensures '\\' in Build(dir, name) <==> '\\' in name
  {
    assert forall c :: c in Build(dir, name) <==> c in dir || c == '/' || c in name;
  }

  predicate Unrepeated(moves: seq<Move>) {
    forall i, j :: 0 <= i < j < |moves| ==> moves[i] != moves[j]
  }

  lemma NameOf(s: Setting, moves: seq<Move>, i: nat) returns (name: string)
    requires PlaneMoves(s, moves) && i < |moves|
    ensures name in s.planes && moves[i] == PlaneMove(name)
  {
    assert IsPlaneMove(s, moves[i]);
    name :| name in s.planes && moves[i] == PlaneMove(name);
  }

  lemma PlaneMovesAreGood(s: Setting, moves: seq<Move>)
    requires s.Valid() && PlaneMoves(s, moves) && Unrepeated(moves)
    ensures GoodMoves(moves)
  {
    forall i | 0 <= i < |moves|
      ensures moves[i].Proper()
    {
      var name := NameOf(s, moves, i);
      PlaneMoveIsProper(s, name);
    }
    forall i, j | 0 <= i < |moves| && 0 <= j < |moves|
      ensures moves[i].to != moves[j].from && Slashes(moves[i].to) != moves[j].from
              && (i < j ==> moves[i].from != moves[j].from)
    {
      var a := NameOf(s, moves, i);
      var b := NameOf(s, moves, j);
      SourceIsNoDestination(s.root, a, b);
    }
    hide Slashes, Move.Proper, PlaneMoves, Unrepeated;
  }

  predicate IsLeftover(s: Setting, disk: Disk, present: seq<string>, m: Move) {
    && (exists i :: 0 <= i < |present| && m == PlaneMove(present[i]))
    && m.Source(s.root) !in disk && m.Source(s.root) !in s.directories
  }

  /** The entries are the files just renamed, and those whose old place is empty; each once. */
  lemma {:induction false} EntriesAreQueuedOrLeftover(s: Setting, disk: Disk, present: seq<string>, queued: seq<Move>)
    requires PlaneMoves(s, queued) && Unrepeated(queued)
    requires forall i :: 0 <= i < |present| ==> present[i] in s.planes
    ensures var entries := AddLeftovers(s, disk, present, queued);
            && PlaneMoves(s, entries) && Unrepeated(entries)
            && forall m :: m in entries <==> m in queued || IsLeftover(s, disk, present, m)
  {
    if present != [] {
      hide Move.Source, Build, PlaneMove;
      var k := |present| - 1;
      EntriesAreQueuedOrLeftover(s, disk, present[..k], queued);
      var m := PlaneMove(present[k]);
      forall n
        ensures IsLeftover(s, disk, present, n)
                <==> IsLeftover(s, disk, present[..k], n)
                     || (n == m && m.Source(s.root) !in disk && m.Source(s.root) !in s.directories)
      {
        if i :| 0 <= i < k && n == PlaneMove(present[i]) {
          assert present[..k][i] == present[i];
        }
      }
    }
  }

  /** Which files are renamed: those for which the rename was tried and did not fail, that are
      there, and whose new place is free. */
  lemma {:induction false} RenamedIff(s: Setting, disk: Disk, names: seq<string>, renames: seq<bool>, name: string)
    requires |renames| <= |names| && Distinct(names)
    ensures var m, q := PlaneMove(name), RenamePlanes(s, disk, names, renames);
            && (m in q.moves <==>
                  && (exists i :: 0 <= i < |renames| && names[i] == name && renames[i])
                  && m.Source(s.root) in disk
                  && m.Destination(s.root) !in disk && m.Destination(s.root) !in s.directories)
            && (m.Source(s.root) in q.disk <==> m.Source(s.root) in disk && m !in q.moves)
            && (m.Destination(s.root) in q.disk <==> m.Destination(s.root) in disk || m in q.moves)
  {
    if renames != [] {
      hide Build, Distinct;
      var k := |renames| - 1;
      DistinctPrefix(names, k);
      RenamedIff(s, disk, names[..k], renames[..k], name);
      RenamedIff(s, disk, names[..k], renames[..k], names[k]);
      SameOnPrefix(s, disk, names, renames[..k]);
      SourceIsNoDestination(s.root, name, names[k]);
      SourceIsNoDestination(s.root, names[k], name);
      PlanePlaces(s.root, name, names[k]);
      NameTried(names, renames, name);
      NameTried(names, renames, names[k]);
      hide PlaneMove, Move.Source, Move.Destination;
    }
  }

  lemma DistinctPrefix(names: seq<string>, k: nat)
    requires Distinct(names) && k <= |names|
    ensures Distinct(names[..k]) && forall i :: 0 <= i < k < |names| ==> names[i] != names[k]
  {
  }

  lemma {:induction false} SameOnPrefix(s: Setting, disk: Disk, names: seq<string>, renames: seq<bool>)
    requires |renames| < |names|
    ensures RenamePlanes(s, disk, names[..|renames|], renames) == RenamePlanes(s, disk, names, renames)
  {
    if renames != [] {
      var k := |renames| - 1;
      SameOnPrefix(s, disk, names, renames[..k]);
      SameOnPrefix(s, disk, names[..|renames|], renames[..k]);
      assert names[..|renames|][..k] == names[..k];
    }
  }

  lemma PlanePlaces(root: string, a: string, b: string)
    ensures PlaneMove(a).Source(root) == PlaneMove(b).Source(root) <==> a == b
    ensures PlaneMove(a).Destination(root) == PlaneMove(b).Destination(root) <==> a == b
    ensures PlaneMove(a) == PlaneMove(b) <==> a == b
  {
    BuildIsInjective(root, PlaneMove(a).from, PlaneMove(b).from);
    BuildIsInjective(root, PlaneMove(a).to, PlaneMove(b).to);
    BuildIsInjective("profiles/planes", a, b);
    BuildIsInjective("planes", a, b);
  }

  lemma NameTried(names: seq<string>, renames: seq<bool>, name: string)
    requires 0 < |renames| <= |names|
    ensures var k := |renames| - 1;
            (exists i :: 0 <= i < |renames| && names[i] == name && renames[i])
            <==> || (exists i :: 0 <= i < k && names[..k][i] == name && renames[..k][i])
                 || (names[k] == name && renames[k])
  {
    var k := |renames| - 1;
    if i :| 0 <= i < |renames| && names[i] == name && renames[i] {
      assert i == k || (names[..k][i] == name && renames[..k][i]);
    }
    if i :| 0 <= i < k && names[..k][i] == name && renames[..k][i] {
      assert names[i] == name && renames[i];
    }
  }

  // The invariant over any number of starts

  predicate OnTheWay(s: Setting, original: Disk, moved: seq<Move>, was: Option<string>, now: Option<string>) {
    && was.Some? == now.Some?
    && (was.Some? && was.value in original ==> now.value == was.value || now.value == RefDest(s.root, moved, was.value))
  }

  /** `disk` has come from `original` by the moves `moved`, and each reference that resolved in
      `original` names the old place of its file or where a rewritten reference leads. */
  ghost predicate Recoverable(s: Setting, original: Disk, moved: seq<Move>, disk: Disk) {
    && s.Valid() && original.Keys !! s.directories
    && SafeMoves(s.root, original, moved) && PlaneMoves(s, moved)
    && var ideal := RenameAll(s.root, original, moved);
       && disk.Keys == ideal.Keys
       && (forall p :: p in ideal ==> SameContent(ideal[p], disk[p]))
       && (forall p, key, i: nat ::
             OnTheWay(s, original, moved, Target(s.root, ideal, p, key, i), Target(s.root, disk, p, key, i)))
  }

  lemma OneMoreIsSafe(s: Setting, original: Disk, moved: seq<Move>, disk: Disk, name: string)
    requires Recoverable(s, original, moved, disk) && name in s.planes
    requires PlaneMove(name).Source(s.root) in disk && PlaneMove(name).Destination(s.root) !in disk
    ensures SafeMoves(s.root, original, moved + [PlaneMove(name)]) && PlaneMoves(s, moved + [PlaneMove(name)])
    ensures Dest(s.root, moved, PlaneMove(name).Source(s.root)) == PlaneMove(name).Source(s.root)
    ensures forall i :: 0 <= i < |moved| ==> moved[i].from != PlaneMove(name).from
  {
    var m, ideal := PlaneMove(name), RenameAll(s.root, original, moved);
    OnePlaneMore(s, moved, name);
    FollowedFromOriginal(s, original, moved, disk);
    hide *;
    PresentIsUnmoved(s, original, moved, ideal, name);
    forall i | 0 <= i < |moved|
      ensures moved[i].from != m.from && moved[i].to != m.to
    {
      MovedDiffers(s, original, moved, ideal, i, name);
    }
    if m.Destination(s.root) in original {
      UnmovedStays(s, original, moved, ideal, name);
    }
    SafeOneMore(s.root, original, moved, m);
  }

  lemma OnePlaneMore(s: Setting, moved: seq<Move>, name: string)
    ensures PlaneMoves(s, moved) && name in s.planes ==> PlaneMoves(s, moved + [PlaneMove(name)])
  {
    hide PlaneMove;
  }

  lemma FollowedFromOriginal(s: Setting, original: Disk, moved: seq<Move>, disk: Disk)
    requires Recoverable(s, original, moved, disk)
    ensures var ideal := RenameAll(s.root, original, moved);
            && SafeMoves(s.root, original, moved) && PlaneMoves(s, moved)
            && FilesFollow(s.root, original, moved, ideal) && disk.Keys == ideal.Keys
  {
    hide FilesFollow, OnTheWay, Target, SafeMoves, PlaneMoves;
    RenamingLosesNothing(s.root, original, moved);
  }

  /** A plane at its old place has not moved. */
  lemma PresentIsUnmoved(s: Setting, original: Disk, moved: seq<Move>, ideal: Disk, name: string)
    requires FilesFollow(s.root, original, moved, ideal) && PlaneMoves(s, moved)
    requires PlaneMove(name).Source(s.root) in ideal
    ensures PlaneMove(name).Source(s.root) in original
    ensures Dest(s.root, moved, PlaneMove(name).Source(s.root)) == PlaneMove(name).Source(s.root)
  {
    hide Build, Dest, PlaneMove, PlaneMoves;
    var p :| p in original && Dest(s.root, moved, p) == PlaneMove(name).Source(s.root);
    DestinationIsNoPlaneSource(s, moved, p, name);
  }

  lemma MovedDiffers(s: Setting, original: Disk, moved: seq<Move>, ideal: Disk, i: nat, name: string)
    requires SafeMoves(s.root, original, moved) && PlaneMoves(s, moved) && FilesFollow(s.root, original, moved, ideal)
    requires Dest(s.root, moved, PlaneMove(name).Source(s.root)) == PlaneMove(name).Source(s.root)
    requires PlaneMove(name).Destination(s.root) !in ideal && i < |moved|
    ensures moved[i].from != PlaneMove(name).from && moved[i].to != PlaneMove(name).to
  {
    hide SafeMoves, PlaneMoves, FilesFollow, Dest, PlaneMove, Build;
    var a := NameOf(s, moved, i);
    SourceIsNoDestination(s.root, name, a);
    MovedIsAtDestination(s, original, moved, ideal, i);
  }

  lemma DestinationIsNoPlaneSource(s: Setting, moved: seq<Move>, p: string, name: string)
    requires PlaneMoves(s, moved) && Dest(s.root, moved, p) == PlaneMove(name).Source(s.root)
    ensures p == Dest(s.root, moved, p)
  {
    hide Build;
    DestCases(s.root, moved, p);
    if i :| 0 <= i < |moved| && Dest(s.root, moved, p) == moved[i].Destination(s.root) {
      var a := NameOf(s, moved, i);
      SourceIsNoDestination(s.root, name, a);
    }
  }

  lemma MovedIsAtDestination(s: Setting, original: Disk, moved: seq<Move>, ideal: Disk, i: nat)
    requires SafeMoves(s.root, original, moved) && FilesFollow(s.root, original, moved, ideal) && i < |moved|
    ensures Dest(s.root, moved, moved[i].Source(s.root)) == moved[i].Destination(s.root)
    ensures moved[i].Destination(s.root) in ideal
  {
    hide Build;
    DestOfSource(s.root, moved, i);
  }

  lemma UnmovedStays(s: Setting, original: Disk, moved: seq<Move>, ideal: Disk, name: string)
    requires FilesFollow(s.root, original, moved, ideal) && PlaneMoves(s, moved)
    requires PlaneMove(name).Destination(s.root) in original
    ensures PlaneMove(name).Destination(s.root) in ideal
  {
    hide Build;
    var t := PlaneMove(name).Destination(s.root);
    DestCases(s.root, moved, t);
    if i :| 0 <= i < |moved| && t == moved[i].Source(s.root) {
      var a := NameOf(s, moved, i);
      SourceIsNoDestination(s.root, a, name);
    }
  }

  lemma RefDestOfOther(root: string, moves: seq<Move>, m: Move)
    requires forall i :: 0 <= i < |moves| ==> moves[i].from != m.from
    ensures RefDest(root, moves, m.Source(root)) == m.Source(root)
  {
    hide Build;
    RefDestCases(root, moves, m.Source(root));
    if i :| 0 <= i < |moves| && m.Source(root) == moves[i].Source(root) {
      BuildIsInjective(root, m.from, moves[i].from);
    }
  }

  lemma RefDestOneMore(root: string, init: seq<Move>, m: Move, path: string)
    ensures RefDest(root, init + [m], path)
            == if path == m.Source(root) then m.Arrival(root) else RefDest(root, init, path)
  {
    RefDestLast(root, init + [m], path);
    assert (init + [m])[..|init|] == init;
  }

  lemma RecoverableOneMore(s: Setting, original: Disk, moved: seq<Move>, disk: Disk, name: string)
    requires Recoverable(s, original, moved, disk) && name in s.planes
    requires PlaneMove(name).Source(s.root) in disk && PlaneMove(name).Destination(s.root) !in disk
    ensures Recoverable(s, original, moved + [PlaneMove(name)], Rename(s.root, disk, PlaneMove(name)))
  {
    hide Build, Dest, RefDest, PlaneMove, SafeMoves, PlaneMoves, Move.Source, Move.Destination, Expand, ProfileRefs,
         KEYS;
    OneMoreIsSafe(s, original, moved, disk, name);
    RefDestOfOther(s.root, moved, PlaneMove(name));
    var m, more := PlaneMove(name), moved + [PlaneMove(name)];
    var ideal, after := RenameAll(s.root, original, moved), Rename(s.root, disk, m);
    var ideal' := RenameAll(s.root, original, more);
    assert more[..|moved|] == moved;
    assert ideal' == Rename(s.root, ideal, m);
    forall p, key, i: nat
      ensures OnTheWay(s, original, more, Target(s.root, ideal', p, key, i), Target(s.root, after, p, key, i))
    {
      var q := if p == m.Destination(s.root) then m.Source(s.root) else p;
      assert OnTheWay(s, original, moved, Target(s.root, ideal, q, key, i), Target(s.root, disk, q, key, i));
      if Target(s.root, ideal', p, key, i).Some? {
        RefDestOneMore(s.root, moved, m, Target(s.root, ideal', p, key, i).value);
      }
    }
  }

  lemma {:induction false} RenamingKeepsRecoverable(s: Setting, original: Disk, moved: seq<Move>, disk: Disk,
                                                    names: seq<string>, renames: seq<bool>)
    requires Recoverable(s, original, moved, disk) && |renames| <= |names|
    requires forall i :: 0 <= i < |names| ==> names[i] in s.planes
    ensures var q := RenamePlanes(s, disk, names, renames); Recoverable(s, original, moved + q.moves, q.disk)
  {
    hide Recoverable, PlaneMove, Rename, Move.Source, Move.Destination;
    if renames == [] {
      assert moved + [] == moved;
    } else {
      var k := |renames| - 1;
      var q, m := RenamePlanes(s, disk, names, renames[..k]), PlaneMove(names[k]);
      RenamingKeepsRecoverable(s, original, moved, disk, names, renames[..k]);
      if m.Source(s.root) in q.disk && m.Destination(s.root) !in q.disk {
        RecoverableOneMore(s, original, moved + q.moves, q.disk, names[k]);
        assert moved + (q.moves + [m]) == moved + q.moves + [m];
      }
    }
  }

  // Saving

  /** The entries of a start lead from empty places, each to where the file that was there went. */
  ghost predicate GoodEntries(s: Setting, disk: Disk, entries: seq<Move>) {
    && PlaneMoves(s, entries) && Unrepeated(entries)
    && forall i :: 0 <= i < |entries| ==> entries[i].Source(s.root) !in disk
  }

  lemma PlaceOfMoved(s: Setting, original: Disk, moved: seq<Move>, disk: Disk, path: string)
    requires Recoverable(s, original, moved, disk) && path in original
    ensures Dest(s.root, moved, path) in disk
    ensures SameContent(original[path], disk[Dest(s.root, moved, path)])
  {
    hide Dest, SafeMoves, PlaneMoves, OnTheWay;
    RenamingLosesNothing(s.root, original, moved);
  }

  lemma EntryFollows(s: Setting, original: Disk, moved: seq<Move>, disk: Disk, entries: seq<Move>, path: string,
                     now: string)
    requires Recoverable(s, original, moved, disk) && GoodEntries(s, disk, entries) && path in original
    requires now == path || now == RefDest(s.root, moved, path)
    ensures RefDest(s.root, entries, now) == now || RefDest(s.root, entries, now) == RefDest(s.root, moved, path)
  {
    PlaceOfMoved(s, original, moved, disk, path);
    assert PlaneMoves(s, moved);
    hide PlaneMoves, Build, Recoverable, SameContent, RefDest, Move.Arrival;
    RefDestCases(s.root, entries, now);
    DestCases(s.root, moved, path);
    RefDestCases(s.root, moved, path);
    if i :| 0 <= i < |entries| && now == entries[i].Source(s.root)
            && RefDest(s.root, entries, now) == entries[i].Arrival(s.root) {
      var j :| 0 <= j < |moved| && path == moved[j].Source(s.root)
          && RefDest(s.root, moved, path) == moved[j].Arrival(s.root);
      var a := NameOf(s, entries, i);
      var b := NameOf(s, moved, j);
      SourceIsNoDestination(s.root, a, b);
      BuildIsInjective(s.root, entries[i].from, moved[j].from);
    }
  }

  lemma SavingKeepsRecoverable(s: Setting, original: Disk, moved: seq<Move>, disk: Disk, entries: seq<Move>,
                               profiles: seq<string>, io: seq<Io>)
    requires Recoverable(s, original, moved, disk) && GoodEntries(s, disk, entries)
    requires |io| <= |profiles| && Distinct(profiles)
    ensures Recoverable(s, original, moved, SaveAll(s.root, entries, disk, profiles, io))
  {
    hide Dest, RefDest, SafeMoves, PlaneMoves, Target, Distinct, IsSaved, UpdateFromMoves, GoodEntries, Unrepeated;
    EntriesAreGood(s, disk, entries);
    SavingRewritesProfiles(s.root, entries, disk, profiles, io);
    var ideal, after := RenameAll(s.root, original, moved), SaveAll(s.root, entries, disk, profiles, io);
    forall p, key, i: nat
      ensures OnTheWay(s, original, moved, Target(s.root, ideal, p, key, i), Target(s.root, after, p, key, i))
    {
      var was, now := Target(s.root, ideal, p, key, i), Target(s.root, disk, p, key, i);
      assert OnTheWay(s, original, moved, was, now);
      SavedTarget(s.root, entries, disk, profiles, io, p, key, i);
      if was.Some? && was.value in original {
        EntryFollows(s, original, moved, disk, entries, was.value, now.value);
      }
    }
  }

  lemma EntriesAreGood(s: Setting, disk: Disk, entries: seq<Move>)
    requires s.Valid() && GoodEntries(s, disk, entries)
    ensures GoodMoves(entries)
  {
    PlaneMovesAreGood(s, entries);
  }

  lemma MovedAreGood(s: Setting, original: Disk, moved: seq<Move>, disk: Disk)
    requires Recoverable(s, original, moved, disk)
    ensures GoodMoves(moved) && forall i :: 0 <= i < |moved| ==> moved[i].Source(s.root) !in disk
  {
    hide Dest, Target, OnTheWay, Build;
    PlaneMovesAreGood(s, moved);
    var ideal := RenameAll(s.root, original, moved);
    RenamingLosesNothing(s.root, original, moved);
    forall i | 0 <= i < |moved|
      ensures moved[i].Source(s.root) !in disk
    {
      SourceIsGone(s.root, original, moved, ideal, i);
    }
  }

  // Whole starts

  /** At the beginning nothing has moved. */
  lemma OriginalIsRecoverable(s: Setting, original: Disk)
    requires s.Valid() && original.Keys !! s.directories
    ensures Recoverable(s, original, [], original)
  {
    hide Target;
  }

  /** What a start's entries are, in terms of all moves so far. */
  lemma EntriesOfStart(s: Setting, original: Disk, moved: seq<Move>, disk: Disk, start: Start)
    requires Recoverable(s, original, moved, disk) && Possible(s, disk, start)
    ensures var q, entries := Renamed(s, disk, start), Entries(s, disk, start);
            && Recoverable(s, original, moved + q.moves, q.disk)
            && GoodEntries(s, q.disk, entries)
            && forall m :: m in entries <==> m in q.moves || IsLeftover(s, q.disk, start.present, m)
  {
    hide Recoverable, PlaneMove, Move.Source, Move.Destination, GoodMoves, IsPlaneMove, IsLeftover;
    var q, all := Renamed(s, disk, start), moved + Renamed(s, disk, start).moves;
    RenamingKeepsRecoverable(s, original, moved, disk, start.names, start.renames);
    RecoverableMoves(s, original, all, q.disk);
    MovedAreGood(s, original, all, q.disk);
    assert forall i :: 0 <= i < |q.moves| ==> q.moves[i] == all[|moved| + i];
    EntriesAreQueuedOrLeftover(s, q.disk, start.present, q.moves);
    var entries := Entries(s, disk, start);
    forall i | 0 <= i < |entries|
      ensures entries[i].Source(s.root) !in q.disk
    {
      assert entries[i] in entries;
      if entries[i] in q.moves {
        var j :| 0 <= j < |q.moves| && q.moves[j] == entries[i];
      } else {
        LeftoverIsGone(s, q.disk, start.present, entries[i]);
      }
    }
  }

  lemma RecoverableMoves(s: Setting, original: Disk, moved: seq<Move>, disk: Disk)
    requires Recoverable(s, original, moved, disk)
    ensures s.Valid() && PlaneMoves(s, moved) && Unrepeated(moved)
  {
    hide OnTheWay, Target;
  }

  lemma LeftoverIsGone(s: Setting, disk: Disk, present: seq<string>, m: Move)
    requires IsLeftover(s, disk, present, m)
    ensures m.Source(s.root) !in disk
  {
  }

  /** Every start, also one interrupted anywhere, leaves a state from which later starts can
      finish. */
  lemma StartKeepsRecoverable(s: Setting, original: Disk, moved: seq<Move>, disk: Disk, start: Start)
    requires Recoverable(s, original, moved, disk) && Possible(s, disk, start)
    ensures Recoverable(s, original, moved + Renamed(s, disk, start).moves, AfterStart(s, disk, start))
  {
    hide Recoverable, GoodEntries, Entries, Renamed;
    EntriesOfStart(s, original, moved, disk, start);
    SavingKeepsRecoverable(s, original, moved + Renamed(s, disk, start).moves, Renamed(s, disk, start).disk,
                           Entries(s, disk, start), start.profiles, start.io);
  }

  predicate AllPossible(s: Setting, disk: Disk, starts: seq<Start>)
    decreases |starts|, 0
  {
    starts != [] ==>
      && AllPossible(s, disk, starts[..|starts| - 1])
      && Possible(s, AfterStarts(s, disk, starts[..|starts| - 1]), starts[|starts| - 1])
  }

  function AfterStarts(s: Setting, disk: Disk, starts: seq<Start>): Disk
    requires AllPossible(s, disk, starts)
    decreases |starts|, 1
  {
    if starts == [] then disk else AfterStart(s, AfterStarts(s, disk, starts[..|starts| - 1]), starts[|starts| - 1])
  }

  lemma {:induction false} StartsKeepRecoverable(s: Setting, original: Disk, starts: seq<Start>)
    returns (moved: seq<Move>)
    requires s.Valid() && original.Keys !! s.directories && AllPossible(s, original, starts)
    ensures Recoverable(s, original, moved, AfterStarts(s, original, starts))
  {
    hide Recoverable, Renamed, AfterStart;
    if starts == [] {
      OriginalIsRecoverable(s, original);
      moved := [];
    } else {
      var before := AfterStarts(s, original, starts[..|starts| - 1]);
      moved := StartsKeepRecoverable(s, original, starts[..|starts| - 1]);
      StartKeepsRecoverable(s, original, moved, before, starts[|starts| - 1]);
      moved := moved + Renamed(s, before, starts[|starts| - 1]).moves;
    }
  }

  /** Not interrupted: all planes were found, and all profiles found, loaded and saved. */
  ghost predicate Complete(s: Setting, disk: Disk, start: Start)
    requires |start.renames| <= |start.names|
  {
    var d := Renamed(s, disk, start).disk;
    && |start.renames| == |start.names|
    && (forall name :: name in s.planes && PlaneMove(name).Destination(s.root) in d ==> name in start.present)
    && AllSaved(d, start.profiles, start.io)
  }

  lemma MovedIsEntry(s: Setting, original: Disk, moved: seq<Move>, disk: Disk, start: Start, i: nat)
    requires Recoverable(s, original, moved, disk) && Possible(s, disk, start) && Complete(s, disk, start)
    requires i < |moved + Renamed(s, disk, start).moves|
    ensures (moved + Renamed(s, disk, start).moves)[i] in Entries(s, disk, start)
  {
    hide Recoverable, Build, AllSaved, Entries;
    var q := Renamed(s, disk, start);
    var all := moved + q.moves;
    EntriesOfStart(s, original, moved, disk, start);
    if i >= |moved| {
      assert all[i] in q.moves;
    } else {
      RecoverableMoves(s, original, all, q.disk);
      var name := NameOf(s, all, i);
      MovedAreGood(s, original, all, q.disk);
      MovedWasThere(s, original, all, q.disk, i);
      var j :| 0 <= j < |start.present| && start.present[j] == name;
      assert IsLeftover(s, q.disk, start.present, PlaneMove(start.present[j]));
    }
  }

  lemma MovedWasThere(s: Setting, original: Disk, moved: seq<Move>, disk: Disk, i: nat)
    requires Recoverable(s, original, moved, disk) && i < |moved|
    ensures moved[i].Source(s.root) in original && moved[i].Source(s.root) !in s.directories
    ensures moved[i].Destination(s.root) in disk
    ensures Dest(s.root, moved, moved[i].Source(s.root)) == moved[i].Destination(s.root)
  {
    assert moved[i].Source(s.root) in original && moved[i].Source(s.root) !in s.directories;
    assert forall i, j :: 0 <= i < j < |moved| ==> moved[i].from != moved[j].from;
    hide Recoverable, Build;
    DestOfSource(s.root, moved, i);
    PlaceOfMoved(s, original, moved, disk, moved[i].Source(s.root));
  }

  /** With all moved files among the entries, saving brings a reference to its file's new place. */
  lemma EntryArrives(s: Setting, original: Disk, moved: seq<Move>, disk: Disk, entries: seq<Move>, path: string,
                     now: string)
    requires Recoverable(s, original, moved, disk) && GoodEntries(s, disk, entries) && path in original
    requires forall i :: 0 <= i < |moved| ==> moved[i] in entries
    requires now == path || now == RefDest(s.root, moved, path)
    ensures RefDest(s.root, entries, now) == RefDest(s.root, moved, path)
  {
    EntryFollows(s, original, moved, disk, entries, path, now);
    if now != RefDest(s.root, moved, path) {
      RecoverableMoves(s, original, moved, disk);
      EntriesAreGood(s, disk, entries);
      hide Build, Recoverable, GoodEntries, RefDest, Move.Arrival;
      RefDestCases(s.root, moved, path);
      var j :| 0 <= j < |moved| && path == moved[j].Source(s.root)
          && RefDest(s.root, moved, path) == moved[j].Arrival(s.root);
      assert moved[j] in entries;
      var i :| 0 <= i < |entries| && entries[i] == moved[j];
      RefDestOfSource(s.root, entries, i);
    }
  }

  lemma RefDestOfSource(root: string, moves: seq<Move>, i: nat)
    requires GoodMoves(moves) && i < |moves|
    ensures RefDest(root, moves, moves[i].Source(root)) == moves[i].Arrival(root)
  {
    hide Slashes, Build;
    DestOfSource(root, Arrived(moves), i);
  }

  lemma TargetOnTheWay(s: Setting, original: Disk, moved: seq<Move>, disk: Disk, p: string, key: string, i: nat)
    requires Recoverable(s, original, moved, disk)
    requires Target(s.root, original, p, key, i).Some? && Target(s.root, original, p, key, i).value in original
    ensures var now := Target(s.root, disk, Dest(s.root, moved, p), key, i);
            var target := Target(s.root, original, p, key, i).value;
            now.Some? && (now.value == target || now.value == RefDest(s.root, moved, target))
  {
    IdealTarget(s, original, moved, p, key, i);
    hide Target, Dest, RefDest, RenameAll, SafeMoves, PlaneMoves;
    var ideal, q := RenameAll(s.root, original, moved), Dest(s.root, moved, p);
    assert OnTheWay(s, original, moved, Target(s.root, ideal, q, key, i), Target(s.root, disk, q, key, i));
  }

  lemma IdealTarget(s: Setting, original: Disk, moved: seq<Move>, p: string, key: string, i: nat)
    requires SafeMoves(s.root, original, moved)
    requires Target(s.root, original, p, key, i).Some?
    ensures Target(s.root, RenameAll(s.root, original, moved), Dest(s.root, moved, p), key, i)
            == Target(s.root, original, p, key, i)
  {
    hide Expand, KEYS, ProfileRefs, Dest, SafeMoves, RenameAll, FilesFollow;
    RenamingLosesNothing(s.root, original, moved);
    FollowedFile(s.root, original, moved, RenameAll(s.root, original, moved), p);
  }

  lemma SavedAfterStart(s: Setting, original: Disk, moved: seq<Move>, disk: Disk, p: string, key: string, i: nat,
                        profiles: seq<string>, io: seq<Io>)
    requires Recoverable(s, original, moved, disk) && AllSaved(disk, profiles, io)
    requires Target(s.root, original, p, key, i).Some?
    ensures IsSaved(profiles, io, Dest(s.root, moved, p))
  {
    hide Expand, KEYS, ProfileRefs, Dest, SafeMoves, PlaneMoves, RenameAll, IsSaved, OnTheWay, Distinct;
    var ideal, q := RenameAll(s.root, original, moved), Dest(s.root, moved, p);
    IdealTarget(s, original, moved, p, key, i);
    assert OnTheWay(s, original, moved, Target(s.root, ideal, q, key, i), Target(s.root, disk, q, key, i));
    assert q in ideal && SameContent(ideal[q], disk[q]);
  }

  /** After any number of starts, each of which may have been interrupted anywhere, one complete
      start makes every reference that resolved originally resolve to its original content, if and
      only if its file did not move or its name has no backslash; other names do not disturb it. */
  lemma CompleteStartRestoresReferences(s: Setting, original: Disk, starts: seq<Start>, last: Start,
                                        p: string, key: string, i: nat)
    returns (moved: seq<Move>)
    requires s.Valid() && original.Keys !! s.directories && AllPossible(s, original, starts)
    requires Possible(s, AfterStarts(s, original, starts), last) && Complete(s, AfterStarts(s, original, starts), last)
    requires Target(s.root, original, p, key, i).Some? && Target(s.root, original, p, key, i).value in original
    ensures PlaneMoves(s, moved)
    ensures Recoverable(s, original, moved, AfterStart(s, AfterStarts(s, original, starts), last))
    ensures var after := AfterStart(s, AfterStarts(s, original, starts), last);
            var target := Target(s.root, original, p, key, i).value;
            var place, file := Target(s.root, after, Dest(s.root, moved, p), key, i), Dest(s.root, moved, target);
            && file in after && SameContent(original[target], after[file])
            && (file == target <==> target in after)
            && (place == Some(file) <==> file == target || !HasBackslash(s.root, target))
  {
    var disk := AfterStarts(s, original, starts);
    var before := StartsKeepRecoverable(s, original, starts);
    moved := before + Renamed(s, disk, last).moves;
    var d, entries := Renamed(s, disk, last).disk, Entries(s, disk, last);
    EntriesOfStart(s, original, before, disk, last);
    CompleteSaves(s, disk, last);
    forall j | 0 <= j < |moved|
      ensures moved[j] in entries
    {
      hide *;
      MovedIsEntry(s, original, before, disk, last, j);
    }
    hide *;
    RecoverableMoves(s, original, moved, d);
    EntriesAreGood(s, d, entries);
    MovedAreGood(s, original, moved, d);
    var target := Target(s.root, original, p, key, i).value;
    var q := Dest(s.root, moved, p);
    TargetOnTheWay(s, original, moved, d, p, key, i);
    SavedAfterStart(s, original, moved, d, p, key, i, last.profiles, last.io);
    StartIsSave(s, disk, last);
    SavedTarget(s.root, entries, d, last.profiles, last.io, q, key, i);
    EntryArrives(s, original, moved, d, entries, target, Target(s.root, d, q, key, i).value);
    StartKeepsRecoverable(s, original, before, disk, last);
    PlaceOfMoved(s, original, moved, AfterStart(s, disk, last), target);
    SamePlaceIff(s.root, moved, target);
    GoneIfMoved(s, original, moved, AfterStart(s, disk, last), target);
  }

  /** A file that was moved is no longer at its old place. */
  lemma GoneIfMoved(s: Setting, original: Disk, moved: seq<Move>, disk: Disk, path: string)
    requires Recoverable(s, original, moved, disk) && path in original
    ensures Dest(s.root, moved, path) == path <==> path in disk
  {
    hide *;
    MovedAreGood(s, original, moved, disk);
    PlaceOfMoved(s, original, moved, disk, path);
    DestCases(s.root, moved, path);
  }

  lemma CompleteSaves(s: Setting, disk: Disk, start: Start)
    requires |start.renames| <= |start.names| && Complete(s, disk, start)
    ensures AllSaved(Renamed(s, disk, start).disk, start.profiles, start.io)
    ensures |start.io| == |start.profiles| && Distinct(start.profiles)
  {
    hide Renamed;
  }

  lemma StartIsSave(s: Setting, disk: Disk, start: Start)
    requires |start.renames| <= |start.names| && |start.io| <= |start.profiles|
    ensures AfterStart(s, disk, start)
            == SaveAll(s.root, Entries(s, disk, start), Renamed(s, disk, start).disk, start.profiles, start.io)
  {
  }

  // Nothing is left to do

  lemma {:induction false} RenamedFilesWereThere(s: Setting, disk: Disk, names: seq<string>, renames: seq<bool>)
    requires |renames| <= |names|
    ensures var q := RenamePlanes(s, disk, names, renames);
            && (forall i :: 0 <= i < |q.moves| ==> q.moves[i].Source(s.root) in disk)
            && (forall p :: p in q.disk ==> p in disk || exists n :: p == PlaneMove(n).Destination(s.root))
  {
    if renames != [] {
      hide Build;
      var k := |renames| - 1;
      RenamedFilesWereThere(s, disk, names, renames[..k]);
      forall n
        ensures PlaneMove(names[k]).Source(s.root) != PlaneMove(n).Destination(s.root)
      {
        SourceIsNoDestination(s.root, names[k], n);
      }
    }
  }

  /** Of the planes that were tried, those still at the old place have their new place taken. */
  lemma {:induction false} TriedOrTaken(s: Setting, disk: Disk, names: seq<string>, renames: seq<bool>, i: nat)
    requires i < |renames| <= |names| && renames[i]
    ensures var d, m := RenamePlanes(s, disk, names, renames).disk, PlaneMove(names[i]);
            m.Source(s.root) in d ==> m.Destination(s.root) in d || m.Destination(s.root) in s.directories
  {
    hide Build;
    var k := |renames| - 1;
    SourceIsNoDestination(s.root, names[i], names[k]);
    SourceIsNoDestination(s.root, names[k], names[i]);
    if i < k {
      TriedOrTaken(s, disk, names, renames[..k], i);
    }
  }

  /** After a complete start whose renames all succeed no later start renames anything. */
  lemma NothingLeftToRename(s: Setting, disk: Disk, last: Start, further: Start)
    requires Possible(s, disk, last) && Possible(s, AfterStart(s, disk, last), further)
    requires |last.renames| == |last.names| && forall i :: 0 <= i < |last.renames| ==> last.renames[i]
    requires forall name :: name in s.planes && PlaneMove(name).Source(s.root) in disk ==> name in last.names
    ensures Renamed(s, AfterStart(s, disk, last), further).moves == []
  {
    hide Move.Source, Move.Destination, PlaneMove, RenamePlanes, UpdateFromMoves, Entries;
    var d, after := Renamed(s, disk, last).disk, AfterStart(s, disk, last);
    SavingRewritesProfiles(s.root, Entries(s, disk, last), d, last.profiles, last.io);
    RenamedFilesWereThere(s, disk, last.names, last.renames);
    forall name | name in s.planes && PlaneMove(name).Source(s.root) in after
      ensures PlaneMove(name).Destination(s.root) in after || PlaneMove(name).Destination(s.root) in s.directories
    {
      forall n
        ensures PlaneMove(name).Source(s.root) != PlaneMove(n).Destination(s.root)
      {
        SourceIsNoDestination(s.root, name, n);
      }
      var i :| 0 <= i < |last.names| && last.names[i] == name;
      TriedOrTaken(s, disk, last.names, last.renames, i);
    }
    NoneCanBeRenamed(s, after, further.names, further.renames);
  }

  lemma {:induction false} NoneCanBeRenamed(s: Setting, disk: Disk, names: seq<string>, renames: seq<bool>)
    requires |renames| <= |names| && forall i :: 0 <= i < |names| ==> names[i] in s.planes
    requires forall name :: name in s.planes && PlaneMove(name).Source(s.root) in disk ==>
               PlaneMove(name).Destination(s.root) in disk || PlaneMove(name).Destination(s.root) in s.directories
    ensures RenamePlanes(s, disk, names, renames) == Queue(disk, [])
  {
    if renames != [] {
      hide PlaneMove, Move.Source, Move.Destination;
      NoneCanBeRenamed(s, disk, names, renames[..|renames| - 1]);
    }
  }

  /** After a complete start, a further start changes nothing at all if and only if none of its
      renames succeeds. */
  lemma FurtherStartChangesNothing(s: Setting, original: Disk, starts: seq<Start>, last: Start, further: Start)
    requires s.Valid() && original.Keys !! s.directories && AllPossible(s, original, starts)
    requires Possible(s, AfterStarts(s, original, starts), last) && Complete(s, AfterStarts(s, original, starts), last)
    requires Possible(s, AfterStart(s, AfterStarts(s, original, starts), last), further)
    ensures var after := AfterStart(s, AfterStarts(s, original, starts), last);
            AfterStart(s, after, further) == after <==> Renamed(s, after, further).moves == []
  {
    var disk := AfterStarts(s, original, starts);
    var after := AfterStart(s, disk, last);
    if Renamed(s, after, further).moves == [] {
      IdleStartChangesNothing(s, original, starts, last, further);
    } else {
      hide Recoverable, Renamed, Entries, UpdateFromMoves, Distinct, Possible, Complete, GoodEntries, IsLeftover,
           Move.Source;
      var before := StartsKeepRecoverable(s, original, starts);
      StartKeepsRecoverable(s, original, before, disk, last);
      RenamingChangesDisk(s, original, before + Renamed(s, disk, last).moves, after, further);
    }
  }

  lemma RenamingChangesDisk(s: Setting, original: Disk, moved: seq<Move>, disk: Disk, start: Start)
    requires Recoverable(s, original, moved, disk) && Possible(s, disk, start) && Renamed(s, disk, start).moves != []
    ensures AfterStart(s, disk, start) != disk
  {
    hide Recoverable, RenamePlanes, Entries, UpdateFromMoves, GoodMoves, Move.Source;
    var q := Renamed(s, disk, start);
    RenamingKeepsRecoverable(s, original, moved, disk, start.names, start.renames);
    MovedAreGood(s, original, moved + q.moves, q.disk);
    RenamedFilesWereThere(s, disk, start.names, start.renames);
    SavingRewritesProfiles(s.root, Entries(s, disk, start), q.disk, start.profiles, start.io);
    assert (moved + q.moves)[|moved|] == q.moves[0];
  }

  lemma IdleStartChangesNothing(s: Setting, original: Disk, starts: seq<Start>, last: Start, further: Start)
    requires s.Valid() && original.Keys !! s.directories && AllPossible(s, original, starts)
    requires Possible(s, AfterStarts(s, original, starts), last) && Complete(s, AfterStarts(s, original, starts), last)
    requires var after := AfterStart(s, AfterStarts(s, original, starts), last);
             Possible(s, after, further) && Renamed(s, after, further).moves == []
    ensures var after := AfterStart(s, AfterStarts(s, original, starts), last);
            AfterStart(s, after, further) == after
  {
    hide Recoverable, Entries, Renamed, GoodEntries, GoodMoves, RefersTo, UpdateFromMoves, Distinct, IsSaved,
         Move.Source;
    var disk := AfterStarts(s, original, starts);
    var before := StartsKeepRecoverable(s, original, starts);
    EntriesOfStart(s, original, before, disk, last);
    var moved := before + Renamed(s, disk, last).moves;
    StartKeepsRecoverable(s, original, before, disk, last);
    var d, entries, after := Renamed(s, disk, last).disk, Entries(s, disk, last), AfterStart(s, disk, last);
    EntriesOfStart(s, original, moved, after, further);
    RecoverableMoves(s, original, moved, d);
    var again := Entries(s, after, further);
    EntriesAreGood(s, d, entries);
    NothingRenamed(s, after, further);
    EntriesAreGood(s, after, again);
    SavingRewritesProfiles(s.root, entries, d, last.profiles, last.io);
    SavingRewritesProfiles(s.root, again, after, further.profiles, further.io);
    forall i | 0 <= i < |again|
      ensures again[i] in entries
    {
      LeftoverAgain(s, disk, last, after, further, again[i]);
    }
    forall p | p in after && after[p].ProfileFile?
      ensures UpdateFromMoves(s.root, again, after[p].entries) == after[p].entries
    {
      UpdatedTwice(s.root, entries, again, d[p].entries);
    }
  }

  lemma UpdatedTwice(root: string, moves: seq<Move>, again: seq<Move>, p: Profile)
    requires GoodMoves(moves) && GoodMoves(again) && forall i :: 0 <= i < |again| ==> again[i] in moves
    ensures var q := UpdateFromMoves(root, moves, p); UpdateFromMoves(root, again, q) == q
  {
    hide GoodMoves, RefersTo, UpdateFromMoves, Move.Source;
    var q := UpdateFromMoves(root, moves, p);
    forall i | 0 <= i < |again|
      ensures !RefersTo(root, q, again[i].Source(root))
    {
      var j :| 0 <= j < |moves| && moves[j] == again[i];
      UpdateLeavesNoSource(root, moves, p, again[i].Source(root));
    }
    NoReferenceNoChange(root, again, q);
  }

  lemma NothingRenamed(s: Setting, disk: Disk, start: Start)
    requires |start.renames| <= |start.names| && Renamed(s, disk, start).moves == []
    ensures Renamed(s, disk, start).disk == disk
  {
    NoMovesNoRename(s, disk, start.names, start.renames);
  }

  lemma {:induction false} NoMovesNoRename(s: Setting, disk: Disk, names: seq<string>, renames: seq<bool>)
    requires |renames| <= |names| && RenamePlanes(s, disk, names, renames).moves == []
    ensures RenamePlanes(s, disk, names, renames).disk == disk
  {
    if renames != [] {
      NoMovesNoRename(s, disk, names, renames[..|renames| - 1]);
    }
  }

  /** What a further start finds left over, the complete start before it already had. */
  lemma LeftoverAgain(s: Setting, disk: Disk, last: Start, after: Disk, further: Start, m: Move)
    requires Possible(s, disk, last) && Complete(s, disk, last) && Possible(s, after, further)
    requires after.Keys == Renamed(s, disk, last).disk.Keys && Renamed(s, after, further).disk == after
    requires IsLeftover(s, after, further.present, m)
    ensures IsLeftover(s, Renamed(s, disk, last).disk, last.present, m)
  {
    hide Renamed, AllSaved, Move.Source, Move.Destination;
    var i :| 0 <= i < |further.present| && m == PlaneMove(further.present[i]);
    assert further.present[i] in last.present;
  }
}
